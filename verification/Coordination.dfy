/** Selection among the participants of a launched group: all, settled, any and race over an
    arbitrary settlement order, and the dispatch of what was selected. */
module Coordination {
  import opened Wrappers
  import G = Groups

  type Completion = G.Completion

  datatype Mode = All | Settled | Any | Race

  datatype Selection = AllOf(outcomes: seq<Completion>) | One(index: nat, completion: Completion) | AllFailed(outcomes: seq<Completion>)

  /** One participant's adapter running: `order` below lists them as they run. */
  datatype Settlement = Settlement(index: nat, completion: Completion)

  /** Each participant settles at most once; some may never settle. */
  ghost predicate Order(order: seq<Settlement>, count: nat) {
    && (forall k | 0 <= k < |order| :: order[k].index < count)
    && (forall j, k | 0 <= j < k < |order| :: order[j].index != order[k].index)
  }

  // --------------------------------------------------------------------- meaning ---

  /** The position of the first success, or of the first failure. */
  function First(order: seq<Settlement>, success: bool): (first: Option<nat>)
    ensures first.None? ==> forall k | 0 <= k < |order| :: order[k].completion.Success? != success
    ensures first.Some? ==> first.value < |order| && order[first.value].completion.Success? == success
    ensures first.Some? ==> forall k | 0 <= k < first.value :: order[k].completion.Success? != success
  {
    if order == [] then None
    else
      var n := |order| - 1;
      match First(order[..n], success)
      case Some(k) => Some(k)
      case None => if order[n].completion.Success? == success then Some(n) else None
  }

  /** Outcomes that arrived so far, by participant. */
  function Seen(count: nat, order: seq<Settlement>): (seen: seq<Option<Completion>>)
    ensures |seen| == count
  {
    if order == [] then seq(count, _ => None)
    else
      var last := order[|order| - 1];
      var before := Seen(count, order[..|order| - 1]);
      if last.index < count then before[last.index := Some(last.completion)] else before
  }

  /** All outcomes in participant order. */
  function ByIndex(count: nat, order: seq<Settlement>): (outcomes: seq<Completion>)
    ensures |outcomes| == count
  {
    seq(count, i requires 0 <= i < count => if Seen(count, order)[i].Some? then Seen(count, order)[i].value else G.Success(0))
  }

  /** Failed participants in the order they failed. */
  function Failures(order: seq<Settlement>): seq<nat> {
    if order == [] then []
    else
      var last := order[|order| - 1];
      Failures(order[..|order| - 1]) + if last.completion.Success? then [] else [last.index]
  }

  /** What a coordination selects, or nothing when it never settles. */
  function Meaning(mode: Mode, count: nat, order: seq<Settlement>): Option<Selection> {
    match mode
    case Settled => if |order| == count then Some(AllOf(ByIndex(count, order))) else None
    case Race => if order == [] then None else Some(One(order[0].index, order[0].completion))
    case All => (
      match First(order, false)
      case Some(k) => Some(One(order[k].index, order[k].completion))
      case None => if |order| == count then Some(AllOf(ByIndex(count, order))) else None)
    case Any => (
      match First(order, true)
      case Some(k) => Some(One(order[k].index, order[k].completion))
      case None => if |order| == count then Some(AllFailed(ByIndex(count, order))) else None)
  }

  /** The participants whose outcomes count as selected: everything, the winner, or for `any`
      the winner after exactly the failures that came before it. */
  function Chosen(mode: Mode, count: nat, order: seq<Settlement>): seq<nat> {
    match Meaning(mode, count, order)
    case Some(One(index, _)) =>
      if mode == Any && First(order, true).Some? then Failures(order[..First(order, true).value]) + [index] else [index]
    case _ => seq(count, i requires 0 <= i < count => i)
  }

  // ----------------------------------------------------------------- combinators ---

  /** A native combinator over the adapters; a settled one carries the adapter's tag when its
      value or reason is one. */
  datatype Combinator = Waiting(remaining: nat) | Fulfilled(tag: Option<Settlement>) | Rejected(tag: Option<Settlement>)

  function CombinatorStart(mode: Mode, count: nat): Combinator {
    if count > 0 || mode == Race then Waiting(count) else if mode == Any then Rejected(None) else Fulfilled(None)
  }

  /** An adapter fulfils with its tag on a success and rejects with it on a failure. */
  function CombinatorStep(mode: Mode, c: Combinator, s: Settlement): Combinator {
    if !c.Waiting? then c else
    var left := if c.remaining > 0 then c.remaining - 1 else 0;
    match mode
    case Settled => if left == 0 then Fulfilled(None) else Waiting(left)
    case Race => if s.completion.Success? then Fulfilled(Some(s)) else Rejected(Some(s))
    case All =>
      if !s.completion.Success? then Rejected(Some(s)) else if left == 0 then Fulfilled(None) else Waiting(left)
    case Any =>
      if s.completion.Success? then Fulfilled(Some(s)) else if left == 0 then Rejected(None) else Waiting(left)
  }

  function CombinatorAfter(mode: Mode, count: nat, order: seq<Settlement>): Combinator {
    if order == [] then CombinatorStart(mode, count)
    else CombinatorStep(mode, CombinatorAfter(mode, count, order[..|order| - 1]), order[|order| - 1])
  }

  function Expected(mode: Mode, count: nat, order: seq<Settlement>): Combinator
    requires |order| <= count
  {
    var rest := count - |order|;
    match mode
    case Settled => if rest == 0 then Fulfilled(None) else Waiting(rest)
    case Race =>
      if order == [] then Waiting(count) else if order[0].completion.Success? then Fulfilled(Some(order[0])) else Rejected(Some(order[0]))
    case All => (
      match First(order, false)
      case Some(k) => Rejected(Some(order[k]))
      case None => if rest == 0 then Fulfilled(None) else Waiting(rest))
    case Any => (
      match First(order, true)
      case Some(k) => Fulfilled(Some(order[k]))
      case None => if rest == 0 then Rejected(None) else Waiting(rest))
  }

  /** A combinator settles on exactly what its mode says, over any settlement order. */
  lemma {:induction false} CombinatorMeans(mode: Mode, count: nat, order: seq<Settlement>)
    requires |order| <= count
    ensures CombinatorAfter(mode, count, order) == Expected(mode, count, order)
  {
    if order != [] {
      CombinatorMeans(mode, count, order[..|order| - 1]);
    }
  }

  // -------------------------------------------------------------------- outcomes ---

  ghost predicate Settles(order: seq<Settlement>, i: nat) {
    exists k | 0 <= k < |order| :: order[k].index == i
  }

  lemma {:induction false} SeenIs(count: nat, order: seq<Settlement>)
    requires Order(order, count)
    ensures forall k | 0 <= k < |order| :: Seen(count, order)[order[k].index] == Some(order[k].completion)
    ensures forall i | 0 <= i < count && !Settles(order, i) :: Seen(count, order)[i].None?
  {
    if order != [] {
      var n := |order| - 1;
      SeenIs(count, order[..n]);
      forall i | 0 <= i < count && !Settles(order, i) ensures Seen(count, order)[i].None? {
        assert !Settles(order[..n], i) by {
          assert forall k | 0 <= k < n :: order[..n][k].index != i;
        }
        assert order[n].index != i;
      }
      forall k | 0 <= k < n ensures Seen(count, order)[order[k].index] == Some(order[k].completion) {
        assert order[..n][k] == order[k];
      }
    }
  }

  lemma {:induction false} SeenCount(count: nat, order: seq<Settlement>)
    requires Order(order, count)
    ensures |order| <= count && G.Unsettled(Seen(count, order)) == count - |order|
  {
    if order == [] {
      G.UnsettledAll(count);
    } else {
      var n := |order| - 1;
      SeenCount(count, order[..n]);
      SeenIs(count, order[..n]);
      assert !Settles(order[..n], order[n].index) by {
        assert forall k | 0 <= k < n :: order[..n][k].index != order[n].index;
      }
      G.UnsettledUpdate(Seen(count, order[..n]), order[n].index, order[n].completion);
    }
  }

  /** Once everyone settled, the outcomes are everyone's own, in participant order. */
  lemma {:induction false} AllOutcomes(count: nat, order: seq<Settlement>)
    requires Order(order, count) && |order| == count
    ensures forall i | 0 <= i < count :: Seen(count, order)[i] == Some(ByIndex(count, order)[i])
    ensures forall k | 0 <= k < count :: ByIndex(count, order)[order[k].index] == order[k].completion
    ensures forall i | 0 <= i < count :: Settles(order, i)
  {
    SeenIs(count, order);
    SeenCount(count, order);
    G.NoneUnsettled(Seen(count, order));
  }

  lemma {:induction false} FirstPrefix(order: seq<Settlement>, n: nat, success: bool)
    requires n <= |order| && First(order[..n], success).Some?
    ensures First(order, success) == First(order[..n], success)
  {
    var k := First(order[..n], success).value;
    assert order[..n][k] == order[k];
    assert forall j | 0 <= j < k :: order[..n][j] == order[j];
  }

  lemma {:induction false} FailuresAre(order: seq<Settlement>)
    ensures forall i :: i in Failures(order) <==> exists k | 0 <= k < |order| :: order[k].index == i && !order[k].completion.Success?
  {
    if order != [] {
      var n := |order| - 1;
      FailuresAre(order[..n]);
      forall i ensures i in Failures(order) <==> exists k | 0 <= k < |order| :: order[k].index == i && !order[k].completion.Success? {
        if k: nat :| k < n && order[k].index == i && !order[k].completion.Success? {
          assert order[..n][k] == order[k];
        }
      }
    }
  }

  // ------------------------------------------------------------------- selection ---

  /** The list frozen when the first success is seen. */
  function Frozen(order: seq<Settlement>): Option<seq<nat>> {
    match First(order, true)
    case None => None
    case Some(k) => Some(Failures(order[..k]) + [order[k].index])
  }

  /** What one more adapter changes. */
  lemma {:induction false} AdapterRuns(mode: Mode, count: nat, order: seq<Settlement>, i: nat)
    requires i < |order| && order[i].index < count
    ensures Seen(count, order[..i + 1]) == Seen(count, order[..i])[order[i].index := Some(order[i].completion)]
    ensures Failures(order[..i + 1]) == Failures(order[..i]) + if order[i].completion.Success? then [] else [order[i].index]
    ensures CombinatorAfter(mode, count, order[..i + 1]) == CombinatorStep(mode, CombinatorAfter(mode, count, order[..i]), order[i])
    ensures Frozen(order[..i + 1])
         == if Frozen(order[..i]).None? && order[i].completion.Success? then Some(Failures(order[..i]) + [order[i].index])
            else Frozen(order[..i])
  {
    var p, q := order[..i], order[..i + 1];
    assert q[..|q| - 1] == p;
    if First(p, true).Some? {
      assert q[..First(p, true).value] == p[..First(p, true).value];
    } else if order[i].completion.Success? {
      assert First(q, true) == Some(i) && q[..i] == p;
    }
  }

  /** Selects among `count` participants whose adapters run in `order`. The awaiting code
      resumes only after `delay` more adapters have run once the combinator settled. */
  method SelectFromGroup(mode: Mode, count: nat, order: seq<Settlement>, delay: nat)
    returns (selection: Option<Selection>, published: seq<nat>)
    requires Order(order, count)
    ensures selection == Meaning(mode, count, order)
    ensures selection.Some? ==> published == Chosen(mode, count, order)
  {
    hide Seen, Failures, Frozen, First, CombinatorAfter, CombinatorStep, Meaning, Chosen, ByIndex, Expected;
    var outcomes: seq<Option<Completion>> := seq(count, _ => None);
    var rejected: seq<nat> := [];
    var firstSuccess: Option<seq<nat>> := None;
    var combinator := CombinatorStart(mode, count);
    var i, waited := 0, 0;
    NothingRan(mode, count, order);
    while i < |order| && (combinator.Waiting? || waited < delay)
      invariant 0 <= i <= |order|
      invariant outcomes == Seen(count, order[..i]) && rejected == Failures(order[..i])
      invariant firstSuccess == Frozen(order[..i])
      invariant combinator == CombinatorAfter(mode, count, order[..i])
    {
      AdapterRuns(mode, count, order, i);
      var index, completion := order[i].index, order[i].completion;
      outcomes := outcomes[index := Some(completion)];
      if !completion.Success? {
        rejected := rejected + [index];
      } else if firstSuccess.None? {
        firstSuccess := Some(rejected + [index]);
      }
      if !combinator.Waiting? {
        waited := waited + 1;
      }
      combinator := CombinatorStep(mode, combinator, order[i]);
      i := i + 1;
    }
    Resumed(mode, count, order, i);
    if combinator.Waiting? {
      return None, [];
    }
    if combinator.tag.Some? {
      var tag := combinator.tag.value;
      published := if mode == Any then firstSuccess.value else [tag.index];
      selection := Some(One(tag.index, tag.completion));
    } else {
      var everyone := seq(count, j requires 0 <= j < count => outcomes[j].value);
      assert everyone == ByIndex(count, order);
      published := seq(count, j requires 0 <= j < count => j);
      selection := Some(if mode == Any then AllFailed(everyone) else AllOf(everyone));
    }
  }

  lemma {:induction false} NothingRan(mode: Mode, count: nat, order: seq<Settlement>)
    ensures Seen(count, order[..0]) == seq(count, _ => None) && Failures(order[..0]) == [] && Frozen(order[..0]) == None
    ensures CombinatorAfter(mode, count, order[..0]) == CombinatorStart(mode, count)
  {
  }

  /** What the awaiting code finds when it resumes, however late that is; and when the
      combinator still waits after the last settlement, nothing is ever selected. */
  lemma {:induction false} Resumed(mode: Mode, count: nat, order: seq<Settlement>, n: nat)
    requires Order(order, count) && n <= |order|
    ensures var c := CombinatorAfter(mode, count, order[..n]);
            && (c.Waiting? && n == |order| ==> Meaning(mode, count, order) == None)
            && (!c.Waiting? && c.tag.Some? ==>
                  && Meaning(mode, count, order) == Some(One(c.tag.value.index, c.tag.value.completion))
                  && (mode == Any ==> Frozen(order[..n]) == Some(Chosen(mode, count, order)))
                  && (mode != Any ==> Chosen(mode, count, order) == [c.tag.value.index]))
            && (!c.Waiting? && c.tag.None? ==>
                  && (forall j | 0 <= j < count :: Seen(count, order[..n])[j] == Some(ByIndex(count, order)[j]))
                  && Meaning(mode, count, order)
                     == Some(if mode == Any then AllFailed(ByIndex(count, order)) else AllOf(ByIndex(count, order)))
                  && Chosen(mode, count, order) == seq(count, i requires 0 <= i < count => i))
  {
    hide Seen, ByIndex, CombinatorAfter;
    SeenCount(count, order);
    CombinatorMeans(mode, count, order[..n]);
    var c := Expected(mode, count, order[..n]);
    if c.Waiting? {
      assert n == |order| ==> order[..n] == order;
    } else if c.tag.None? {
      assert order[..n] == order;
      AllOutcomes(count, order);
    } else if mode != Race {
      FirstPrefix(order, n, mode == Any);
      var k := First(order, mode == Any).value;
      assert order[..n][..k] == order[..k];
    }
  }

  /** When every participant failed there is no success for `any` to trip over. */
  lemma {:induction false} AllFailedHasNoSuccess(count: nat, order: seq<Settlement>)
    requires Order(order, count) && |order| == count && First(order, true).None?
    ensures Meaning(Any, count, order) == Some(AllFailed(ByIndex(count, order)))
    ensures forall i | 0 <= i < count :: !ByIndex(count, order)[i].Success?
  {
    AllOutcomes(count, order);
    forall i | 0 <= i < count ensures !ByIndex(count, order)[i].Success? {
      assert Settles(order, i);
      var k :| 0 <= k < count && order[k].index == i;
    }
  }

  // ------------------------------------------------------------- late observation ---

  function Settling(order: seq<Settlement>): seq<G.Event> {
    seq(|order|, k requires 0 <= k < |order| => G.Event.Settled(order[k].index, order[k].completion))
  }

  /** The group's whole history: settlements in order, publication after the first `at`. */
  function History(mode: Mode, count: nat, order: seq<Settlement>, at: nat): seq<G.Event>
    requires at <= |order|
  {
    Settling(order[..at]) + [G.Event.Published(Chosen(mode, count, order))] + Settling(order[at..])
  }

  ghost predicate Missing(g: G.Group, order: seq<Settlement>) {
    && (forall k | 0 <= k < |order| :: order[k].index < |g.completions| && g.completions[order[k].index].None?)
    && (forall j, k | 0 <= j < k < |order| :: order[j].index != order[k].index)
  }

  lemma {:induction false} SettlingRuns(g: G.Group, order: seq<Settlement>, rest: seq<Settlement>, then_: seq<G.Event>)
    requires G.Valid(g) && Missing(g, order + rest)
    ensures var m := G.After(g, Settling(order));
            && m.Some? && |m.value.completions| == |g.completions| && Missing(m.value, rest)
            && m.value.isSealed == g.isSealed
            && G.After(g, Settling(order) + then_) == G.After(m.value, then_)
    decreases |order|
  {
    if order == [] {
      assert order + rest == rest && Settling(order) + then_ == then_;
    } else {
      var e := G.Event.Settled(order[0].index, order[0].completion);
      assert (order + rest)[0] == order[0];
      var g' := G.Apply(g, e);
      assert Missing(g', order[1..] + rest) by {
        forall k | 0 <= k < |order[1..] + rest| ensures (order[1..] + rest)[k] == (order + rest)[k + 1] {
        }
      }
      SettlingRuns(g', order[1..], rest, then_);
      assert Settling(order) == [e] + Settling(order[1..]);
      assert (Settling(order) + then_)[1..] == Settling(order[1..]) + then_;
    }
  }

  lemma {:induction false} ChosenInRange(mode: Mode, count: nat, order: seq<Settlement>)
    requires Order(order, count) && Meaning(mode, count, order).Some?
    ensures forall i | i in Chosen(mode, count, order) :: i < count
  {
    if mode == Any && First(order, true).Some? {
      FailuresAre(order[..First(order, true).value]);
    }
  }

  lemma {:induction false} LaunchMissing(count: nat, order: seq<Settlement>)
    requires Order(order, count)
    ensures Missing(G.LaunchOf(count), order) && !G.LaunchOf(count).isSealed
  {
  }

  lemma {:induction false} PublishRuns(m: G.Group, chosen: seq<nat>, order: seq<Settlement>, rest: seq<G.Event>)
    requires G.Valid(m) && G.Publishable(m, chosen) && Missing(m, order)
    ensures var p := G.Apply(m, G.Event.Published(chosen));
            G.Valid(p) && Missing(p, order) && G.After(m, [G.Event.Published(chosen)] + rest) == G.After(p, rest)
  {
    assert ([G.Event.Published(chosen)] + rest)[1..] == rest;
  }

  lemma {:induction false} HistoryRuns(mode: Mode, count: nat, order: seq<Settlement>, at: nat)
    requires Order(order, count) && at <= |order| && Meaning(mode, count, order).Some?
    ensures G.After(G.LaunchOf(count), History(mode, count, order, at)).Some?
  {
    hide Chosen, Meaning, Missing, G.Valid, G.After, Order;
    var chosen := Chosen(mode, count, order);
    var a, b := order[..at], order[at..];
    assert a + b == order && b + [] == b && Settling(b) + [] == Settling(b);
    LaunchMissing(count, order);
    SettlingRuns(G.LaunchOf(count), a, b, [G.Event.Published(chosen)] + Settling(b));
    assert History(mode, count, order, at) == Settling(a) + ([G.Event.Published(chosen)] + Settling(b));
    var m := G.After(G.LaunchOf(count), Settling(a)).value;
    ChosenInRange(mode, count, order);
    PublishRuns(m, chosen, b, Settling(b));
    SettlingRuns(G.Apply(m, G.Event.Published(chosen)), b, [], []);
  }

  /** The winner's place in the order. */
  function Winner(mode: Mode, order: seq<Settlement>): Option<nat> {
    match mode
    case Settled => None
    case Race => if order == [] then None else Some(0)
    case All => First(order, false)
    case Any => First(order, true)
  }

  /** From launch to the last settlement, whenever publication comes in: the group leaves the
      root with exactly one late observation for each standard failure that was neither the
      winner nor, for `any`, settled before it; nothing is late when everything was selected. */
  lemma {:induction false} LateAfterSelection(mode: Mode, count: nat, order: seq<Settlement>, at: nat, k: nat)
    requires Order(order, count) && |order| == count && at <= |order| && k < count
    requires Meaning(mode, count, order).Some?
    ensures var done := G.After(G.LaunchOf(count), History(mode, count, order, at));
            && done.Some? && !done.value.live && |done.value.observed| == count
            && done.value.observed[order[k].index]
            == match Winner(mode, order)
               case None => 0
               case Some(w) => if order[k].completion.Standard? && (if mode == Any then k > w else k != w) then 1 else 0
  {
    HistoryRuns(mode, count, order, at);
    HistoryEnds(mode, count, order, at);
    var f := G.After(G.LaunchOf(count), History(mode, count, order, at)).value;
    hide History, Chosen, Meaning, Order, G.After, G.Elements;
    ChosenIs(mode, count, order, k);
    assert G.Late(f, order[k].index) <==>
      order[k].completion.Standard? && order[k].index !in G.Elements(Chosen(mode, count, order));
  }

  lemma {:induction false} HistoryHas(mode: Mode, count: nat, order: seq<Settlement>, at: nat)
    requires at <= |order|
    ensures G.Event.Published(Chosen(mode, count, order)) in History(mode, count, order, at)
    ensures forall j | 0 <= j < |order| ::
              G.Event.Settled(order[j].index, order[j].completion) in History(mode, count, order, at)
  {
    hide Chosen;
    var events := History(mode, count, order, at);
    assert events[at] == G.Event.Published(Chosen(mode, count, order));
    forall j | 0 <= j < |order| ensures G.Event.Settled(order[j].index, order[j].completion) in events {
      assert events[if j < at then j else j + 1] == G.Event.Settled(order[j].index, order[j].completion);
    }
  }

  lemma {:induction false} HistoryEnds(mode: Mode, count: nat, order: seq<Settlement>, at: nat)
    requires Order(order, count) && |order| == count && at <= count
    requires G.After(G.LaunchOf(count), History(mode, count, order, at)).Some?
    ensures var f := G.After(G.LaunchOf(count), History(mode, count, order, at)).value;
            && G.Valid(f) && |f.completions| == count && !f.live && f.isSealed
            && f.selected == G.Elements(Chosen(mode, count, order))
            && forall k | 0 <= k < count :: f.completions[order[k].index] == Some(order[k].completion)
  {
    var events := History(mode, count, order, at);
    HistoryHas(mode, count, order, at);
    G.FinalFacts(G.LaunchOf(count), events);
    var f := G.After(G.LaunchOf(count), events).value;
    hide History, Chosen, Meaning, G.After, G.Elements, G.Valid;
    forall j | 0 <= j < count ensures f.completions[order[j].index] == Some(order[j].completion) {
      assert G.Event.Settled(order[j].index, order[j].completion) in events;
    }
    forall i | 0 <= i < count ensures f.completions[i].Some? {
      AllOutcomes(count, order);
      assert Settles(order, i);
    }
    G.LeavesOnceSettled(f);
  }

  lemma {:induction false} ChosenIs(mode: Mode, count: nat, order: seq<Settlement>, k: nat)
    requires Order(order, count) && |order| == count && k < count && Meaning(mode, count, order).Some?
    ensures order[k].index in G.Elements(Chosen(mode, count, order))
       <==> match Winner(mode, order)
            case None => true
            case Some(w) => k == w || (mode == Any && k < w)
  {
    var chosen := Chosen(mode, count, order);
    match Winner(mode, order) {
      case None => assert chosen[order[k].index] == order[k].index;
      case Some(w) =>
        if mode == Any {
          FailuresAre(order[..w]);
          if k < w { assert order[..w][k] == order[k]; }
        }
    }
  }

  // -------------------------------------------------------------------- dispatch ---

  /** What a dispatch answers: a handler's own completion, or the collected values. */
  datatype Handled = Passed(completion: Completion) | Finished(values: Option<seq<int>>)

  datatype Handlers = Handlers(each: (nat, Completion) -> Completion, shared: (nat, Completion) -> Completion,
                               allFailed: seq<Completion> -> Completion)

  ghost predicate AllPass(outcomes: seq<Completion>, each: (nat, Completion) -> Completion, n: nat)
    requires n <= |outcomes|
  {
    forall i | 0 <= i < n :: each(i, outcomes[i]).Success?
  }

  /** Arms run in participant order and stop at the first failure, whose completion is the
      answer; `called` counts the arms that ran. */
  method Handle(selection: Selection, handlers: Handlers, collect: bool) returns (answer: Handled, called: nat)
    ensures selection.One? ==> called == 1 && answer == Passed(handlers.shared(selection.index, selection.completion))
    ensures selection.AllFailed? ==> called == 1 && answer == Passed(handlers.allFailed(selection.outcomes))
    ensures selection.AllOf? ==>
      && called <= |selection.outcomes|
      && (answer.Passed? <==> !AllPass(selection.outcomes, handlers.each, |selection.outcomes|))
    ensures selection.AllOf? && answer.Passed? ==>
      && 0 < called && AllPass(selection.outcomes, handlers.each, called - 1)
      && answer.completion == handlers.each(called - 1, selection.outcomes[called - 1]) && !answer.completion.Success?
    ensures selection.AllOf? && answer.Finished? ==>
      && called == |selection.outcomes| && (answer.values.Some? <==> collect)
      && (collect ==> |answer.values.value| == called
                      && forall i | 0 <= i < called :: handlers.each(i, selection.outcomes[i]) == G.Success(answer.values.value[i]))
  {
    if selection.One? {
      return Passed(handlers.shared(selection.index, selection.completion)), 1;
    }
    if selection.AllFailed? {
      return Passed(handlers.allFailed(selection.outcomes)), 1;
    }
    var values: seq<int> := [];
    var index := 0;
    while index < |selection.outcomes|
      invariant 0 <= index <= |selection.outcomes| && AllPass(selection.outcomes, handlers.each, index)
      invariant collect ==> |values| == index
      invariant collect ==> forall i | 0 <= i < index :: handlers.each(i, selection.outcomes[i]) == G.Success(values[i])
    {
      var result := handlers.each(index, selection.outcomes[index]);
      if !result.Success? {
        return Passed(result), index + 1;
      }
      if collect {
        values := values + [result.value];
      }
      index := index + 1;
    }
    return Finished(if collect then Some(values) else None), index;
  }

  /** The failures an aggregate carries, in order; a successful member is refused. */
  method Aggregate(outcomes: seq<Completion>) returns (failures: Option<seq<nat>>)
    ensures failures.Some? <==> forall i | 0 <= i < |outcomes| :: !outcomes[i].Success?
    ensures failures.Some? ==>
      && |failures.value| == |outcomes|
      && forall i | 0 <= i < |outcomes| :: outcomes[i] in {G.Domain(failures.value[i]), G.Standard(failures.value[i])}
  {
    var collected: seq<nat> := [];
    for i := 0 to |outcomes|
      invariant |collected| == i
      invariant forall j | 0 <= j < i :: outcomes[j] in {G.Domain(collected[j]), G.Standard(collected[j])}
    {
      match outcomes[i] {
        case Success(_) => return None;
        case Domain(f) => collected := collected + [f];
        case Standard(f) => collected := collected + [f];
      }
    }
    failures := Some(collected);
  }
}
