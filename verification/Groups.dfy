/** One launched group of tasks: settlements and publication arrive in any order. */
module Groups {
  import opened Wrappers

  /** A protected outcome. Only standard failures are reported late. */
  datatype Completion = Success(value: int) | Domain(failure: nat) | Standard(failure: nat)

  /** `observed` counts, task by task, the late observations that reached the reporter;
      `live` says whether the root still holds the group. */
  datatype Group = Group(completions: seq<Option<Completion>>, isSealed: bool, selected: set<nat>,
                         pending: nat, observed: seq<nat>, live: bool)

  function Launch(count: nat): Group {
    Group(seq(count, _ => None), false, {}, count, seq(count, _ => 0), true)
  }

  function Unsettled(completions: seq<Option<Completion>>): nat {
    if completions == [] then 0
    else (if completions[|completions| - 1].None? then 1 else 0) + Unsettled(completions[..|completions| - 1])
  }

  /** A task whose standard failure nobody selected. */
  predicate Late(g: Group, i: nat) {
    i < |g.completions| && g.completions[i].Some? && g.completions[i].value.Standard? && i !in g.selected
  }

  ghost predicate Valid(g: Group) {
    && |g.observed| == |g.completions|
    && g.pending == Unsettled(g.completions)
    && (g.live <==> !(g.isSealed && g.pending == 0))
    && (forall i | 0 <= i < |g.observed| :: g.observed[i] == if g.isSealed && Late(g, i) then 1 else 0)
  }

  // ---------------------------------------------------------------------- meaning ---

  /** What a settlement amounts to, whenever it comes. */
  function Settle(g: Group, index: nat, completion: Completion): Group
    requires index < |g.completions| == |g.observed| && g.pending > 0
  {
    var late := g.isSealed && completion.Standard? && index !in g.selected;
    g.(completions := g.completions[index := Some(completion)],
       pending := g.pending - 1,
       observed := if late then g.observed[index := g.observed[index] + 1] else g.observed,
       live := g.live && !(g.isSealed && g.pending == 1))
  }

  predicate Publishable(g: Group, selected: seq<nat>) {
    !g.isSealed && forall i | i in selected :: i < |g.completions|
  }

  function Elements(s: seq<nat>): set<nat> {
    set i | i in s
  }

  function Publish(g: Group, selected: seq<nat>): Group
    requires |g.completions| == |g.observed|
  {
    var g' := g.(isSealed := true, selected := Elements(selected));
    g'.(observed := seq(|g.observed|, i requires 0 <= i < |g.observed| => g.observed[i] + if Late(g', i) then 1 else 0),
        live := g.live && g.pending > 0)
  }

  // ------------------------------------------------------------------- invariants ---

  lemma {:induction false} UnsettledAll(n: nat)
    ensures Unsettled(seq(n, _ => None)) == n
  {
    if n > 0 {
      var s: seq<Option<Completion>> := seq(n, _ => None);
      assert s[..n - 1] == seq(n - 1, _ => None);
      UnsettledAll(n - 1);
    }
  }

  lemma {:induction false} UnsettledUpdate(s: seq<Option<Completion>>, i: nat, c: Completion)
    requires i < |s| && s[i].None?
    ensures Unsettled(s) > 0 && Unsettled(s[i := Some(c)]) == Unsettled(s) - 1
  {
    var n := |s| - 1;
    if i == n {
      assert s[i := Some(c)][..n] == s[..n];
    } else {
      assert s[i := Some(c)][..n] == s[..n][i := Some(c)];
      UnsettledUpdate(s[..n], i, c);
    }
  }

  lemma {:induction false} NoneUnsettled(s: seq<Option<Completion>>)
    ensures Unsettled(s) == 0 <==> forall i | 0 <= i < |s| :: s[i].Some?
  {
    if s != [] {
      var n := |s| - 1;
      NoneUnsettled(s[..n]);
      assert forall i | 0 <= i < n :: s[..n][i] == s[i];
    }
  }

  lemma {:induction false} LaunchValid(count: nat)
    ensures Valid(Launch(count))
  {
    UnsettledAll(count);
  }

  lemma {:induction false} SettleValid(g: Group, index: nat, completion: Completion)
    requires Valid(g) && index < |g.completions| && g.completions[index].None?
    ensures g.pending > 0 && Valid(Settle(g, index, completion))
  {
    UnsettledUpdate(g.completions, index, completion);
  }

  lemma {:induction false} PublishValid(g: Group, selected: seq<nat>)
    requires Valid(g) && Publishable(g, selected)
    ensures Valid(Publish(g, selected))
  {
  }

  /** Once a group has left the root, every task has settled and exactly the unselected
      standard failures were observed, each once, whatever the order of events was. */
  lemma {:induction false} LeftMeansAllObserved(g: Group)
    requires Valid(g) && !g.live
    ensures g.isSealed && forall i | 0 <= i < |g.completions| :: g.completions[i].Some?
    ensures forall i | 0 <= i < |g.completions| :: g.observed[i] == if Late(g, i) then 1 else 0
  {
    NoneUnsettled(g.completions);
  }

  lemma {:induction false} LeavesOnceSettled(g: Group)
    requires Valid(g)
    ensures !g.live <==> g.isSealed && forall i | 0 <= i < |g.completions| :: g.completions[i].Some?
  {
    NoneUnsettled(g.completions);
  }

  datatype Event = Settled(index: nat, completion: Completion) | Published(selected: seq<nat>)

  ghost predicate Enabled(g: Group, e: Event) {
    match e
    case Settled(i, _) => i < |g.completions| && g.completions[i].None?
    case Published(selected) => Publishable(g, selected)
  }

  ghost function Apply(g: Group, e: Event): Group
    requires Valid(g) && Enabled(g, e)
    ensures Valid(Apply(g, e))
  {
    match e
    case Settled(i, c) => SettleValid(g, i, c); Settle(g, i, c)
    case Published(selected) => PublishValid(g, selected); Publish(g, selected)
  }

  /** The group after a list of events, as far as each is enabled in turn. */
  ghost function After(g: Group, events: seq<Event>): Option<Group>
    requires Valid(g)
    ensures After(g, events).Some? ==> Valid(After(g, events).value)
    decreases events
  {
    if events == [] then Some(g)
    else if Enabled(g, events[0]) then After(Apply(g, events[0]), events[1..])
    else None
  }

  lemma {:induction false} FinalFacts(g: Group, events: seq<Event>)
    requires Valid(g) && After(g, events).Some?
    ensures var f := After(g, events).value;
            && |f.completions| == |g.completions|
            && (forall i | 0 <= i < |g.completions| && g.completions[i].Some? :: f.completions[i] == g.completions[i])
            && (forall i: nat, c | Settled(i, c) in events :: i < |f.completions| && f.completions[i] == Some(c))
            && (g.isSealed ==> f.isSealed && f.selected == g.selected)
            && (forall s | Published(s) in events :: f.isSealed && f.selected == Elements(s))
    decreases events
  {
    if events != [] {
      var g' := Apply(g, events[0]);
      FinalFacts(g', events[1..]);
      assert events == [events[0]] + events[1..];
    }
  }

  ghost predicate Settles(events: seq<Event>, i: nat) {
    exists c :: Settled(i, c) in events
  }

  /** Order does not matter: two complete histories of the same settlements and the same
      selection leave the same group. */
  lemma {:induction false} OrderIrrelevant(count: nat, a: seq<Event>, b: seq<Event>, selected: seq<nat>)
    requires After(LaunchOf(count), a).Some? && After(LaunchOf(count), b).Some?
    requires forall i: nat, c :: Settled(i, c) in a <==> Settled(i, c) in b
    requires Published(selected) in a && Published(selected) in b
    requires forall i: nat | i < count :: Settles(a, i)
    ensures After(LaunchOf(count), a) == After(LaunchOf(count), b)
  {
    var x, y := After(LaunchOf(count), a).value, After(LaunchOf(count), b).value;
    FinalFacts(LaunchOf(count), a);
    FinalFacts(LaunchOf(count), b);
    forall i: nat | i < count ensures x.completions[i] == y.completions[i] && x.completions[i].Some? {
      assert Settles(a, i);
      var c :| Settled(i, c) in a;
    }
    assert x.completions == y.completions;
    assert x.observed == y.observed;
  }

  ghost function LaunchOf(count: nat): (g: Group)
    ensures Valid(g) && |g.completions| == count
  {
    LaunchValid(count);
    Launch(count)
  }

  // --------------------------------------------------------------- implementation ---

  /** The launched group as the runtime keeps it. */
  class OwnedGroup {
    var completions: seq<Option<Completion>>
    var isSealed: bool
    var selected: set<nat>
    var pending: nat
    var observed: seq<nat>
    var inRoot: bool

    ghost function View(): Group
      reads this
    {
      Group(completions, isSealed, selected, pending, observed, inRoot)
    }

    constructor (count: nat)
      ensures View() == Launch(count) && Valid(View())
    {
      completions, isSealed, selected, pending := seq(count, _ => None), false, {}, count;
      observed, inRoot := seq(count, _ => 0), true;
      new;
      LaunchValid(count);
    }

    method ObserveLaunched(index: nat)
      requires index < |completions| == |observed|
      modifies this`observed
      ensures observed == if Late(View(), index) then old(observed)[index := old(observed)[index] + 1] else old(observed)
    {
      var result := completions[index];
      if result.Some? && result.value.Standard? && index !in selected {
        observed := observed[index := observed[index] + 1];
      }
    }

    /** Publication observes what has settled already; a later settlement only itself. */
    method FinishLaunched(index: Option<nat>)
      requires |completions| == |observed| && (index.Some? ==> index.value < |completions|)
      modifies this`observed, this`inRoot
      ensures !isSealed ==> View() == old(View())
      ensures isSealed ==> inRoot == (old(inRoot) && pending != 0) && |observed| == |old(observed)|
      ensures isSealed ==> forall i | 0 <= i < |observed| ::
                observed[i] == old(observed)[i] + if Late(View(), i) && (index == None || index == Some(i)) then 1 else 0
    {
      if !isSealed {
        return;
      }
      if index.None? {
        for i := 0 to |completions|
          invariant |observed| == |completions| && inRoot == old(inRoot)
          invariant forall j | 0 <= j < i :: observed[j] == old(observed)[j] + if Late(View(), j) then 1 else 0
          invariant forall j | i <= j < |observed| :: observed[j] == old(observed)[j]
        {
          ObserveLaunched(i);
        }
      } else {
        ObserveLaunched(index.value);
      }
      if pending == 0 {
        inRoot := false;
      }
    }

    /** The part of settling that belongs to the group; a promise settles once. */
    method SettleLaunched(index: nat, completion: Completion)
      requires Valid(View()) && index < |completions| && completions[index].None?
      modifies this
      ensures old(pending) > 0 && View() == Settle(old(View()), index, completion) && Valid(View())
    {
      SettleValid(View(), index, completion);
      completions := completions[index := Some(completion)];
      pending := pending - 1;
      FinishLaunched(Some(index));
      assert observed == Settle(old(View()), index, completion).observed;
    }

    method PublishSelected(chosen: seq<nat>) returns (ok: bool)
      requires Valid(View())
      modifies this
      ensures ok <==> Publishable(old(View()), chosen)
      ensures ok ==> View() == Publish(old(View()), chosen) && Valid(View())
      ensures !ok ==> View() == old(View())
    {
      if isSealed || exists i | i in chosen :: i >= |completions| {
        return false;
      }
      PublishValid(View(), chosen);
      selected := set i | i in chosen;
      isSealed := true;
      FinishLaunched(None);
      assert observed == Publish(old(View()), chosen).observed;
      ok := true;
    }
  }
}
