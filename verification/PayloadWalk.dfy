/** The explicit-stack traversal that decides conformance. */
module PayloadWalk {
  import opened Wrappers
  import opened Payload
  import opened PayloadTypes

  /** A pair still to be checked, or the mark that ends the expansion of a data object. */
  datatype Work = Check(pair: Pair) | Exit(pair: Pair)

  /** Children in the order they come off the stack: the first child on top. */
  function Checks(children: seq<Pair>): (w: seq<Work>)
    ensures |w| == |children|
    ensures forall i | 0 <= i < |w| :: w[i] == Check(children[|children| - 1 - i])
    ensures forall c | c in children :: Check(c) in w
  {
    var w := seq(|children|, i requires 0 <= i < |children| => Check(children[|children| - 1 - i]));
    assert forall k | 0 <= k < |children| :: w[|children| - 1 - k] == Check(children[k]);
    w
  }

  method PushAll(work: seq<Work>, children: seq<Pair>) returns (out: seq<Work>)
    ensures out == work + Checks(children)
  {
    out := work;
    var i := |children|;
    while i > 0
      invariant 0 <= i <= |children|
      invariant out == work + Checks(children)[..|children| - i]
    {
      i := i - 1;
      out := out + [Check(children[i])];
    }
  }

  // ------------------------------------------------------------- stack invariants ---

  /** Everything stacked is reachable; everything above an exit mark lies below its object;
      the marks name exactly the active objects, each once. */
  ghost predicate OnPath(h: Host, root: Pair, work: seq<Work>, active: set<Ref>) {
    && (forall i | 0 <= i < |work| :: Reaches(h, root, work[i].pair))
    && (forall i | 0 <= i < |work| && work[i].Exit? ::
          IsData(h, work[i].pair) && work[i].pair.value.Object? && work[i].pair.value.ref in active)
    && (forall i, j | 0 <= i < j < |work| && work[i].Exit? :: Below(h, work[i].pair, work[j].pair))
    && (forall i, j | 0 <= i < j < |work| && work[i].Exit? && work[j].Exit? :: work[i].pair.value != work[j].pair.value)
    && (forall r | r in active :: exists i :: 0 <= i < |work| && work[i].Exit? && work[i].pair.value == Object(r))
  }

  /** What was popped passed, and what it hands on was popped too or still waits. */
  ghost predicate Covered(h: Host, root: Pair, work: seq<Work>, seen: set<Pair>, rank: map<Pair, nat>) {
    && (root in seen || Check(root) in work)
    && (forall x | x in seen :: Expand(h, x).Some?)
    && (forall x, y | x in seen && Edge(h, x, y) :: y in seen || Check(y) in work)
    && (forall x | x in seen && IsData(h, x) :: x in rank || Exit(x) in work)
    && (forall i | 0 <= i < |work| && work[i].Exit? :: work[i].pair in seen)
    && (forall x | x in rank :: x in seen)
  }

  /** Above position i waits an entry that will finish the data pair y. */
  ghost predicate Awaited(h: Host, work: seq<Work>, i: int, y: Pair) {
    exists j | i < j < |work| && 0 <= j :: Finishes(h, work[j], y)
  }

  ghost predicate Finishes(h: Host, w: Work, y: Pair) {
    w == Check(y) || w == Exit(y) || (w.Check? && IsVariant(h, w.pair) && Edge(h, w.pair, y))
  }

  /** Finished data pairs carry ranks that fall along data steps. */
  ghost predicate Ranked(h: Host, rank: map<Pair, nat>, clock: nat) {
    && (forall x | x in rank :: rank[x] < clock && IsData(h, x) && x.value.Object?)
    && (forall x, y | x in rank && DataEdge(h, x, y) :: y in rank && rank[y] < rank[x])
  }

  ghost predicate Pending(h: Host, work: seq<Work>, rank: map<Pair, nat>) {
    && (forall i | 0 <= i < |work| && work[i].Exit? :: work[i].pair !in rank)
    && (forall i, y | 0 <= i < |work| && work[i].Exit? && DataEdge(h, work[i].pair, y) ::
          y in rank || Awaited(h, work, i, y))
  }

  /** The memo table holds exactly the ranked pairs. */
  ghost predicate Memo(checked: map<Ref, set<TypeId>>, rank: map<Pair, nat>) {
    forall r, t :: (r in checked && t in checked[r]) <==> Pair(t, Object(r)) in rank
  }

  // ------------------------------------------------------------------------ steps ---

  lemma {:induction false} AwaitedKept(h: Host, base: seq<Work>, w: Work, tail: seq<Work>, i: int, y: Pair)
    requires 0 <= i < |base| && Awaited(h, base + [w], i, y)
    requires Finishes(h, w, y) ==> exists k | 0 <= k < |tail| :: Finishes(h, tail[k], y)
    ensures Awaited(h, base + tail, i, y)
  {
    var j :| i < j < |base + [w]| && Finishes(h, (base + [w])[j], y);
    if j < |base| {
      assert (base + tail)[j] == base[j] == (base + [w])[j];
    } else {
      var k :| 0 <= k < |tail| && Finishes(h, tail[k], y);
      assert (base + tail)[|base| + k] == tail[k];
    }
  }

  /** Replacing the top entry by entries that finish whatever it would have finished. */
  lemma {:induction false} PendingKept(h: Host, base: seq<Work>, w: Work, tail: seq<Work>, rank: map<Pair, nat>, rank': map<Pair, nat>)
    requires Pending(h, base + [w], rank)
    requires forall x | x in rank :: x in rank'
    requires forall i | 0 <= i < |base| && base[i].Exit? :: base[i].pair !in rank'
    requires forall k | 0 <= k < |tail| && tail[k].Exit? :: k == 0 && tail[k].pair !in rank'
    requires forall y | Finishes(h, w, y) && IsData(h, y) :: y in rank' || exists k | 0 <= k < |tail| :: Finishes(h, tail[k], y)
    requires |tail| > 0 && tail[0].Exit? ==> forall y | DataEdge(h, tail[0].pair, y) :: exists k | 0 < k < |tail| :: Finishes(h, tail[k], y)
    ensures Pending(h, base + tail, rank')
  {
    var work := base + tail;
    forall i, y | 0 <= i < |work| && work[i].Exit? && DataEdge(h, work[i].pair, y)
      ensures y in rank' || Awaited(h, work, i, y)
    {
      if i < |base| {
        assert (base + [w])[i] == base[i];
        if y !in rank' { AwaitedKept(h, base, w, tail, i, y); }
      } else {
        var k :| 0 < k < |tail| && Finishes(h, tail[k], y);
        assert work[|base| + k] == tail[k];
      }
    }
  }

  lemma {:induction false} PathKept(h: Host, root: Pair, base: seq<Work>, w: Work, tail: seq<Work>, active: set<Ref>)
    requires OnPath(h, root, base + [w], active) && w.Check?
    requires forall k | 0 <= k < |tail| :: tail[k].Check? && Edge(h, w.pair, tail[k].pair)
    ensures OnPath(h, root, base + tail, active)
  {
    var old_, work := base + [w], base + tail;
    assert old_[|base|] == w;
    forall k | 0 <= k < |tail| ensures Reaches(h, root, tail[k].pair) {
      Extend(h, root, w.pair, tail[k].pair);
    }
    forall i | 0 <= i < |work|
      ensures Reaches(h, root, work[i].pair) && (work[i].Exit? ==> i < |base| && work[i] == old_[i])
    {
      if i < |base| { assert work[i] == old_[i]; } else { assert work[i] == tail[i - |base|]; }
    }
    forall i, j | 0 <= i < j < |work| && work[i].Exit? ensures Below(h, work[i].pair, work[j].pair) {
      assert work[i] == old_[i];
      if j < |base| {
        assert work[j] == old_[j];
      } else {
        BelowOfBelow(h, work[i].pair, w.pair, work[j].pair);
      }
    }
    forall r | r in active ensures exists i :: 0 <= i < |work| && work[i].Exit? && work[i].pair.value == Object(r) {
      var i :| 0 <= i < |old_| && old_[i].Exit? && old_[i].pair.value == Object(r);
      assert work[i] == old_[i];
    }
  }

  lemma {:induction false} PathExpanded(h: Host, root: Pair, base: seq<Work>, p: Pair, active: set<Ref>)
    requires OnPath(h, root, base + [Check(p)], active)
    requires IsData(h, p) && p.value.Object? && p.value.ref !in active
    ensures OnPath(h, root, base + [Exit(p)], active + {p.value.ref})
  {
    var old_, work := base + [Check(p)], base + [Exit(p)];
    assert old_[|base|] == Check(p);
    forall i | 0 <= i < |work|
      ensures work[i].pair == old_[i].pair && (i < |base| ==> work[i] == old_[i]) && (i == |base| ==> work[i] == Exit(p))
    {
    }
    forall i, j | 0 <= i < j < |work| && work[i].Exit? ensures Below(h, work[i].pair, work[j].pair) {
      assert old_[i].Exit?;
    }
    forall i, j | 0 <= i < j < |work| && work[i].Exit? && work[j].Exit? ensures work[i].pair.value != work[j].pair.value {
      assert old_[i].Exit?;
    }
    forall r | r in active + {p.value.ref}
      ensures exists i :: 0 <= i < |work| && work[i].Exit? && work[i].pair.value == Object(r)
    {
      if r == p.value.ref {
        assert work[|base|].Exit?;
      } else {
        var i :| 0 <= i < |old_| && old_[i].Exit? && old_[i].pair.value == Object(r);
        assert work[i] == old_[i];
      }
    }
  }

  lemma {:induction false} PathBelowExit(h: Host, root: Pair, base: seq<Work>, p: Pair, children: seq<Pair>, active: set<Ref>)
    requires OnPath(h, root, base + [Exit(p)], active)
    requires Expand(h, p) == Some(children)
    ensures OnPath(h, root, base + [Exit(p)] + Checks(children), active)
  {
    var old_, work := base + [Exit(p)], base + [Exit(p)] + Checks(children);
    assert old_[|base|] == Exit(p);
    ReachSelf(h, p);
    forall k | 0 <= k < |children| ensures Edge(h, p, children[k]) {}
    forall i | |old_| <= i < |work|
      ensures work[i].Check? && Reaches(h, root, work[i].pair) && Below(h, p, work[i].pair) && Edge(h, p, work[i].pair)
    {
      assert work[i] == Checks(children)[i - |old_|];
      Extend(h, root, p, work[i].pair);
      Extend(h, p, p, work[i].pair);
    }
    forall i, j | 0 <= i < j < |work| && work[i].Exit? ensures Below(h, work[i].pair, work[j].pair) {
      assert work[i] == old_[i];
      if j < |old_| {
        assert work[j] == old_[j];
      } else if i < |base| {
        BelowOfBelow(h, work[i].pair, p, work[j].pair);
      }
    }
    forall r | r in active ensures exists i :: 0 <= i < |work| && work[i].Exit? && work[i].pair.value == Object(r) {
      var i :| 0 <= i < |old_| && old_[i].Exit? && old_[i].pair.value == Object(r);
      assert work[i] == old_[i];
    }
  }

  lemma {:induction false} PathExited(h: Host, root: Pair, base: seq<Work>, p: Pair, active: set<Ref>)
    requires OnPath(h, root, base + [Exit(p)], active)
    ensures p.value.Object? && OnPath(h, root, base, active - {p.value.ref})
  {
    var old_ := base + [Exit(p)];
    assert old_[|base|] == Exit(p);
    assert forall i | 0 <= i < |base| :: base[i] == old_[i];
    forall r | r in active - {p.value.ref} ensures exists i :: 0 <= i < |base| && base[i].Exit? && base[i].pair.value == Object(r) {
      var i :| 0 <= i < |old_| && old_[i].Exit? && old_[i].pair.value == Object(r);
      assert base[i] == old_[i];
    }
  }

  /** Popping a check whose children are pushed, seen already, or none. */
  lemma {:induction false} CoveredKept(h: Host, root: Pair, base: seq<Work>, p: Pair, tail: seq<Work>, seen: set<Pair>, rank: map<Pair, nat>)
    requires Covered(h, root, base + [Check(p)], seen, rank)
    requires Expand(h, p).Some?
    requires p in seen || p in rank || forall y | Edge(h, p, y) :: Check(y) in tail
    requires IsData(h, p) ==> p in rank || Exit(p) in tail
    requires forall k | 0 <= k < |tail| && tail[k].Exit? :: tail[k] == Exit(p)
    ensures Covered(h, root, base + tail, seen + {p}, rank)
  {
    var old_, work := base + [Check(p)], base + tail;
    forall w | w in old_ && w != Check(p) ensures w in work {
      assert w in base;
    }
    forall w | w in tail ensures w in work {}
    forall i | 0 <= i < |work| && work[i].Exit? ensures work[i].pair in seen + {p} {
      if i < |base| { assert work[i] == old_[i]; } else { assert work[i] == tail[i - |base|]; }
    }
  }

  lemma {:induction false} CoveredExited(h: Host, root: Pair, base: seq<Work>, p: Pair, seen: set<Pair>, rank: map<Pair, nat>, clock: nat)
    requires Covered(h, root, base + [Exit(p)], seen, rank)
    ensures p in seen && Covered(h, root, base, seen, rank[p := clock])
  {
    var old_ := base + [Exit(p)];
    assert old_[|base|] == Exit(p);
    assert forall i | 0 <= i < |base| :: base[i] == old_[i];
    forall w | w in old_ && w != Exit(p) ensures w in base {}
  }

  lemma {:induction false} RankedExited(h: Host, base: seq<Work>, p: Pair, rank: map<Pair, nat>, clock: nat)
    requires Ranked(h, rank, clock) && Pending(h, base + [Exit(p)], rank)
    requires IsData(h, p) && p.value.Object?
    requires forall i | 0 <= i < |base| && base[i].Exit? :: base[i].pair != p
    ensures Ranked(h, rank[p := clock], clock + 1)
    ensures Pending(h, base, rank[p := clock])
  {
    var old_ := base + [Exit(p)];
    assert old_[|base|] == Exit(p);
    forall y | DataEdge(h, p, y) ensures y in rank && rank[y] < clock {
      assert !Awaited(h, old_, |base|, y);
    }
    forall i | 0 <= i < |base| && base[i].Exit? ensures base[i].pair !in rank {
      assert old_[i] == base[i];
    }
    PendingKept(h, base, Exit(p), [], rank, rank[p := clock]);
    assert base + [] == base;
  }

  // ------------------------------------------------------------------- the machine ---

  datatype Walk = Walk(work: seq<Work>, active: set<Ref>, checked: map<Ref, set<TypeId>>)

  datatype Verdict = Next(walk: Walk) | Done(ok: bool)

  function Remember(checked: map<Ref, set<TypeId>>, p: Pair): map<Ref, set<TypeId>>
    requires p.value.Object?
  {
    checked[p.value.ref := (if p.value.ref in checked then checked[p.value.ref] else {}) + {p.typ}]
  }

  predicate Remembered(checked: map<Ref, set<TypeId>>, p: Pair) {
    p.value.Object? && p.value.ref in checked && p.typ in checked[p.value.ref]
  }

  /** One turn of the traversal. */
  function Step(h: Host, s: Walk): Verdict
    requires ExitsHoldObjects(s.work)
  {
    if s.work == [] then Done(true) else
    var base, top := s.work[..|s.work| - 1], s.work[|s.work| - 1];
    var p := top.pair;
    if top.Exit? then
      Next(Walk(base, s.active - {p.value.ref}, Remember(s.checked, p)))
    else if !IsData(h, p) then
      match Expand(h, p)
      case None => Done(false)
      case Some(children) => Next(s.(work := base + Checks(children)))
    else if !p.value.Object? || p.value.ref in s.active then Done(false)
    else if Remembered(s.checked, p) then Next(s.(work := base))
    else match DataChildren(h, p)
      case None => Done(false)
      case Some(children) => Next(Walk(base + ([Exit(p)] + Checks(children)), s.active + {p.value.ref}, s.checked))
  }

  function Start(root: Pair): Walk {
    Walk([Check(root)], {}, map[])
  }

  /** A whole run of the machine, ending in a verdict. */
  ghost predicate Runs(h: Host, root: Pair, trace: seq<Walk>, ok: bool) {
    |trace| > 0 && trace[0] == Start(root) && Steps(h, trace) && Step(h, trace[|trace| - 1]) == Done(ok)
  }

  /** This turn expands p: its check comes off the stack and its exit mark goes on. */
  predicate Expands(s: Walk, t: Walk, p: Pair) {
    0 < |s.work| <= |t.work| && s.work[|s.work| - 1] == Check(p) && t.work[|s.work| - 1] == Exit(p)
  }

  ghost predicate Good(h: Host, root: Pair, s: Walk, seen: set<Pair>, rank: map<Pair, nat>, clock: nat) {
    && OnPath(h, root, s.work, s.active)
    && Covered(h, root, s.work, seen, rank)
    && Ranked(h, rank, clock)
    && Pending(h, s.work, rank)
    && Memo(s.checked, rank)
  }

  ghost function Marks(work: seq<Work>): set<Pair> {
    set w | w in work && w.Exit? :: w.pair
  }

  /** Data pairs expanded so far: the finished ones and those on the current path. */
  ghost function Expanded(work: seq<Work>, rank: map<Pair, nat>): set<Pair> {
    rank.Keys + Marks(work)
  }

  ghost function Universe(h: Host): set<Pair> {
    set r, t | r in h.heap && t in h.table :: Pair(t, Object(r))
  }

  ghost function Weight(h: Host, work: seq<Work>): nat {
    if work == [] then 0
    else Weight(h, work[..|work| - 1]) + (if work[|work| - 1].Check? && IsVariant(h, work[|work| - 1].pair) then 2 else 1)
  }

  ghost predicate ExitsHoldObjects(work: seq<Work>) {
    forall w | w in work && w.Exit? :: w.pair.value.Object?
  }

  lemma {:induction false} GoodExits(h: Host, root: Pair, s: Walk, seen: set<Pair>, rank: map<Pair, nat>, clock: nat)
    requires Good(h, root, s, seen, rank, clock)
    ensures ExitsHoldObjects(s.work)
  {
  }

  lemma {:induction false} MemoExited(checked: map<Ref, set<TypeId>>, rank: map<Pair, nat>, p: Pair, clock: nat)
    requires Memo(checked, rank) && p.value.Object?
    ensures Memo(Remember(checked, p), rank[p := clock])
  {
  }

  lemma {:induction false} MarksExited(base: seq<Work>, p: Pair, rank: map<Pair, nat>, clock: nat)
    ensures Expanded(base, rank[p := clock]) == Expanded(base + [Exit(p)], rank)
  {
    assert forall w :: w in base + [Exit(p)] <==> w in base || w == Exit(p);
  }

  lemma {:induction false} ExitFacts(h: Host, root: Pair, base: seq<Work>, p: Pair, active: set<Ref>)
    requires OnPath(h, root, base + [Exit(p)], active)
    ensures p.value.Object? && IsData(h, p)
    ensures forall i | 0 <= i < |base| && base[i].Exit? :: base[i].pair != p
  {
    var work := base + [Exit(p)];
    assert work[|base|] == Exit(p);
    assert forall i | 0 <= i < |base| :: work[i] == base[i];
  }

  lemma {:induction false} ExitGood(h: Host, root: Pair, s: Walk, base: seq<Work>, p: Pair, seen: set<Pair>, rank: map<Pair, nat>, clock: nat)
    requires Good(h, root, s, seen, rank, clock) && s.work == base + [Exit(p)]
    ensures p.value.Object?
    ensures Good(h, root, Walk(base, s.active - {p.value.ref}, Remember(s.checked, p)), seen, rank[p := clock], clock + 1)
    ensures Expanded(base, rank[p := clock]) == Expanded(s.work, rank)
  {
    hide OnPath, Covered, Ranked, Pending, IsData, Memo, Expanded, Remember;
    ExitFacts(h, root, base, p, s.active);
    PathExited(h, root, base, p, s.active);
    CoveredExited(h, root, base, p, seen, rank, clock);
    RankedExited(h, base, p, rank, clock);
    MemoExited(s.checked, rank, p, clock);
    MarksExited(base, p, rank, clock);
  }

  lemma {:induction false} LeafPending(h: Host, base: seq<Work>, p: Pair, rank: map<Pair, nat>)
    requires Pending(h, base + [Check(p)], rank) && !IsData(h, p) && Expand(h, p).Some?
    ensures Pending(h, base + Checks(Expand(h, p).value), rank)
  {
    var tail := Checks(Expand(h, p).value);
    forall y | Finishes(h, Check(p), y) && IsData(h, y) ensures exists k | 0 <= k < |tail| :: Finishes(h, tail[k], y) {
      assert Check(y) in tail;
      var k :| 0 <= k < |tail| && tail[k] == Check(y);
      assert Finishes(h, tail[k], y);
    }
    forall i | 0 <= i < |base| && base[i].Exit? ensures base[i].pair !in rank {
      assert (base + [Check(p)])[i] == base[i];
    }
    PendingKept(h, base, Check(p), tail, rank, rank);
  }

  lemma {:induction false} LeafGood(h: Host, root: Pair, s: Walk, base: seq<Work>, p: Pair, seen: set<Pair>, rank: map<Pair, nat>, clock: nat)
    requires Closed(h) && Good(h, root, s, seen, rank, clock) && s.work == base + [Check(p)]
    requires !IsData(h, p) && Expand(h, p).Some?
    ensures Good(h, root, s.(work := base + Checks(Expand(h, p).value)), seen + {p}, rank, clock)
    ensures Expanded(base + Checks(Expand(h, p).value), rank) == Expanded(s.work, rank)
    ensures Weight(h, base + Checks(Expand(h, p).value)) < Weight(h, s.work)
  {
    hide OnPath, Covered, Ranked, Pending, IsData;
    var children := Expand(h, p).value;
    var tail := Checks(children);
    LeafPending(h, base, p, rank);
    LeafWeight(h, base, p);
    assert forall w: Work | w.Exit? :: w in s.work <==> w in base + tail;
    hide Expand, Closed;
    forall k | 0 <= k < |tail| ensures tail[k].Check? && Edge(h, p, tail[k].pair) {
      assert children[|children| - 1 - k] in children;
    }
    PathKept(h, root, base, Check(p), tail, s.active);
    CoveredKept(h, root, base, p, tail, seen, rank);
  }

  lemma {:induction false} LeafWeight(h: Host, base: seq<Work>, p: Pair)
    requires Closed(h) && !IsData(h, p) && Expand(h, p).Some?
    ensures Weight(h, base + Checks(Expand(h, p).value)) < Weight(h, base + [Check(p)])
  {
    var work := base + [Check(p)];
    assert work[..|work| - 1] == base;
    var next := base + Checks(Expand(h, p).value);
    if IsVariant(h, p) {
      assert Edge(h, p, Expand(h, p).value[0]);
      EdgeKinds(h, p, Expand(h, p).value[0]);
      assert next[..|next| - 1] == base;
    } else {
      assert next == base;
    }
  }

  lemma {:induction false} MemoGood(h: Host, root: Pair, s: Walk, base: seq<Work>, p: Pair, seen: set<Pair>, rank: map<Pair, nat>, clock: nat)
    requires Good(h, root, s, seen, rank, clock) && s.work == base + [Check(p)]
    requires IsData(h, p) && p in rank
    ensures Good(h, root, s.(work := base), seen + {p}, rank, clock)
    ensures Expanded(base, rank) == Expanded(s.work, rank)
    ensures Weight(h, base) < Weight(h, s.work)
  {
    PathKept(h, root, base, Check(p), [], s.active);
    assert base + [] == base;
    CoveredKept(h, root, base, p, [], seen, rank);
    forall i | 0 <= i < |base| && base[i].Exit? ensures base[i].pair !in rank {
      assert s.work[i] == base[i];
    }
    PendingKept(h, base, Check(p), [], rank, rank);
    assert s.work[..|s.work| - 1] == base;
    assert forall w: Work | w.Exit? :: w in s.work <==> w in base;
  }

  lemma {:induction false} ExpandPending(h: Host, base: seq<Work>, p: Pair, children: seq<Pair>, rank: map<Pair, nat>)
    requires Pending(h, base + [Check(p)], rank)
    requires IsData(h, p) && Expand(h, p) == Some(children) && p !in rank
    ensures Pending(h, base + ([Exit(p)] + Checks(children)), rank)
  {
    var tail := [Exit(p)] + Checks(children);
    assert tail[0] == Exit(p) && forall k | 0 < k < |tail| :: tail[k] == Checks(children)[k - 1];
    forall y | Finishes(h, Check(p), y) && IsData(h, y) ensures exists k | 0 <= k < |tail| :: Finishes(h, tail[k], y) {
      assert Finishes(h, tail[0], p);
    }
    forall y | DataEdge(h, p, y) ensures exists k | 0 < k < |tail| :: Finishes(h, tail[k], y) {
      ChildFinishes(h, p, children, y);
      var k :| 0 <= k < |children| && Finishes(h, Checks(children)[k], y);
      assert tail[k + 1] == Checks(children)[k];
    }
    forall i | 0 <= i < |base| && base[i].Exit? ensures base[i].pair !in rank {
      assert (base + [Check(p)])[i] == base[i];
    }
    PendingKept(h, base, Check(p), tail, rank, rank);
  }

  lemma {:induction false} ExpandCovered(h: Host, root: Pair, base: seq<Work>, p: Pair, children: seq<Pair>, seen: set<Pair>, rank: map<Pair, nat>)
    requires Covered(h, root, base + [Check(p)], seen, rank)
    requires Expand(h, p) == Some(children)
    ensures Covered(h, root, base + ([Exit(p)] + Checks(children)), seen + {p}, rank)
  {
    var tail := [Exit(p)] + Checks(children);
    forall y | Edge(h, p, y) ensures Check(y) in tail {
      assert Check(y) in Checks(children);
    }
    assert tail[0] == Exit(p);
    CoveredKept(h, root, base, p, tail, seen, rank);
  }

  lemma {:induction false} ExpandMarks(base: seq<Work>, p: Pair, children: seq<Pair>, rank: map<Pair, nat>)
    ensures Expanded(base + ([Exit(p)] + Checks(children)), rank) == Expanded(base + [Check(p)], rank) + {p}
  {
    var tail := [Exit(p)] + Checks(children);
    forall w: Work | w.Exit? ensures w in base + tail <==> w in base + [Check(p)] || w == Exit(p) {
      assert w in base + tail <==> w in base || w in tail;
      assert w in tail <==> w == Exit(p);
    }
  }

  lemma {:induction false} ExpandGood(h: Host, root: Pair, s: Walk, base: seq<Work>, p: Pair, children: seq<Pair>,
                   seen: set<Pair>, rank: map<Pair, nat>, clock: nat)
    requires Good(h, root, s, seen, rank, clock) && s.work == base + [Check(p)]
    requires IsData(h, p) && Expand(h, p) == Some(children)
    requires p.value.Object? && p.value.ref !in s.active && p !in rank
    ensures Good(h, root, Walk(base + ([Exit(p)] + Checks(children)), s.active + {p.value.ref}, s.checked), seen + {p}, rank, clock)
    ensures p in Universe(h) && p !in Expanded(s.work, rank)
    ensures Expanded(base + ([Exit(p)] + Checks(children)), rank) == Expanded(s.work, rank) + {p}
  {
    hide OnPath, Covered, Ranked, Pending, IsData, Memo, Expanded, Expand, Universe;
    ghost var next := base + ([Exit(p)] + Checks(children));
    assert OnPath(h, root, next, s.active + {p.value.ref}) by {
      PathExpanded(h, root, base, p, s.active);
      PathBelowExit(h, root, base, p, children, s.active + {p.value.ref});
      assert next == base + [Exit(p)] + Checks(children);
    }
    assert Pending(h, next, rank) by { ExpandPending(h, base, p, children, rank); }
    assert Covered(h, root, next, seen + {p}, rank) by { ExpandCovered(h, root, base, p, children, seen, rank); }
    ExpandMarks(base, p, children, rank);
    NotYetExpanded(h, root, s.work, s.active, rank, p);
    InUniverse(h, p);
  }

  lemma {:induction false} InUniverse(h: Host, p: Pair)
    requires IsData(h, p) && Expand(h, p).Some?
    ensures p in Universe(h)
  {
  }

  lemma {:induction false} NotYetExpanded(h: Host, root: Pair, work: seq<Work>, active: set<Ref>, rank: map<Pair, nat>, p: Pair)
    requires OnPath(h, root, work, active) && p.value.Object? && p.value.ref !in active && p !in rank
    ensures p !in Expanded(work, rank)
  {
  }

  lemma {:induction false} ChildFinishes(h: Host, p: Pair, children: seq<Pair>, y: Pair)
    requires Expand(h, p) == Some(children) && DataEdge(h, p, y)
    ensures exists k | 0 <= k < |children| :: Finishes(h, Checks(children)[k], y)
  {
    var c := y;
    if !Edge(h, p, y) {
      c :| Edge(h, p, c) && IsVariant(h, c) && Edge(h, c, y);
    }
    assert Check(c) in Checks(children);
    var k :| 0 <= k < |children| && Checks(children)[k] == Check(c);
    assert Finishes(h, Checks(children)[k], y);
  }

  // ------------------------------------------------------------------- the verdict ---

  /** An object met again on the current path lies below itself. */
  lemma {:induction false} ActiveMeansCycle(h: Host, root: Pair, s: Walk, base: seq<Work>, p: Pair)
    requires OnPath(h, root, s.work, s.active) && s.work == base + [Check(p)]
    requires IsData(h, p) && p.value.Object? && p.value.ref in s.active
    ensures !Conforms(h, root)
  {
    assert s.work[|base|] == Check(p);
    var i :| 0 <= i < |s.work| && s.work[i].Exit? && s.work[i].pair.value == Object(p.value.ref);
    assert OwnDescendant(h, s.work[i].pair, p);
  }

  lemma {:induction false} FailedTest(h: Host, root: Pair, s: Walk, base: seq<Work>, p: Pair)
    requires OnPath(h, root, s.work, s.active) && s.work == base + [Check(p)]
    requires Expand(h, p).None?
    ensures !Conforms(h, root)
  {
    assert s.work[|base|] == Check(p);
  }

  lemma {:induction false} EmptyStack(h: Host, root: Pair, s: Walk, seen: set<Pair>, rank: map<Pair, nat>, clock: nat)
    requires Closed(h) && Good(h, root, s, seen, rank, clock) && s.work == []
    ensures forall p | Reaches(h, root, p) :: Expand(h, p).Some?
    ensures forall p | Reaches(h, root, p) && IsData(h, p) :: !Below(h, p, p)
    ensures PlainBelow(h, root) ==> Conforms(h, root)
  {
    forall p | Reaches(h, root, p) ensures Expand(h, p).Some? {
      var t :| Joins(h, t, root, p);
      ClosedUnderPaths(h, seen, t);
    }
    forall p | Reaches(h, root, p) && IsData(h, p) ensures !Below(h, p, p) {
      var t :| Joins(h, t, root, p);
      ClosedUnderPaths(h, seen, t);
      NoPairReturns(h, seen, rank, p);
    }
    if PlainBelow(h, root) {
      MarksProveConformance(h, seen, rank, root);
    }
  }

  lemma {:induction false} StartGood(h: Host, root: Pair)
    ensures Good(h, root, Start(root), {}, map[], 0)
    ensures ExitsHoldObjects(Start(root).work) && Steps(h, [Start(root)])
    ensures Expanded(Start(root).work, map[]) == {}
  {
    ReachSelf(h, root);
  }

  lemma {:induction false} RunExtends(h: Host, trace: seq<Walk>, s: Walk, next: Walk)
    requires |trace| > 0 && trace[|trace| - 1] == s && ExitsHoldObjects(s.work) && ExitsHoldObjects(next.work)
    requires Steps(h, trace) && Step(h, s) == Next(next)
    ensures Steps(h, trace + [next])
  {
    var t := trace + [next];
    assert forall i | 0 <= i < |trace| :: t[i] == trace[i];
    forall i | 0 <= i < |t| ensures ExitsHoldObjects(t[i].work) {
      if i < |trace| { assert t[i] == trace[i]; }
    }
    forall i | 0 <= i < |t| - 1 ensures Step(h, t[i]) == Next(t[i + 1]) {
      if i == |trace| - 1 { assert t[i] == s; }
    }
  }

  ghost predicate Steps(h: Host, trace: seq<Walk>) {
    && (forall i | 0 <= i < |trace| :: ExitsHoldObjects(trace[i].work))
    && (forall i | 0 <= i < |trace| - 1 :: Step(h, trace[i]) == Next(trace[i + 1]))
  }

  lemma {:induction false} WeightAppend(h: Host, base: seq<Work>, w: Work)
    ensures Weight(h, base) < Weight(h, base + [w])
  {
    assert (base + [w])[..|base|] == base;
  }

  /** A turn keeps the invariants, and either expands one new data pair or, expanding none,
      takes weight off the stack. */
  lemma {:induction false} StepGood(h: Host, root: Pair, s: Walk, seen: set<Pair>, rank: map<Pair, nat>, clock: nat)
    returns (seen': set<Pair>, rank': map<Pair, nat>, clock': nat, novel: Option<Pair>)
    requires Closed(h) && Good(h, root, s, seen, rank, clock) && ExitsHoldObjects(s.work)
    requires Step(h, s).Next?
    ensures Good(h, root, Step(h, s).walk, seen', rank', clock')
    ensures novel.None? ==> Expanded(Step(h, s).walk.work, rank') == Expanded(s.work, rank)
    ensures novel.None? ==> Weight(h, Step(h, s).walk.work) < Weight(h, s.work)
    ensures novel.Some? ==> Expanded(Step(h, s).walk.work, rank') == Expanded(s.work, rank) + {novel.value}
    ensures novel.Some? ==> novel.value in Universe(h) && novel.value !in Expanded(s.work, rank)
    ensures forall p | Expands(s, Step(h, s).walk, p) :: novel == Some(p)
  {
    hide OnPath, Covered, Ranked, Pending;
    var base, top := s.work[..|s.work| - 1], s.work[|s.work| - 1];
    assert s.work == base + [top];
    var p := top.pair;
    WeightAppend(h, base, top);
    seen', rank', clock', novel := seen, rank, clock, None;
    if top.Exit? {
      ExitGood(h, root, s, base, p, seen, rank, clock);
      rank', clock' := rank[p := clock], clock + 1;
    } else if !IsData(h, p) {
      LeafGood(h, root, s, base, p, seen, rank, clock);
      seen' := seen + {p};
    } else if Remembered(s.checked, p) {
      MemoGood(h, root, s, base, p, seen, rank, clock);
      seen' := seen + {p};
    } else {
      ExpandGood(h, root, s, base, p, DataChildren(h, p).value, seen, rank, clock);
      seen', novel := seen + {p}, Some(p);
    }
  }

  /** A verdict before the stack is empty is a refusal, and the refusal is right. */
  lemma {:induction false} StepDone(h: Host, root: Pair, s: Walk, seen: set<Pair>, rank: map<Pair, nat>, clock: nat, ok: bool)
    requires Good(h, root, s, seen, rank, clock) && ExitsHoldObjects(s.work) && s.work != []
    requires Step(h, s) == Done(ok)
    ensures !ok && !Conforms(h, root)
  {
    hide Conforms, Covered, OnPath, Ranked, Pending;
    var base, top := s.work[..|s.work| - 1], s.work[|s.work| - 1];
    assert s.work == base + [top];
    if IsData(h, top.pair) && top.pair.value.Object? && top.pair.value.ref in s.active {
      ActiveMeansCycle(h, root, s, base, top.pair);
    } else {
      FailedTest(h, root, s, base, top.pair);
    }
  }

  /** Reads a data object's own properties one by one, elements or fields, and gives up at
      the first that is missing or an accessor. */
  method ReadChildren(h: Host, p: Pair) returns (children: Option<seq<Pair>>)
    requires p.typ in h.table
    ensures children == DataChildren(h, p)
  {
    var shape := h.table[p.typ];
    if !p.value.Object? {
      return None;
    }
    var node := At(h.heap, p.value.ref);
    if node.function_ || node.proxy || !node.frozen {
      return None;
    }
    var read: seq<Pair> := [];
    if shape.kind.Array? {
      if !node.body.ArrayBody? || KeyCount(node) != |node.body.slots| + 1 {
        return None;
      }
      for i := 0 to |node.body.slots|
        invariant |read| == i
        invariant forall j | 0 <= j < i :: node.body.slots[j].Data? && read[j] == Pair(shape.element, node.body.slots[j].value)
      {
        if !node.body.slots[i].Data? {
          return None;
        }
        read := read + [Pair(shape.element, node.body.slots[i].value)];
      }
    } else if shape.kind.Record? || shape.kind.Error? {
      if node.body != PlainBody(Some(p.typ)) || |node.named| != |shape.fields| {
        return None;
      }
      for i := 0 to |shape.fields|
        invariant |read| == i
        invariant forall j | 0 <= j < i ::
          var f := shape.fields[j]; f.name in node.named && node.named[f.name].Data? && read[j] == Pair(f.typ, node.named[f.name].value)
      {
        var f := shape.fields[i];
        if f.name !in node.named || !node.named[f.name].Data? {
          return None;
        }
        read := read + [Pair(f.typ, node.named[f.name].value)];
      }
    } else {
      return None;
    }
    assert read == DataChildren(h, p).value;
    children := Some(read);
  }

  /** The body of the traversal's loop, branch by branch. */
  method Turn(h: Host, s: Walk) returns (verdict: Verdict)
    requires s.work != [] && ExitsHoldObjects(s.work)
    ensures verdict == Step(h, s)
  {
    var work, active, checked := s.work, s.active, s.checked;
    var top := work[|work| - 1];
    work := work[..|work| - 1];
    var typ, v := top.pair.typ, top.pair.value;
    if top.Exit? {
      active := active - {v.ref};
      var known := if v.ref in checked then checked[v.ref] else {};
      checked := checked[v.ref := known + {typ}];
      return Next(Walk(work, active, checked));
    }
    if typ !in h.table {
      return Done(false);
    }
    var shape := h.table[typ];
    if shape.kind.Primitive? {
      if !TypeofMatches(shape.declaration, v) { return Done(false); }
    } else if shape.kind.Variant? {
      var leaf := FindLeaf(h, shape.leaves, v);
      if leaf.None? { return Done(false); }
      work := PushAll(work, [Pair(leaf.value, v)]);
    } else if shape.kind.Opaque? {
      if shape.declaration == STANDARD_FAILURE {
        if !IsStandardFailure(h, v) { return Done(false); }
      } else if !h.opaque_(typ, v) { return Done(false); }
    } else if shape.kind.Callable? || shape.kind.ChoiceArm? {
      if !h.callable(typ, v) { return Done(false); }
    } else {
      if !v.Object? || v.ref in active { return Done(false); }
      if v.ref !in checked || typ !in checked[v.ref] {
        var children := ReadChildren(h, top.pair);
        if children.None? { return Done(false); }
        active := active + {v.ref};
        work := PushAll(work + [Exit(top.pair)], children.value);
      }
    }
    verdict := Next(Walk(work, active, checked));
  }

  // ------------------------------------------------------------------- whole runs ---

  predicate ExpandsAt(trace: seq<Walk>, i: nat, p: Pair) {
    i + 1 < |trace| && Expands(trace[i], trace[i + 1], p)
  }

  /** No object is expanded twice under one type. */
  ghost predicate ExpandsOnce(trace: seq<Walk>) {
    forall i: nat, j: nat, p | ExpandsAt(trace, i, p) && ExpandsAt(trace, j, p) :: i == j
  }

  /** The exit marks on the stack name the active objects and no others, each once. */
  ghost predicate MarksActive(s: Walk) {
    && (forall i | 0 <= i < |s.work| && s.work[i].Exit? :: s.work[i].pair.value.Object? && s.work[i].pair.value.ref in s.active)
    && (forall i, j | 0 <= i < j < |s.work| && s.work[i].Exit? && s.work[j].Exit? :: s.work[i].pair.value != s.work[j].pair.value)
    && (forall r | r in s.active :: exists i :: 0 <= i < |s.work| && s.work[i].Exit? && s.work[i].pair.value == Object(r))
  }

  /** The invariants hold in every state of a run, and what was expanded before is on record. */
  lemma {:induction false} RunGood(h: Host, root: Pair, trace: seq<Walk>, n: nat)
    returns (seen: set<Pair>, rank: map<Pair, nat>, clock: nat)
    requires Closed(h) && n < |trace| && trace[0] == Start(root) && Steps(h, trace)
    ensures Good(h, root, trace[n], seen, rank, clock)
    ensures forall i: nat, p | i < n && ExpandsAt(trace, i, p) :: p in Expanded(trace[n].work, rank)
    ensures forall i: nat, j: nat, p | i < n && j < n && ExpandsAt(trace, i, p) && ExpandsAt(trace, j, p) :: i == j
  {
    hide Good, Closed, Expanded, Universe, Step, Expands, ExitsHoldObjects, Start;
    if n == 0 {
      StartGood(h, root);
      return {}, map[], 0;
    }
    var seen0, rank0, clock0 := RunGood(h, root, trace, n - 1);
    assert Step(h, trace[n - 1]) == Next(trace[n]);
    var novel: Option<Pair>;
    seen, rank, clock, novel := StepGood(h, root, trace[n - 1], seen0, rank0, clock0);
  }

  /** The run as a whole. */
  lemma {:induction false} RunFacts(h: Host, root: Pair, trace: seq<Walk>)
    requires Closed(h) && |trace| > 0 && trace[0] == Start(root) && Steps(h, trace)
    ensures ExpandsOnce(trace)
    ensures forall n | 0 <= n < |trace| :: MarksActive(trace[n])
  {
    forall n | 0 <= n < |trace| ensures MarksActive(trace[n]) {
      var seen, rank, clock := RunGood(h, root, trace, n);
    }
    var seen, rank, clock := RunGood(h, root, trace, |trace| - 1);
    hide Good, Closed, Expanded, Step, Expands, MarksActive, ExitsHoldObjects, Start;
  }

  /** Conformance and what passes on the way, in terms of values and types. */
  lemma {:induction false} TypedMeans(h: Host, root: Pair)
    requires Closed(h)
    ensures Conforms(h, root) <==> WellTyped(h, root)
    ensures PlainBelow(h, root) <==> OnlyAsData(h, root)
    ensures (forall p | Reaches(h, root, p) :: Expand(h, p).Some?) ==>
              forall s: seq<Pair> | WayDown(h, s) && s[0] == root :: Passes(h, s[|s| - 1])
  {
    ConformsIs(h, root);
    PlainIs(h, root);
    hide Closed, Passes, Expand, Conforms, WellTyped, PlainBelow, OnlyAsData;
    if forall p | Reaches(h, root, p) :: Expand(h, p).Some? {
      forall s: seq<Pair> | WayDown(h, s) && s[0] == root ensures Passes(h, s[|s| - 1]) {
        WayReaches(h, s, 0);
        PassesIs(h, s[|s| - 1]);
      }
    }
  }

  /** Decides conformance on every heap: it terminates, expands each data pair at most once,
      keeps `active` to the objects on the current path, and is right wherever nothing reached
      lets a record or array through other than as data. */
  method Accepts(h: Host, typeIdentity: TypeId, value: Value) returns (ok: bool, ghost trace: seq<Walk>)
    requires Closed(h)
    ensures !ok ==> !Conforms(h, Pair(typeIdentity, value))
    ensures ok ==> forall p | Reaches(h, Pair(typeIdentity, value), p) :: Expand(h, p).Some?
    ensures ok ==> forall p | Reaches(h, Pair(typeIdentity, value), p) && IsData(h, p) :: !Below(h, p, p)
    ensures PlainBelow(h, Pair(typeIdentity, value)) ==> (ok <==> Conforms(h, Pair(typeIdentity, value)))
    ensures !ok ==> !WellTyped(h, Pair(typeIdentity, value))
    ensures ok ==> forall s: seq<Pair> | WayDown(h, s) && s[0] == Pair(typeIdentity, value) :: Passes(h, s[|s| - 1])
    ensures OnlyAsData(h, Pair(typeIdentity, value)) ==> (ok <==> WellTyped(h, Pair(typeIdentity, value)))
    ensures Runs(h, Pair(typeIdentity, value), trace, ok)
    ensures ExpandsOnce(trace)
    ensures forall n | 0 <= n < |trace| :: MarksActive(trace[n])
  {
    hide Good, Closed, PlainBelow, Conforms, Steps, Expanded, Universe, Expand, Reaches, Below, IsData, ExitsHoldObjects,
         ExpandsOnce, MarksActive, WellTyped, OnlyAsData, WayDown, Passes;
    ghost var root := Pair(typeIdentity, value);
    TypedMeans(h, root);
    var s := Walk([Check(Pair(typeIdentity, value))], {}, map[]);
    ghost var seen: set<Pair>, rank: map<Pair, nat>, clock: nat := {}, map[], 0;
    trace := [s];
    StartGood(h, root);
    while s.work != []
      invariant Good(h, root, s, seen, rank, clock) && ExitsHoldObjects(s.work)
      invariant |trace| > 0 && trace[0] == Start(root) && trace[|trace| - 1] == s && Steps(h, trace)
      decreases |Universe(h) - Expanded(s.work, rank)|, Weight(h, s.work)
    {
      var verdict := Turn(h, s);
      if verdict.Done? {
        StepDone(h, root, s, seen, rank, clock, verdict.ok);
        RunFacts(h, root, trace);
        return verdict.ok, trace;
      }
      ghost var todo := Universe(h) - Expanded(s.work, rank);
      ghost var seen', rank', clock', novel := StepGood(h, root, s, seen, rank, clock);
      GoodExits(h, root, verdict.walk, seen', rank', clock');
      RunExtends(h, trace, s, verdict.walk);
      if novel.Some? {
        assert Universe(h) - Expanded(verdict.walk.work, rank') == todo - {novel.value};
      }
      s, seen, rank, clock := verdict.walk, seen', rank', clock';
      trace := trace + [s];
    }
    EmptyStack(h, root, s, seen, rank, clock);
    RunFacts(h, root, trace);
    ok := true;
  }

  /** The traversal has one outcome, so a run settles what `Accepts` answers. */
  lemma {:induction false} OneVerdict(h: Host, root: Pair, t: seq<Walk>, a: bool, u: seq<Walk>, b: bool)
    requires Runs(h, root, t, a) && Runs(h, root, u, b)
    ensures a == b
  {
    var n := 0;
    while n < |t| - 1 && n < |u| - 1
      invariant n < |t| && n < |u| && t[n] == u[n]
    {
      assert Step(h, t[n]) == Next(t[n + 1]) && Step(h, u[n]) == Next(u[n + 1]);
      n := n + 1;
    }
    if n < |t| - 1 { assert Step(h, t[n]) == Next(t[n + 1]); }
    if n < |u| - 1 { assert Step(h, u[n]) == Next(u[n + 1]); }
  }
}
