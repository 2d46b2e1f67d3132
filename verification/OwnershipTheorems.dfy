/** Safety over whole runs of the ownership protocol, for every interleaving. */
module OwnershipTheorems {
  import opened Wrappers
  import G = Groups
  import opened Ownership
  import opened OwnershipLeases
  import opened OwnershipLifecycle
  import opened OwnershipTasks
  import opened OwnershipDrain
  import opened OwnershipRuns

  /** A run: the worlds passed through, one event between each two. */
  ghost predicate IsRun(run: seq<World>, events: seq<Event>) {
    && |run| == |events| + 1 && run[0] == Start()
    && forall i | 0 <= i < |events| :: Next(run[i], events[i]) == Some(run[i + 1])
  }

  lemma {:induction false} RunInv(run: seq<World>, events: seq<Event>, i: nat)
    requires IsRun(run, events) && i < |run|
    ensures Inv(run[i])
  {
    hide Inv, Next, Stepped, Monotone;
    if i == 0 {
      StartInv();
    } else {
      RunInv(run, events, i - 1);
      assert Next(run[i - 1], events[i - 1]) == Some(run[i]);
      StepInv(run[i - 1], events[i - 1]);
      SteppedInv(run[i - 1], run[i]);
    }
  }

  lemma {:induction false} SteppedMonotone(w: World, w': World)
    requires Stepped(w, w')
    ensures Monotone(w.resources, w'.resources)
  {
  }

  lemma {:induction false} MonotoneSelf(rs: seq<Resource>)
    ensures Monotone(rs, rs)
  {
  }

  lemma {:induction false} RunMonotone(run: seq<World>, events: seq<Event>, i: nat, j: nat)
    requires IsRun(run, events) && i <= j < |run|
    ensures Monotone(run[i].resources, run[j].resources)
    decreases j
  {
    hide Inv, Next, Stepped, Monotone;
    if i < j {
      RunMonotone(run, events, i, j - 1);
      RunInv(run, events, j - 1);
      assert Next(run[j - 1], events[j - 1]) == Some(run[j]);
      StepInv(run[j - 1], events[j - 1]);
      SteppedMonotone(run[j - 1], run[j]);
      MonotoneTrans(run[i].resources, run[j - 1].resources, run[j].resources);
    } else {
      MonotoneSelf(run[i].resources);
    }
  }

  /** A resource only moves open, closing, closed, and once it is closing the owners that hold
      leases only become fewer. */
  lemma {:induction false} OnlyForward(run: seq<World>, events: seq<Event>, i: nat, j: nat, r: ResourceId)
    requires IsRun(run, events) && i <= j < |run| && r < |run[i].resources|
    ensures r < |run[j].resources|
    ensures var a, b := run[i].resources[r], run[j].resources[r];
            && PhaseRank(a.state) <= PhaseRank(b.state)
            && (a.state != Open ==> b.leases.Keys <= a.leases.Keys)
            && (a.state == Closed ==> b.state == Closed)
  {
    RunMonotone(run, events, i, j);
    assert Advance(run[i].resources[r], run[j].resources[r]);
  }

  /** The native close starts without leases, at most once, and from then on the resource has
      no lease and grants none, to any execution. */
  lemma {:induction false} NativeCloseOnce(run: seq<World>, events: seq<Event>, i: nat, r: ResourceId, j: nat, x: Exec)
    requires IsRun(run, events) && i < |events| && events[i] == ECloseStarts(r) && i < j < |run|
    ensures r < |run[i].resources| && run[i].resources[r].leases == map[]
    ensures r < |run[j].resources| && run[j].resources[r].leases == map[] && !Acquirable(run[j], r, x)
    ensures j < |events| ==> events[j] != ECloseStarts(r)
  {
    assert Next(run[i], events[i]) == Some(run[i + 1]);
    assert run[i + 1].resources[r].closing == Running;
    RunMonotone(run, events, i + 1, j);
    assert Advance(run[i + 1].resources[r], run[j].resources[r]);
    RunInv(run, events, j);
    NoLeaseAfterClose(run[j], r, x);
    if j < |events| {
      assert Next(run[j], events[j]) == Some(run[j + 1]);
    }
  }

  /** The close of r is begun by this event, whichever path led to it. */
  ghost predicate BeginsClose(run: seq<World>, i: nat, r: ResourceId) {
    && i + 1 < |run| && r < |run[i].resources| && r < |run[i + 1].resources|
    && run[i].resources[r].closing != Waiting && run[i + 1].resources[r].closing == Waiting
  }

  /** Explicit closes, drains and the shutdown timer together begin a close at most once. */
  lemma {:induction false} CloseBegunOnce(run: seq<World>, events: seq<Event>, i: nat, j: nat, r: ResourceId)
    requires IsRun(run, events) && BeginsClose(run, i, r) && BeginsClose(run, j, r)
    ensures i == j
  {
    if i < j { NeverBegunAgain(run, events, i, j, r); }
    if j < i { NeverBegunAgain(run, events, j, i, r); }
  }

  lemma {:induction false} NeverBegunAgain(run: seq<World>, events: seq<Event>, i: nat, j: nat, r: ResourceId)
    requires IsRun(run, events) && BeginsClose(run, i, r) && i < j
    ensures !BeginsClose(run, j, r)
  {
    if j + 1 < |run| {
      hide Next;
      RunMonotone(run, events, i + 1, j);
      RunMonotone(run, events, j, j + 1);
      hide IsRun;
      assert Advance(run[i + 1].resources[r], run[j].resources[r]);
      assert Advance(run[j].resources[r], run[j + 1].resources[r]);
    }
  }

  /** Beginning a close always starts from an untouched one. */
  lemma {:induction false} BegunFromUnstarted(run: seq<World>, events: seq<Event>, i: nat, r: ResourceId)
    requires IsRun(run, events) && BeginsClose(run, i, r)
    ensures run[i].resources[r].closing == Unstarted
    ensures run[i].resources[r].state == Open || run[i].resources[r].autoPending
  {
    RunMonotone(run, events, i, i + 1);
    assert Advance(run[i].resources[r], run[i + 1].resources[r]);
    RunInv(run, events, i);
    assert ResourceOk(run[i].resources[r]);
  }

  // -------------------------------------------------------------------------- leases ---

  /** In every reachable world the stored count is the number of releases still to be called,
      and an owner without any is not stored. */
  lemma {:induction false} CountsAreOutstanding(run: seq<World>, events: seq<Event>, i: nat, r: ResourceId, o: Owner)
    requires IsRun(run, events) && i < |run| && r < |run[i].resources|
    ensures var res := run[i].resources[r];
            && (o in res.leases <==> Outstanding(run[i].leases, r, o) != {})
            && (o in res.leases ==> res.leases[o] == |Outstanding(run[i].leases, r, o)|)
  {
    RunInv(run, events, i);
    HeldExactly(run[i], r, o);
  }

  ghost predicate HeldByTask(l: Lease, t: TaskId) {
    l.holder == Participant(t) || l.holder == Initial(t)
  }

  /** A settling participant gives back exactly the leases it retained and the initial leases
      it still has; all its retained leases were outstanding until then. */
  lemma {:induction false} SettlingGivesBack(run: seq<World>, events: seq<Event>, i: nat)
    requires IsRun(run, events) && i < |events| && events[i].ETaskSettles?
    ensures var e, w, w' := events[i], run[i], run[i + 1];
            && Pending(w, e.batch, e.index)
            && var t := w.batches[e.batch].tasks[e.index];
               && (forall id | id in w.tasks[t].retained :: id in w.leases)
               && (forall id :: id in w'.leases <==> id in w.leases && !HeldByTask(w.leases[id], t))
               && (forall id | id in w'.leases :: w'.leases[id] == w.leases[id])
  {
    RunInv(run, events, i);
    var e, w := events[i], run[i];
    assert Next(w, e) == Some(run[i + 1]);
    SettleLeases(w, e.batch, e.index, e.completion);
  }

  lemma {:induction false} SettleLeases(w: World, b: BatchId, i: nat, c: G.Completion)
    requires Inv(w) && TaskSettles(w, b, i, c).Some?
    ensures var t, w' := w.batches[b].tasks[i], TaskSettles(w, b, i, c).value;
            && (forall id | id in w.tasks[t].retained :: id in w.leases)
            && (forall id :: id in w'.leases <==> id in w.leases && !HeldByTask(w.leases[id], t))
            && (forall id | id in w'.leases :: w'.leases[id] == w.leases[id])
  {
    var t := w.batches[b].tasks[i];
    FinishTaskParts(w, t);
    assert BatchOk(w.batches[b], b, w.tasks);
    TaskHoldings(w, t);
  }

  lemma {:induction false} TaskHoldings(w: World, t: TaskId)
    requires LeaseTable(w.tasks, w.leases, w.nextLease) && t < |w.tasks| && !w.tasks[t].done
    ensures forall id | id in w.tasks[t].retained :: id in w.leases
    ensures forall id | id in w.leases ::
              HeldByTask(w.leases[id], t) <==> id in Ids(w.tasks[t].retained + w.tasks[t].dynamic)
  {
    assert TaskLeases(w.tasks[t], t, w.leases, w.nextLease);
    forall id | id in w.leases
      ensures HeldByTask(w.leases[id], t) <==> id in Ids(w.tasks[t].retained + w.tasks[t].dynamic)
    {
      assert Listed(w.leases[id], id, w.tasks);
    }
  }

  // ------------------------------------------------------------------------- draining ---

  /** When the drain of a scope has returned, and at every later instant, every resource
      registered inside it is closed or carries a cleanup failure, and what it returned is the
      cleanup of the latest-registered resource that has one. */
  lemma {:induction false} DrainedScope(run: seq<World>, events: seq<Event>, i: nat, s: ScopeId, r: ResourceId)
    requires IsRun(run, events) && i < |run| && s < |run[i].scopes| && run[i].scopes[s].drain.Drained?
    ensures IsLatest(run[i].parents, s, run[i].resources, 0, run[i].scopes[s].drain.first)
    ensures r < |run[i].resources| && Inside(run[i].parents, run[i].resources[r].scope, s) ==>
              run[i].resources[r].state == Closed || run[i].resources[r].cleanup.Some?
  {
    RunInv(run, events, i);
    DrainAt(run[i].parents, run[i].scopes, run[i].resources, s);
    if r < |run[i].resources| {
      assert ResourceOk(run[i].resources[r]);
    }
  }

  /** The closing phase starts only once no group and no callback inside the scope is left. */
  lemma {:induction false} ClosingStartsQuiet(run: seq<World>, events: seq<Event>, i: nat, s: ScopeId)
    requires IsRun(run, events) && i < |events| && s < |run[i].scopes| && s < |run[i + 1].scopes|
    requires !ClosingBegun(run[i].scopes[s]) && ClosingBegun(run[i + 1].scopes[s])
    ensures events[i] == EDrainTurns(s) && Quiet(run[i], s)
  {
    var w, e := run[i], events[i];
    assert Next(w, e) == Some(run[i + 1]);
    if e != EDrainTurns(s) {
      RunInv(run, events, i);
      ScopeUntouched(w, e, s);
    }
  }

  /** No other event starts a closing phase. */
  lemma {:induction false} ScopeUntouched(w: World, e: Event, s: ScopeId)
    requires Inv(w) && Next(w, e).Some? && s < |w.scopes| && e != EDrainTurns(s) && !ClosingBegun(w.scopes[s])
    ensures s < |Next(w, e).value.scopes| && !ClosingBegun(Next(w, e).value.scopes[s])
  {
    if e.ELaunch? || e.ETaskSettles? || e.ECallbackSettles? || e.EUseEnds? || e.ECloseCall? {
      SameScopes(w, e);
    } else if e.EBodyEnds? {
      ReleaseAllLedger(w, w.scopes[e.scope].exits);
      hide Inv;
    } else {
      hide Inv;
    }
  }

  lemma {:induction false} SameScopes(w: World, e: Event)
    requires Inv(w) && Next(w, e).Some?
    requires e.ELaunch? || e.ETaskSettles? || e.ECallbackSettles? || e.EUseEnds? || e.ECloseCall?
    ensures Next(w, e).value.scopes == w.scopes
  {
    match e {
      case ELaunch(x, captures, native_) => LaunchScopes(w, x, captures, native_);
      case ETaskSettles(b, i, c) => FinishScopes(w, w.batches[b].tasks[i]);
      case ECallbackSettles(t) => FinishScopes(w, t);
      case EUseEnds(id) => ReleaseLedger(w, id);
      case ECloseCall(x, r, kind, deadline) => CloseScopes(w, x, r, kind, deadline);
    }
    hide Inv, Launch, CloseCall, FinishTask;
  }

  lemma {:induction false} FinishScopes(w: World, t: TaskId)
    requires Inv(w) && t < |w.tasks|
    ensures FinishTask(w, t).scopes == w.scopes
  {
    ReleaseAllLedger(w, w.tasks[t].retained + w.tasks[t].dynamic);
  }

  lemma {:induction false} LaunchScopes(w: World, x: Exec, captures: seq<seq<ResourceId>>, native_: bool)
    requires Inv(w) && Launch(w, x, captures, native_).Some?
    ensures Launch(w, x, captures, native_).value.scopes == w.scopes
  {
    RetainEachLedger(w.(nextOwner := w.nextOwner + 1), captures, x.(owner := Some(LaunchKey(w, x, native_))), |w.tasks|);
  }

  lemma {:induction false} CloseScopes(w: World, x: Exec, r: ResourceId, kind: string, deadline: bool)
    requires Inv(w) && CloseCall(w, x, r, kind, deadline).Some?
    ensures CloseCall(w, x, r, kind, deadline).value.scopes == w.scopes
  {
    CloseFrame(w, x, r, kind, deadline);
    ReleaseAllLedger(w, CreatorRelease(w, x, r));
  }

  /** Once it has started, nothing inside the scope registers a resource, launches ordinary
      work, opens a scope or accepts a callback from outside. */
  lemma {:induction false} NothingStartsInClosing(run: seq<World>, events: seq<Event>, i: nat, s: ScopeId, x: Exec)
    requires IsRun(run, events) && i < |run| && s < |run[i].scopes| && ClosingBegun(run[i].scopes[s])
    requires Inside(run[i].parents, x.scope, s)
    ensures forall kind, a, b, c :: Register(run[i], x, kind, a, b, c) == None
    ensures forall captures :: Launch(run[i], x, captures, false) == None
    ensures OpenScope(run[i], x) == None
    ensures CallbackStarts(run[i], x.scope, None) == None
  {
    RunInv(run, events, i);
    assert ScopeOk(run[i].scopes[s], s) && Sealed(run[i].parents, run[i].scopes, s);
    assert x.scope < |run[i].scopes| && run[i].scopes[x.scope].state != Open;
  }

  /** Every launched group keeps its own accounts in every reachable world: `pending` counts
      the unsettled tasks and the root holds the group exactly until it is sealed and settled. */
  lemma {:induction false} GroupsAccount(run: seq<World>, events: seq<Event>, i: nat, b: BatchId)
    requires IsRun(run, events) && i < |run| && b < |run[i].batches|
    ensures G.Valid(run[i].batches[b].group)
  {
    RunInv(run, events, i);
    assert BatchOk(run[i].batches[b], b, run[i].tasks);
  }
}
