/** What each step of a close and of a drain means for the owners and for the other steps. */
module OwnershipClosing {
  import opened Wrappers
  import opened Ownership
  import opened OwnershipLeases
  import opened OwnershipLifecycle

  /** The owners that can still get a lease on r are those that hold one. */
  ghost predicate ShutsOut(w: World, w': World, r: ResourceId) {
    forall x :: Acquirable(w', r, x) <==> Acquirable(w, r, x) && OwnerOf(w, x) in w.resources[r].leases
  }

  /** No owner gets a lease on r. */
  ghost predicate ShutToAll(w: World, r: ResourceId) {
    forall x :: !Acquirable(w, r, x)
  }

  /** Everything but one resource's record and the failure counter is as it was. */
  ghost predicate OnlyResource(w: World, w': World, r: ResourceId) {
    && r < |w.resources| == |w'.resources| && w' == w.(resources := w'.resources, nextFailure := w'.nextFailure)
    && w'.resources == w.resources[r := w'.resources[r]]
  }

  lemma {:induction false} BeginMeans(w: World, r: ResourceId)
    requires r < |w.resources| && Lifecycle(w.resources) && w.resources[r].closing == Unstarted
    ensures var w' := w.(resources := w.resources[r := Begin(w.resources[r])]);
            Lifecycle(w'.resources) && Monotone(w.resources, w'.resources) && ShutsOut(w, w', r)
  {
    assert ResourceOk(w.resources[r]);
    ReplaceLife(w.resources, r, Begin(w.resources[r]));
  }

  /** From the native close on nobody gets in, and it does not start twice. */
  lemma {:induction false} StartMeans(w: World, r: ResourceId)
    requires Lifecycle(w.resources) && CloseStarts(w, r).Some?
    ensures var w' := CloseStarts(w, r).value;
            && OnlyResource(w, w', r) && Lifecycle(w'.resources) && Monotone(w.resources, w'.resources)
            && ShutToAll(w', r) && CloseStarts(w', r).None?
  {
    CloseProgressLife(w, ECloseStarts(r));
    var w' := CloseStarts(w, r).value;
    forall x ensures !Acquirable(w', r, x) {
      NoLeaseAfterClose(w', r, x);
    }
  }

  /** Nothing happens to a resource whose close has settled: no deadline, no timer, no second
      close. */
  ghost predicate AtRest(w: World, r: ResourceId) {
    && DeadlineFires(w, r).None? && CloseStarts(w, r).None? && TimerFires(w, r).None?
    && CloseEnds(w, r, true).None? && CloseEnds(w, r, false).None? && ShutToAll(w, r)
  }

  /** Every drain that waits for r can go on. */
  ghost predicate FreesDrains(w: World, r: ResourceId) {
    forall s | 0 <= s < |w.scopes| && w.scopes[s].drain.Awaiting? && w.scopes[s].drain.next == r + 1 :: DrainResumes(w, s).Some?
  }

  lemma {:induction false} EndMeans(w: World, r: ResourceId, ok: bool)
    requires Lifecycle(w.resources) && CloseEnds(w, r, ok).Some?
    ensures var w' := CloseEnds(w, r, ok).value;
            && OnlyResource(w, w', r) && Lifecycle(w'.resources) && Monotone(w.resources, w'.resources)
            && AtRest(w', r) && FreesDrains(w', r)
            && (w'.resources[r].state == Closed || w'.resources[r].cleanup.Some?)
            && (ok ==> w'.resources[r].cleanup == w.resources[r].cleanup)
  {
    CloseProgressLife(w, ECloseEnds(r, ok));
    var w' := CloseEnds(w, r, ok).value;
    forall x ensures !Acquirable(w', r, x) {
      NoLeaseAfterClose(w', r, x);
    }
  }

  /** A deadline reports a failure and leaves the close itself going. */
  lemma {:induction false} DeadlineMeans(w: World, r: ResourceId)
    requires Lifecycle(w.resources) && DeadlineFires(w, r).Some?
    ensures var w' := DeadlineFires(w, r).value;
            && OnlyResource(w, w', r) && Lifecycle(w'.resources) && Monotone(w.resources, w'.resources)
            && w'.resources[r].cleanup == Some(w.nextFailure)
            && (CloseStarts(w', r).Some? <==> CloseStarts(w, r).Some?)
            && (CloseEnds(w', r, true).Some? <==> CloseEnds(w, r, true).Some?)
            && forall x :: Acquirable(w', r, x) <==> Acquirable(w, r, x)
  {
    CloseProgressLife(w, EDeadlineFires(r));
  }

  /** The timer shuts new owners out, begins no close, and is not armed again. */
  lemma {:induction false} TimerMeans(w: World, r: ResourceId)
    requires Lifecycle(w.resources) && TimerFires(w, r).Some?
    ensures var w' := TimerFires(w, r).value;
            && OnlyResource(w, w', r) && Lifecycle(w'.resources) && Monotone(w.resources, w'.resources)
            && ShutsOut(w, w', r) && w'.resources[r].closing == w.resources[r].closing
            && (w'.resources[r].state == Closed || w'.resources[r].cleanup.Some?)
            && TimerFires(w', r).None? && forall s :: !Arms(w', s, w'.resources[r])
  {
    assert ResourceOk(w.resources[r]);
    CloseProgressLife(w, ETimerFires(r));
  }

  /** A visit ends the drain, passes over a resource outside the scope, or waits for the close
      of one inside; begun here unless it was before. A resource that nothing closed is then
      shut, and counts as a failure unless its scope manages it. */
  ghost predicate VisitDone(w: World, w': World, s: ScopeId)
    requires s < |w.scopes| && w.scopes[s].drain.Visiting? && w.scopes[s].drain.next <= |w.resources|
    requires s < |w'.scopes| && |w'.resources| == |w.resources|
  {
    var d, d' := w.scopes[s].drain, w'.scopes[s].drain;
    if d.next == 0 then d' == Drained(d.first) && w'.resources == w.resources
    else if !Inside(w.parents, w.resources[d.next - 1].scope, s) then d' == Visiting(d.next - 1, d.first) && w'.resources == w.resources
    else
      var before, now := w.resources[d.next - 1], w'.resources[d.next - 1];
      && d' == Awaiting(d.next, d.first) && now.closing != Unstarted && now.state != Open
      && (if before.closing == Unstarted then now.closing == Waiting && ShutsOut(w, w', d.next - 1) && (now.scopeManaged || now.cleanup.Some?)
          else now == before)
      && w'.resources == w.resources[d.next - 1 := now]
  }

  lemma {:induction false} VisitMeans(w: World, s: ScopeId)
    requires Lifecycle(w.resources) && DrainVisits(w, s).Some?
    ensures var w' := DrainVisits(w, s).value;
            && |w'.scopes| == |w.scopes| && |w'.resources| == |w.resources| && w'.scopes == w.scopes[s := w'.scopes[s]]
            && Lifecycle(w'.resources) && Monotone(w.resources, w'.resources) && VisitDone(w, w', s)
  {
    DrainVisitsLife(w, s);
    if w.scopes[s].drain.next > 0 {
      assert ResourceOk(w.resources[w.scopes[s].drain.next - 1]);
    }
  }

  lemma {:induction false} ReleaseLife(w: World, id: LeaseId)
    requires Ledger(w.resources, w.leases, w.nextLease) && Lifecycle(w.resources)
    ensures Lifecycle(Release(w, id).resources) && Monotone(w.resources, Release(w, id).resources)
  {
    ReleaseLedger(w, id);
    LeaseOnlyLife(w.resources, Release(w, id).resources);
  }

  /** A resource that no close was begun for keeps its life when a failure is noted on it. */
  lemma {:induction false} MarkedLife(rs: seq<Resource>, r: ResourceId, failure: FailureId)
    requires Lifecycle(rs) && r < |rs| && (rs[r].state == Open || rs[r].autoPending)
    ensures rs[r].closing == Unstarted && Lifecycle(rs[r := rs[r].(cleanup := Some(failure))])
  {
    assert ResourceOk(rs[r]);
  }

  lemma {:induction false} MonotoneSelf(rs: seq<Resource>)
    ensures Monotone(rs, rs)
  {
  }

  lemma {:induction false} RestMeans(w: World, r: ResourceId)
    requires Lifecycle(w.resources) && r < |w.resources| && w.resources[r].closing == Finished
    ensures AtRest(w, r) && (w.resources[r].state == Closed || w.resources[r].cleanup.Some?)
  {
    assert ResourceOk(w.resources[r]);
    forall x ensures !Acquirable(w, r, x) {
      NoLeaseAfterClose(w, r, x);
    }
  }
}
