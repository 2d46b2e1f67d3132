/** A resource's life: open, closing, closed, with one native close at an instant without
    leases. */
module OwnershipLifecycle {
  import opened Wrappers
  import opened Ownership
  import opened OwnershipLeases

  ghost predicate ResourceOk(res: Resource) {
    && (res.closing == Unstarted ==> res.state == Open || (res.state == Closing && res.autoPending))
    && (res.closing != Unstarted ==> res.state != Open && !res.autoPending)
    && (res.state == Closed ==> res.closing == Finished)
    && (res.closing == Running || res.closing == Finished ==> res.leases == map[])
    && (res.closing == Finished ==> (res.state == Closed || res.cleanup.Some?) && !res.timer)
    && (res.autoPending ==> res.state == Closing && res.cleanup.Some?)
  }

  ghost predicate Lifecycle(rs: seq<Resource>) {
    forall r | 0 <= r < |rs| :: ResourceOk(rs[r])
  }

  function PhaseRank(p: Phase): nat {
    match p case Open => 0 case Closing => 1 case Closed => 2
  }

  function CloseRank(c: Close): nat {
    match c case Unstarted => 0 case Waiting => 1 case Running => 2 case Finished => 3
  }

  /** How a resource may change over time: phase and close only move on, no new owner gets a
      lease once it is closing, and a settled close is final. */
  ghost predicate Advance(a: Resource, b: Resource) {
    && b.scope == a.scope && b.kind == a.kind
    && PhaseRank(a.state) <= PhaseRank(b.state)
    && CloseRank(a.closing) <= CloseRank(b.closing)
    && (a.state != Open ==> b.leases.Keys <= a.leases.Keys)
    && (a.closing == Finished ==> b.state == a.state && b.cleanup == a.cleanup)
  }

  ghost predicate Monotone(rs: seq<Resource>, rs': seq<Resource>) {
    |rs| <= |rs'| && forall r | 0 <= r < |rs| :: Advance(rs[r], rs'[r])
  }

  lemma {:induction false} MonotoneTrans(a: seq<Resource>, b: seq<Resource>, c: seq<Resource>)
    requires Monotone(a, b) && Monotone(b, c)
    ensures Monotone(a, c)
  {
  }

  /** Lease changes are allowed changes. */
  lemma {:induction false} LeaseOnlyLife(rs: seq<Resource>, rs': seq<Resource>)
    requires Lifecycle(rs) && LeaseOnly(rs, rs')
    ensures Lifecycle(rs') && Monotone(rs, rs')
  {
    forall r | 0 <= r < |rs| ensures ResourceOk(rs'[r]) {
      assert ResourceOk(rs[r]);
      if rs[r].closing == Running || rs[r].closing == Finished {
        assert rs'[r].leases.Keys == {};
        assert rs'[r].leases == map[];
      }
    }
  }

  /** One resource replaced by an advanced record of its own. */
  lemma {:induction false} ReplaceLife(rs: seq<Resource>, r: ResourceId, res: Resource)
    requires Lifecycle(rs) && r < |rs| && ResourceOk(res) && Advance(rs[r], res)
    ensures Lifecycle(rs[r := res]) && Monotone(rs, rs[r := res])
  {
  }

  lemma {:induction false} AppendLife(rs: seq<Resource>, res: Resource)
    requires Lifecycle(rs) && ResourceOk(res)
    ensures Lifecycle(rs + [res]) && Monotone(rs, rs + [res])
  {
  }

  lemma {:induction false} ArmedLife(w: World, s: ScopeId)
    requires Lifecycle(w.resources)
    ensures Lifecycle(Armed(w, s)) && Monotone(w.resources, Armed(w, s))
  {
    forall r | 0 <= r < |w.resources| ensures ResourceOk(Armed(w, s)[r]) {
      assert ResourceOk(w.resources[r]);
    }
  }

  lemma {:induction false} RegisterLife(w: World, x: Exec, kind: string, idempotent: bool, scopeManaged: bool, limited: bool)
    requires Lifecycle(w.resources) && Register(w, x, kind, idempotent, scopeManaged, limited).Some?
    ensures var w' := Register(w, x, kind, idempotent, scopeManaged, limited).value;
            Lifecycle(w'.resources) && Monotone(w.resources, w'.resources)
  {
    var w' := Register(w, x, kind, idempotent, scopeManaged, limited).value;
    var res := w'.resources[|w.resources|];
    assert w'.resources == w.resources + [res];
    AppendLife(w.resources, res);
  }

  lemma {:induction false} CloseCallLife(w: World, x: Exec, r: ResourceId, kind: string, deadline: bool)
    requires Lifecycle(w.resources) && Ledger(w.resources, w.leases, w.nextLease)
    requires CloseCall(w, x, r, kind, deadline).Some?
    ensures var w' := CloseCall(w, x, r, kind, deadline).value;
            Lifecycle(w'.resources) && Monotone(w.resources, w'.resources)
  {
    var w1 := if w.resources[r].creator == x.task && w.resources[r].initial.Some?
              then Release(w, w.resources[r].initial.value) else w;
    if w1 != w { ReleaseLedger(w, w.resources[r].initial.value); }
    LeaseOnlyLife(w.resources, w1.resources);
    var res := CloseCall(w, x, r, kind, deadline).value.resources[r];
    assert ResourceOk(w1.resources[r]);
    ReplaceLife(w1.resources, r, res);
    MonotoneTrans(w.resources, w1.resources, w1.resources[r := res]);
  }

  lemma {:induction false} CloseProgressLife(w: World, e: Event)
    requires Lifecycle(w.resources) && Next(w, e).Some?
    requires e.EDeadlineFires? || e.ECloseStarts? || e.ECloseEnds? || e.ETimerFires?
    ensures Lifecycle(Next(w, e).value.resources) && Monotone(w.resources, Next(w, e).value.resources)
  {
    var r := e.resource;
    assert ResourceOk(w.resources[r]);
    ReplaceLife(w.resources, r, Next(w, e).value.resources[r]);
  }

  lemma {:induction false} DrainVisitsLife(w: World, s: ScopeId)
    requires Lifecycle(w.resources) && DrainVisits(w, s).Some?
    ensures Lifecycle(DrainVisits(w, s).value.resources) && Monotone(w.resources, DrainVisits(w, s).value.resources)
  {
    var w' := DrainVisits(w, s).value;
    var next := w.scopes[s].drain.next;
    if next > 0 {
      assert ResourceOk(w.resources[next - 1]);
      if w'.resources != w.resources {
        ReplaceLife(w.resources, next - 1, w'.resources[next - 1]);
      }
    }
  }

  /** While a native close runs, and ever after, no lease is held and none is granted. */
  lemma {:induction false} NoLeaseAfterClose(w: World, r: ResourceId, x: Exec)
    requires Lifecycle(w.resources) && r < |w.resources|
    requires w.resources[r].closing == Running || w.resources[r].closing == Finished
    ensures w.resources[r].leases == map[] && !Acquirable(w, r, x)
  {
    assert ResourceOk(w.resources[r]);
  }
}
