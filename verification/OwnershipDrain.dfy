/** Scopes and their drains: when a scope starts closing its resources nothing inside it is
    open any more, and its drain reports the latest failure. */
module OwnershipDrain {
  import opened Wrappers
  import opened Ownership
  import opened OwnershipLeases
  import opened OwnershipLifecycle
  import opened OwnershipTasks

  // ---------------------------------------------------------------------- nesting ---

  ghost predicate Nesting(parents: seq<Option<ScopeId>>) {
    && |parents| > 0 && parents[0].None?
    && forall c | 0 < c < |parents| :: parents[c].Some? && parents[c].value < c
  }

  lemma {:induction false} InsideAppend(parents: seq<Option<ScopeId>>, p: Option<ScopeId>, a: ScopeId, b: ScopeId)
    requires a < |parents|
    ensures Inside(parents + [p], a, b) == Inside(parents, a, b)
    decreases a
  {
    if a != b && parents[a].Some? && parents[a].value < a {
      InsideAppend(parents, p, parents[a].value, b);
    }
  }

  lemma {:induction false} InsideTrans(parents: seq<Option<ScopeId>>, a: ScopeId, b: ScopeId, c: ScopeId)
    requires Inside(parents, a, b) && Inside(parents, b, c)
    ensures Inside(parents, a, c)
    decreases a
  {
    if a != b {
      InsideTrans(parents, parents[a].value, b, c);
    }
  }

  /** The child of s on the way down to c. */
  lemma {:induction false} ChildTowards(parents: seq<Option<ScopeId>>, c: ScopeId, s: ScopeId) returns (d: ScopeId)
    requires Inside(parents, c, s) && c != s
    ensures 0 <= d <= c && parents[d] == Some(s) && Inside(parents, c, d)
    decreases c
  {
    var p := parents[c].value;
    if p == s {
      d := c;
    } else {
      d := ChildTowards(parents, p, s);
    }
  }

  // ------------------------------------------------------------------------ scopes ---

  predicate ClosingBegun(scope: Scope) {
    scope.drain.Visiting? || scope.drain.Awaiting? || scope.drain.Drained?
  }

  ghost predicate ScopeOk(scope: Scope, s: ScopeId) {
    && (scope.drain == Body ==> scope.state == Open)
    && (scope.drain == Quiescing ==> scope.state == if s == 0 then Open else Closing)
    && (ClosingBegun(scope) ==> scope.state != Open)
    && (scope.state == Closed ==> scope.drain.Drained?)
  }

  /** A scope that is not closed is awaited by work that still runs. */
  ghost predicate HostAlive(parents: seq<Option<ScopeId>>, scopes: seq<Scope>, tasks: seq<Task>, c: ScopeId)
    requires c < |scopes|
  {
    match scopes[c].host
    case None => c < |parents| && parents[c].Some? && parents[c].value < |scopes| && scopes[parents[c].value].drain == Body
    case Some(t) => t < |tasks| && !tasks[t].done && c < |parents| && parents[c] == Some(tasks[t].scope)
  }

  /** Below a scope whose closing phase has begun everything is closed. */
  ghost predicate Sealed(parents: seq<Option<ScopeId>>, scopes: seq<Scope>, s: ScopeId)
    requires s < |scopes|
  {
    ClosingBegun(scopes[s]) ==>
      forall c | 0 <= c < |scopes| && c != s && Inside(parents, c, s) :: scopes[c].state == Closed
  }

  ghost predicate Tree(parents: seq<Option<ScopeId>>, scopes: seq<Scope>, tasks: seq<Task>) {
    && Nesting(parents) && |parents| == |scopes|
    && (forall s | 0 <= s < |scopes| :: ScopeOk(scopes[s], s) && Sealed(parents, scopes, s))
    && (forall c | 0 < c < |scopes| && scopes[c].state != Closed :: HostAlive(parents, scopes, tasks, c))
  }

  ghost predicate Homes(scopes: seq<Scope>, rs: seq<Resource>) {
    forall r | 0 <= r < |rs| :: rs[r].scope < |scopes|
  }

  /** Replacing one scope's record, keeping what the tree depends on. */
  lemma {:induction false} TreeUpdate(parents: seq<Option<ScopeId>>, scopes: seq<Scope>, tasks: seq<Task>, s: ScopeId, scope: Scope)
    requires Tree(parents, scopes, tasks) && s < |scopes|
    requires ScopeOk(scope, s) && scope.host == scopes[s].host
    requires scopes[s].state == Closed ==> scope.state == Closed
    requires scope.drain == scopes[s].drain || forall c | 0 < c < |scopes| && scopes[c].state != Closed && c != s :: scopes[c].host.Some? || parents[c] != Some(s)
    requires ClosingBegun(scope) ==> forall c | 0 <= c < |scopes| && c != s && Inside(parents, c, s) :: scopes[c].state == Closed
    ensures Tree(parents, scopes[s := scope], tasks)
  {
    var scopes' := scopes[s := scope];
    forall u | 0 <= u < |scopes'| ensures ScopeOk(scopes'[u], u) && Sealed(parents, scopes', u) {
      assert ScopeOk(scopes[u], u) && Sealed(parents, scopes, u);
    }
    forall c | 0 < c < |scopes'| && scopes'[c].state != Closed ensures HostAlive(parents, scopes', tasks, c) {
      assert HostAlive(parents, scopes, tasks, c);
    }
  }

  /** Tasks may be added, or finish once they host no open scope. */
  lemma {:induction false} TreeTasks(parents: seq<Option<ScopeId>>, scopes: seq<Scope>, tasks: seq<Task>, tasks': seq<Task>)
    requires Tree(parents, scopes, tasks) && |tasks| <= |tasks'|
    requires forall t | 0 <= t < |tasks| :: tasks'[t].scope == tasks[t].scope
    requires forall t | 0 <= t < |tasks| && tasks'[t].done && !tasks[t].done ::
               forall c | 0 <= c < |scopes| :: scopes[c].host == Some(t) ==> scopes[c].state == Closed
    ensures Tree(parents, scopes, tasks')
  {
    forall c | 0 < c < |scopes| && scopes[c].state != Closed ensures HostAlive(parents, scopes, tasks', c) {
      assert HostAlive(parents, scopes, tasks, c);
    }
  }

  lemma {:induction false} TreeOpen(w: World, x: Exec)
    requires Tree(w.parents, w.scopes, w.tasks) && OpenScope(w, x).Some?
    ensures var w' := OpenScope(w, x).value; Tree(w'.parents, w'.scopes, w'.tasks)
  {
    var w' := OpenScope(w, x).value;
    var n := |w.scopes|;
    assert ScopeOk(w.scopes[x.scope], x.scope);
    forall s | 0 <= s < |w'.scopes| ensures ScopeOk(w'.scopes[s], s) && Sealed(w'.parents, w'.scopes, s) {
      if s < n {
        assert ScopeOk(w.scopes[s], s) && Sealed(w.parents, w.scopes, s);
        forall c | 0 <= c < |w'.scopes| && c != s && ClosingBegun(w.scopes[s]) && Inside(w'.parents, c, s)
          ensures w'.scopes[c].state == Closed
        {
          if c < n {
            InsideAppend(w.parents, Some(x.scope), c, s);
          } else {
            InsideAppend(w.parents, Some(x.scope), x.scope, s);
          }
        }
      }
    }
    forall c | 0 < c < |w'.scopes| && w'.scopes[c].state != Closed ensures HostAlive(w'.parents, w'.scopes, w'.tasks, c) {
      if c < n { assert HostAlive(w.parents, w.scopes, w.tasks, c); }
    }
  }

  /** When a draining scope is quiet, everything below it is closed. */
  lemma {:induction false} QuietSeals(w: World, s: ScopeId)
    requires Tree(w.parents, w.scopes, w.tasks) && WorkTable(w.tasks, w.batches, w.callbacks)
    requires s < |w.scopes| && w.scopes[s].drain == Quiescing && Quiet(w, s)
    ensures forall c | 0 <= c < |w.scopes| && c != s && Inside(w.parents, c, s) :: w.scopes[c].state == Closed
  {
    forall c | 0 <= c < |w.scopes| && c != s && Inside(w.parents, c, s) ensures w.scopes[c].state == Closed {
      var d := ChildTowards(w.parents, c, s);
      QuietChild(w, s, d);
      if c != d {
        assert ScopeOk(w.scopes[d], d) && Sealed(w.parents, w.scopes, d);
      }
    }
  }

  lemma {:induction false} QuietChild(w: World, s: ScopeId, d: ScopeId)
    requires Tree(w.parents, w.scopes, w.tasks) && WorkTable(w.tasks, w.batches, w.callbacks)
    requires s < |w.scopes| && w.scopes[s].drain == Quiescing && Quiet(w, s)
    requires d < |w.parents| && w.parents[d] == Some(s)
    ensures w.scopes[d].state == Closed
  {
    if w.scopes[d].state != Closed {
      assert HostAlive(w.parents, w.scopes, w.tasks, d);
      assert Inside(w.parents, s, s);
      RunningIsHeld(w, w.scopes[d].host.value);
      assert false;
    }
  }

  // ------------------------------------------------------------------------ drains ---

  /** `out` is the cleanup of the latest resource in scope, from n on, that has one. */
  ghost predicate IsLatest(parents: seq<Option<ScopeId>>, s: ScopeId, rs: seq<Resource>, n: nat, out: Option<FailureId>) {
    match out
    case None => forall r | n <= r < |rs| && Inside(parents, rs[r].scope, s) :: rs[r].cleanup.None?
    case Some(f) => exists r | n <= r < |rs| && Inside(parents, rs[r].scope, s) ::
                      rs[r].cleanup == Some(f) && NoneAfter(parents, s, rs, r + 1)
  }

  ghost predicate NoneAfter(parents: seq<Option<ScopeId>>, s: ScopeId, rs: seq<Resource>, n: nat) {
    forall r | n <= r < |rs| && Inside(parents, rs[r].scope, s) :: rs[r].cleanup.None?
  }

  ghost predicate Visited(parents: seq<Option<ScopeId>>, s: ScopeId, rs: seq<Resource>, n: nat, out: Option<FailureId>) {
    && (forall r | n <= r < |rs| && Inside(parents, rs[r].scope, s) :: rs[r].closing == Finished)
    && IsLatest(parents, s, rs, n, out)
  }

  ghost predicate DrainOk(parents: seq<Option<ScopeId>>, s: ScopeId, d: Drain, rs: seq<Resource>) {
    match d
    case Visiting(n, first) => n <= |rs| && Visited(parents, s, rs, n, first)
    case Awaiting(n, first) =>
      0 < n <= |rs| && Inside(parents, rs[n - 1].scope, s) && rs[n - 1].closing != Unstarted && Visited(parents, s, rs, n, first)
    case Drained(first) => Visited(parents, s, rs, 0, first)
    case _ => true
  }

  ghost predicate Drains(parents: seq<Option<ScopeId>>, scopes: seq<Scope>, rs: seq<Resource>) {
    forall s | 0 <= s < |scopes| :: DrainOk(parents, s, scopes[s].drain, rs)
  }

  lemma {:induction false} VisitedKept(parents: seq<Option<ScopeId>>, s: ScopeId, rs: seq<Resource>, rs': seq<Resource>, n: nat, out: Option<FailureId>)
    requires Visited(parents, s, rs, n, out) && Monotone(rs, rs') && |rs'| == |rs|
    ensures Visited(parents, s, rs', n, out)
  {
    forall r | n <= r < |rs| && Inside(parents, rs[r].scope, s)
      ensures rs'[r].scope == rs[r].scope && rs'[r].closing == Finished && rs'[r].cleanup == rs[r].cleanup
    {
      assert Advance(rs[r], rs'[r]);
    }
    assert forall r | 0 <= r < |rs| :: Advance(rs[r], rs'[r]) && rs'[r].scope == rs[r].scope;
    if out.Some? {
      var r :| n <= r < |rs| && Inside(parents, rs[r].scope, s) && rs[r].cleanup == out && NoneAfter(parents, s, rs, r + 1);
      assert NoneAfter(parents, s, rs', r + 1);
    }
  }

  lemma {:induction false} DrainsKept(parents: seq<Option<ScopeId>>, scopes: seq<Scope>, rs: seq<Resource>, rs': seq<Resource>)
    requires Drains(parents, scopes, rs) && Monotone(rs, rs') && |rs'| == |rs|
    ensures Drains(parents, scopes, rs')
  {
    forall s | 0 <= s < |scopes| ensures DrainOk(parents, s, scopes[s].drain, rs') {
      assert DrainOk(parents, s, scopes[s].drain, rs);
      match scopes[s].drain {
        case Visiting(n, first) => VisitedKept(parents, s, rs, rs', n, first);
        case Awaiting(n, first) =>
          VisitedKept(parents, s, rs, rs', n, first);
          assert Advance(rs[n - 1], rs'[n - 1]);
        case Drained(first) => VisitedKept(parents, s, rs, rs', 0, first);
        case _ =>
      }
    }
  }

  /** A registration comes from an open scope, so no closing scope contains it. */
  lemma {:induction false} DrainsAppend(parents: seq<Option<ScopeId>>, scopes: seq<Scope>, tasks: seq<Task>, rs: seq<Resource>, res: Resource)
    requires Drains(parents, scopes, rs) && Tree(parents, scopes, tasks)
    requires res.scope < |scopes| && scopes[res.scope].state == Open
    ensures Drains(parents, scopes, rs + [res])
  {
    forall s | 0 <= s < |scopes| ensures DrainOk(parents, s, scopes[s].drain, rs + [res]) {
      assert DrainOk(parents, s, scopes[s].drain, rs);
      if ClosingBegun(scopes[s]) {
        assert ScopeOk(scopes[s], s) && Sealed(parents, scopes, s);
        assert !Inside(parents, res.scope, s);
        match scopes[s].drain {
          case Visiting(n, first) => VisitedAppend(parents, s, rs, res, n, first);
          case Awaiting(n, first) => VisitedAppend(parents, s, rs, res, n, first);
          case Drained(first) => VisitedAppend(parents, s, rs, res, 0, first);
        }
      }
    }
  }

  lemma {:induction false} VisitedAppend(parents: seq<Option<ScopeId>>, s: ScopeId, rs: seq<Resource>, res: Resource, n: nat, out: Option<FailureId>)
    requires Visited(parents, s, rs, n, out) && !Inside(parents, res.scope, s)
    ensures Visited(parents, s, rs + [res], n, out)
  {
    var rs' := rs + [res];
    assert forall r | 0 <= r < |rs| :: rs'[r] == rs[r];
    if out.Some? {
      var r :| n <= r < |rs| && Inside(parents, rs[r].scope, s) && rs[r].cleanup == out && NoneAfter(parents, s, rs, r + 1);
      assert NoneAfter(parents, s, rs', r + 1);
      assert rs'[r].cleanup == out;
    }
  }

  /** Moving one scope's drain to a state that holds. */
  lemma {:induction false} DrainsUpdate(parents: seq<Option<ScopeId>>, scopes: seq<Scope>, rs: seq<Resource>, s: ScopeId, scope: Scope)
    requires Drains(parents, scopes, rs) && s < |scopes| && DrainOk(parents, s, scope.drain, rs)
    ensures Drains(parents, scopes[s := scope], rs)
  {
  }

  lemma {:induction false} DrainsOpen(parents: seq<Option<ScopeId>>, p: Option<ScopeId>, scopes: seq<Scope>, rs: seq<Resource>, scope: Scope)
    requires Drains(parents, scopes, rs) && Homes(scopes, rs) && |parents| == |scopes| && scope.drain == Body
    ensures Drains(parents + [p], scopes + [scope], rs)
  {
    forall r, s | 0 <= r < |rs| ensures Inside(parents + [p], rs[r].scope, s) == Inside(parents, rs[r].scope, s) {
      InsideAppend(parents, p, rs[r].scope, s);
    }
    forall s | 0 <= s < |scopes| ensures DrainOk(parents + [p], s, scopes[s].drain, rs) {
      assert DrainOk(parents, s, scopes[s].drain, rs);
      match scopes[s].drain {
        case Visiting(n, first) => SameInside(parents, parents + [p], s, rs, n, first);
        case Awaiting(n, first) => SameInside(parents, parents + [p], s, rs, n, first);
        case Drained(first) => SameInside(parents, parents + [p], s, rs, 0, first);
        case _ =>
      }
    }
  }

  lemma {:induction false} SameInside(parents: seq<Option<ScopeId>>, parents': seq<Option<ScopeId>>, s: ScopeId, rs: seq<Resource>, n: nat, out: Option<FailureId>)
    requires Visited(parents, s, rs, n, out)
    requires forall r | 0 <= r < |rs| :: Inside(parents', rs[r].scope, s) == Inside(parents, rs[r].scope, s)
    ensures Visited(parents', s, rs, n, out)
  {
    if out.Some? {
      var r :| n <= r < |rs| && Inside(parents, rs[r].scope, s) && rs[r].cleanup == out && NoneAfter(parents, s, rs, r + 1);
      assert NoneAfter(parents', s, rs, r + 1);
    }
  }

  /** The visit passes a resource that is not inside, or has settled. */
  lemma {:induction false} VisitedStep(parents: seq<Option<ScopeId>>, s: ScopeId, rs: seq<Resource>, n: nat, first: Option<FailureId>)
    requires 0 < n <= |rs| && Visited(parents, s, rs, n, first)
    requires Inside(parents, rs[n - 1].scope, s) ==> rs[n - 1].closing == Finished
    ensures Visited(parents, s, rs, n - 1,
              if Inside(parents, rs[n - 1].scope, s) then First(first, rs[n - 1].cleanup) else first)
  {
    var inside := Inside(parents, rs[n - 1].scope, s);
    var out := if inside then First(first, rs[n - 1].cleanup) else first;
    if first.Some? {
      var r :| n <= r < |rs| && Inside(parents, rs[r].scope, s) && rs[r].cleanup == first && NoneAfter(parents, s, rs, r + 1);
    } else if inside && rs[n - 1].cleanup.Some? {
      assert NoneAfter(parents, s, rs, n);
    }
  }

  lemma {:induction false} DrainVisitsOk(w: World, s: ScopeId)
    requires Drains(w.parents, w.scopes, w.resources) && Lifecycle(w.resources) && DrainVisits(w, s).Some?
    ensures var w' := DrainVisits(w, s).value; Drains(w'.parents, w'.scopes, w'.resources)
  {
    var w' := DrainVisits(w, s).value;
    var d := w.scopes[s].drain;
    DrainVisitsLife(w, s);
    DrainsKept(w.parents, w.scopes, w.resources, w'.resources);
    assert DrainOk(w.parents, s, d, w'.resources);
    if d.next > 0 {
      assert ResourceOk(w.resources[d.next - 1]);
      if !Inside(w.parents, w.resources[d.next - 1].scope, s) {
        VisitedStep(w.parents, s, w.resources, d.next, d.first);
      }
    }
    DrainsUpdate(w.parents, w.scopes, w'.resources, s, w'.scopes[s]);
  }

  lemma {:induction false} DrainResumesOk(w: World, s: ScopeId)
    requires Drains(w.parents, w.scopes, w.resources) && DrainResumes(w, s).Some?
    ensures var w' := DrainResumes(w, s).value; Drains(w'.parents, w'.scopes, w'.resources)
  {
    var d := w.scopes[s].drain;
    assert DrainOk(w.parents, s, d, w.resources);
    VisitedStep(w.parents, s, w.resources, d.next, d.first);
    DrainsUpdate(w.parents, w.scopes, w.resources, s, DrainResumes(w, s).value.scopes[s]);
  }
}
