/** Which calls are granted, exactly, and what a granted one gives. */
module OwnershipCalls {
  import opened Wrappers
  import G = Groups
  import opened Ownership
  import opened OwnershipLeases
  import opened OwnershipLifecycle
  import opened OwnershipTasks
  import opened OwnershipDrain
  import opened OwnershipRuns

  /** A release that was handed out to the owner for the resource is outstanding. */
  ghost predicate HoldsOne(w: World, r: ResourceId, o: Owner) {
    exists id :: id in w.leases && w.leases[id].resource == r && w.leases[id].owner == o
  }

  /** An execution inside the scope of a resource gets a lease if resource and scope are open; while
      either is closing, exactly if its owner has an outstanding lease on it; and none once either
      is closed. */
  lemma {:induction false} WhoAcquires(w: World, r: ResourceId, x: Exec)
    requires Ledger(w.resources, w.leases, w.nextLease) && Usable(w, x) && r < |w.resources| && w.resources[r].scope < |w.scopes|
    requires Inside(w.parents, x.scope, w.resources[r].scope)
    ensures var res, s := w.resources[r], w.scopes[w.resources[r].scope];
            Acquirable(w, r, x)
            <==> ((res.state == Open && s.state == Open) || (res.state != Closed && s.state != Closed && HoldsOne(w, r, OwnerOf(w, x))))
  {
    var o := OwnerOf(w, x);
    HeldExactly(w, r, o);
    assert Outstanding(w.leases, r, o) != {} <==> HoldsOne(w, r, o) by {
      if id :| id in Outstanding(w.leases, r, o) { assert id in w.leases; }
      if HoldsOne(w, r, o) {
        var id :| id in w.leases && w.leases[id].resource == r && w.leases[id].owner == o;
        assert id in Outstanding(w.leases, r, o);
      }
    }
    hide Ledger;
  }

  /** Granting a lease to an owner that may have it changes nobody else's chances, and not its own. */
  lemma {:induction false} GrantKeepsChances(w: World, r: ResourceId, x: Exec, holder: Holder, q: ResourceId)
    requires Acquirable(w, r, x)
    ensures Acquirable(Grant(w, r, OwnerOf(w, x), holder), q, x) <==> Acquirable(w, q, x)
    ensures OwnerOf(Grant(w, r, OwnerOf(w, x), holder), x) == OwnerOf(w, x)
  {
  }

  /** All captures are retained exactly if each of them could be. */
  lemma {:induction false} RetainAdmitted(w: World, captured: seq<ResourceId>, x: Exec, holder: Holder)
    ensures Retain(w, captured, x, holder).Some? <==> forall r | r in captured :: Acquirable(w, r, x)
    ensures Retain(w, captured, x, holder).Some? ==> forall q :: Acquirable(Retain(w, captured, x, holder).value, q, x) <==> Acquirable(w, q, x)
    decreases |captured|
  {
    if captured != [] && Acquirable(w, captured[0], x) {
      var m := Grant(w, captured[0], OwnerOf(w, x), holder);
      forall q ensures Acquirable(m, q, x) <==> Acquirable(w, q, x) { GrantKeepsChances(w, captured[0], x, holder, q); }
      RetainAdmitted(m, captured[1..], x, holder);
      hide Acquirable, Grant;
      assert forall r :: r in captured <==> r == captured[0] || r in captured[1..];
    }
  }

  lemma {:induction false} RetainEachAdmitted(w: World, captures: seq<seq<ResourceId>>, x: Exec, task: TaskId)
    ensures RetainEach(w, captures, x, task).Some? <==> forall i, r | 0 <= i < |captures| && r in captures[i] :: Acquirable(w, r, x)
    decreases |captures|
  {
    if captures != [] {
      RetainAdmitted(w, captures[0], x, Participant(task));
      hide Acquirable, Retain;
      if Retain(w, captures[0], x, Participant(task)).Some? {
        var m := Retain(w, captures[0], x, Participant(task)).value;
        RetainEachAdmitted(m, captures[1..], x, task + 1);
        assert forall i | 0 <= i < |captures[1..]| :: captures[1..][i] == captures[i + 1];
      }
    }
  }

  /** A launch is granted exactly in an open scope, or natively from a task that still runs, when
      every capture of every participant can be leased under the launch's key. */
  lemma {:induction false} LaunchAdmitted(w: World, x: Exec, captures: seq<seq<ResourceId>>, native_: bool)
    ensures var child := x.(owner := Some(if native_ && x.owner.Some? then x.owner.value else w.nextOwner));
            Launch(w, x, captures, native_).Some?
            <==> (&& Usable(w, x)
                  && (w.scopes[x.scope].state == Open || (native_ && x.task.Some? && !w.tasks[x.task.value].done))
                  && forall i, r | 0 <= i < |captures| && r in captures[i] :: Acquirable(w, r, child))
  {
    var child := x.(owner := Some(LaunchKey(w, x, native_)));
    var bumped := w.(nextOwner := w.nextOwner + 1);
    RetainEachAdmitted(bumped, captures, child, |w.tasks|);
    assert forall r :: Acquirable(bumped, r, child) <==> Acquirable(w, r, child);
    hide RetainEach;
  }

  // --------------------------------------------------------------------------- launching ---

  /** The leases of one participant, in the order of its captures. */
  ghost predicate Leased(leases: map<LeaseId, Lease>, from: LeaseId, captured: seq<ResourceId>, o: Owner, holder: Holder) {
    forall j | 0 <= j < |captured| :: LeasedAt(leases, from, captured, o, holder, j)
  }

  predicate LeasedAt(leases: map<LeaseId, Lease>, from: LeaseId, captured: seq<ResourceId>, o: Owner, holder: Holder, j: nat) {
    j < |captured| && from + j in leases && leases[from + j] == Lease(captured[j], o, holder)
  }

  lemma {:induction false} LeasedStays(a: map<LeaseId, Lease>, b: map<LeaseId, Lease>, from: LeaseId, captured: seq<ResourceId>, o: Owner, holder: Holder)
    requires Leased(a, from, captured, o, holder) && forall id | from <= id < from + |captured| && id in a :: id in b && b[id] == a[id]
    ensures Leased(b, from, captured, o, holder)
  {
    forall j | 0 <= j < |captured| ensures LeasedAt(b, from, captured, o, holder, j) {
      assert LeasedAt(a, from, captured, o, holder, j);
    }
  }

  lemma {:induction false} RetainLeases(w: World, captured: seq<ResourceId>, x: Exec, holder: Holder)
    requires Retain(w, captured, x, holder).Some? && x.owner.Some?
    ensures var m := Retain(w, captured, x, holder).value;
            && m.nextLease == w.nextLease + |captured|
            && Leased(m.leases, w.nextLease, captured, x.owner.value, holder)
            && (forall id | id in w.leases && id < w.nextLease :: id in m.leases && m.leases[id] == w.leases[id])
    decreases |captured|
  {
    if captured != [] {
      var m := Grant(w, captured[0], OwnerOf(w, x), holder);
      RetainLeases(m, captured[1..], x, holder);
      var n := Retain(m, captured[1..], x, holder).value;
      forall j | 0 <= j < |captured| ensures LeasedAt(n.leases, w.nextLease, captured, x.owner.value, holder, j) {
        if j > 0 { assert LeasedAt(n.leases, m.nextLease, captured[1..], x.owner.value, holder, j - 1); }
      }
    }
  }

  /** Every participant's leases, one participant after the other. */
  ghost predicate EachLeased(leases: map<LeaseId, Lease>, from: LeaseId, captures: seq<seq<ResourceId>>, o: Owner, task: TaskId) {
    forall i | 0 <= i < |captures| :: Leased(leases, from + Before(captures, i), captures[i], o, Participant(task + i))
  }

  lemma {:induction false} EachCons(a: map<LeaseId, Lease>, b: map<LeaseId, Lease>, from: LeaseId, captures: seq<seq<ResourceId>>, o: Owner, task: TaskId)
    requires captures != [] && Leased(a, from, captures[0], o, Participant(task)) && (forall id | id in a && id < from + |captures[0]| :: id in b && b[id] == a[id])
    requires EachLeased(b, from + |captures[0]|, captures[1..], o, task + 1)
    ensures EachLeased(b, from, captures, o, task)
  {
    LeasedStays(a, b, from, captures[0], o, Participant(task));
    hide Leased;
    forall i | 0 <= i < |captures| ensures Leased(b, from + Before(captures, i), captures[i], o, Participant(task + i)) {
      if i > 0 {
        BeforeTail(captures, i);
        assert captures[1..][i - 1] == captures[i];
      } else {
        assert Before(captures, 0) == 0;
      }
    }
  }

  lemma {:induction false} RetainEachLeases(w: World, captures: seq<seq<ResourceId>>, x: Exec, task: TaskId)
    requires RetainEach(w, captures, x, task).Some? && x.owner.Some?
    ensures var m := RetainEach(w, captures, x, task).value;
            && m.nextLease == w.nextLease + Before(captures, |captures|)
            && EachLeased(m.leases, w.nextLease, captures, x.owner.value, task)
            && (forall id | id in w.leases && id < w.nextLease :: id in m.leases && m.leases[id] == w.leases[id])
    decreases |captures|
  {
    if captures != [] {
      var m := Retain(w, captures[0], x, Participant(task)).value;
      RetainLeases(w, captures[0], x, Participant(task));
      RetainEachLeases(m, captures[1..], x, task + 1);
      var n := RetainEach(m, captures[1..], x, task + 1).value;
      BeforeTail(captures, |captures|);
      hide Retain, RetainEach, Leased, EachLeased;
      EachCons(m.leases, n.leases, w.nextLease, captures, x.owner.value, task);
    }
  }

  /** The tasks and the group of a launch. */
  ghost predicate Started(w: World, w': World, x: Exec, captures: seq<seq<ResourceId>>) {
    && |w'.tasks| == |w.tasks| + |captures| && w'.tasks[..|w.tasks|] == w.tasks
    && (forall i | 0 <= i < |captures| ::
          var t := w'.tasks[|w.tasks| + i];
          t.scope == x.scope && !t.done && t.dynamic == [] && t.retained == Range(w.nextLease + Before(captures, i), |captures[i]|))
    && |w'.batches| == |w.batches| + 1 && w'.batches[..|w.batches|] == w.batches
    && w'.batches[|w.batches|].group.live && w'.batches[|w.batches|].group.pending == |captures|
  }

  lemma {:induction false} StartedBy(w: World, w': World, x: Exec, captures: seq<seq<ResourceId>>)
    requires w'.tasks == w.tasks + Participants(x.scope, |w.batches|, captures, w.nextLease)
    requires w'.batches == w.batches + [Batch(x.scope, G.Launch(|captures|), Range(|w.tasks|, |captures|))]
    ensures Started(w, w', x, captures)
  {
    hide Before, Range;
    var added := Participants(x.scope, |w.batches|, captures, w.nextLease);
    forall i | 0 <= i < |captures| ensures w'.tasks[|w.tasks| + i] == added[i] {}
  }

  /** A granted launch leases every capture to its own participant under one key, and starts a
      group whose tasks run in the caller's scope. */
  lemma {:induction false} LaunchGives(w: World, x: Exec, captures: seq<seq<ResourceId>>, native_: bool)
    requires Launch(w, x, captures, native_).Some?
    ensures var w' := Launch(w, x, captures, native_).value;
            var key := if native_ && x.owner.Some? then x.owner.value else w.nextOwner;
            && EachLeased(w'.leases, w.nextLease, captures, key, |w.tasks|)
            && Started(w, w', x, captures) && w'.scopes == w.scopes && w'.nextOwner == w.nextOwner + 1
  {
    var child, bumped := x.(owner := Some(LaunchKey(w, x, native_))), w.(nextOwner := w.nextOwner + 1);
    var w1 := LaunchIs(w, x, captures, native_);
    RetainEachLeases(bumped, captures, child, |w.tasks|);
    RetainEachSame(bumped, captures, child, |w.tasks|);
    hide RetainEach, Before, Range, Launch, EachLeased, Participants, Started, G.Launch;
    StartedBy(w, Launch(w, x, captures, native_).value, x, captures);
  }

  lemma {:induction false} LaunchIs(w: World, x: Exec, captures: seq<seq<ResourceId>>, native_: bool) returns (w1: World)
    requires Launch(w, x, captures, native_).Some?
    ensures RetainEach(w.(nextOwner := w.nextOwner + 1), captures, x.(owner := Some(LaunchKey(w, x, native_))), |w.tasks|) == Some(w1)
    ensures Launch(w, x, captures, native_).value
         == w1.(batches := w1.batches + [Batch(x.scope, G.Launch(|captures|), Range(|w.tasks|, |captures|))],
                tasks := w1.tasks + Participants(x.scope, |w.batches|, captures, w.nextLease))
  {
    w1 := RetainEach(w.(nextOwner := w.nextOwner + 1), captures, x.(owner := Some(LaunchKey(w, x, native_))), |w.tasks|).value;
    hide RetainEach, Range, Participants;
  }

  lemma {:induction false} RetainSame(w: World, captured: seq<ResourceId>, x: Exec, holder: Holder)
    requires Retain(w, captured, x, holder).Some?
    ensures var m := Retain(w, captured, x, holder).value; m == w.(resources := m.resources, leases := m.leases, nextLease := m.nextLease)
    decreases |captured|
  {
    if captured != [] {
      RetainSame(Grant(w, captured[0], OwnerOf(w, x), holder), captured[1..], x, holder);
    }
  }

  lemma {:induction false} RetainEachSame(w: World, captures: seq<seq<ResourceId>>, x: Exec, task: TaskId)
    requires RetainEach(w, captures, x, task).Some?
    ensures var m := RetainEach(w, captures, x, task).value; m == w.(resources := m.resources, leases := m.leases, nextLease := m.nextLease)
    decreases |captures|
  {
    if captures != [] {
      RetainSame(w, captures[0], x, Participant(task));
      RetainEachSame(Retain(w, captures[0], x, Participant(task)).value, captures[1..], x, task + 1);
      hide Retain;
    }
  }

  // ------------------------------------------------------------------- callbacks and scopes ---

  /** Work of the guard's scope, or of one inside it, that still runs. */
  ghost predicate RunsWithin(w: World, guard: ScopeId, x: Exec) {
    && x.scope < |w.scopes| && Inside(w.parents, x.scope, guard)
    && x.task.Some? && x.task.value < |w.tasks| && !w.tasks[x.task.value].done
  }

  /** A guarded callback is let in while its scope is open, and while it is closing only from work
      inside it that still runs; it runs where that work runs, or else in its own scope. */
  lemma {:induction false} CallbackMeans(w: World, guard: ScopeId, from: Option<Exec>)
    requires guard < |w.scopes|
    ensures var inside := from.Some? && RunsWithin(w, guard, from.value);
            && (CallbackStarts(w, guard, from).Some? <==> w.scopes[guard].state == Open || (w.scopes[guard].state == Closing && inside))
            && (CallbackStarts(w, guard, from).Some? ==>
                  var w', t := CallbackStarts(w, guard, from).value, |w.tasks|;
                  && |w'.tasks| == t + 1 && w'.tasks[..t] == w.tasks && !w'.tasks[t].done
                  && w'.tasks[t].scope == (if inside then from.value.scope else guard)
                  && w'.callbacks == w.callbacks + {t} && w'.leases == w.leases && w'.scopes == w.scopes && w'.resources == w.resources)
  {
  }

  /** A child scope is opened only in an open scope whose work can await it, directly below it. */
  lemma {:induction false} OpenScopeMeans(w: World, x: Exec)
    requires Usable(w, x) && |w.parents| == |w.scopes|
    ensures OpenScope(w, x).Some? <==> w.scopes[x.scope].state == Open && HostRuns(w, x)
    ensures OpenScope(w, x).Some? ==>
              var w', c := OpenScope(w, x).value, |w.scopes|;
              && |w'.scopes| == c + 1 && w'.scopes[..c] == w.scopes && w'.parents == w.parents + [Some(x.scope)]
              && w'.scopes[c].state == Open && w'.scopes[c].drain == Body && w'.scopes[c].exits == []
              && w'.leases == w.leases && w'.resources == w.resources && w'.tasks == w.tasks
  {
  }

  /** A turn of a drain arms a timer on exactly the limited resources inside that have none, are not
      closed and have not failed, and starts the closing phase exactly when no group and no callback
      inside is left. */
  lemma {:induction false} TurnMeans(w: World, s: ScopeId)
    requires DrainTurns(w, s).Some?
    ensures s < |w.scopes| && |DrainTurns(w, s).value.resources| == |w.resources| && |DrainTurns(w, s).value.scopes| == |w.scopes|
    ensures var w' := DrainTurns(w, s).value;
            && (forall r | 0 <= r < |w.resources| ::
                  var res := w.resources[r];
                  var arms := Inside(w.parents, res.scope, s) && res.state != Closed && res.limited && !res.timer && res.cleanup.None?;
                  w'.resources[r] == res.(timer := res.timer || arms))
            && (w'.scopes[s].drain.Visiting? <==>
                  && (forall b | 0 <= b < |w.batches| && Inside(w.parents, w.batches[b].scope, s) :: !w.batches[b].group.live)
                  && (forall t | t in w.callbacks && t < |w.tasks| :: !Inside(w.parents, w.tasks[t].scope, s)))
            && (w'.scopes[s].drain.Visiting? ==> w'.scopes[s].state == Closing && w'.scopes[s].drain == Visiting(|w.resources|, None))
            && (!w'.scopes[s].drain.Visiting? ==> w'.scopes[s] == w.scopes[s])
            && (forall c | 0 <= c < |w.scopes| && c != s :: w'.scopes[c] == w.scopes[c])
            && w'.leases == w.leases && w'.tasks == w.tasks
  {
    hide Inside;
  }
}
