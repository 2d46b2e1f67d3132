/** The root of the ownership runtime as it is kept in memory: its operations update their
    fields in place, and each is proved to do what the protocol says. */
module OwnershipRuntime {
  import opened Wrappers
  import G = Groups
  import opened Ownership
  import opened OwnershipLeases
  import opened OwnershipLifecycle
  import opened OwnershipTasks
  import opened OwnershipDrain
  import opened OwnershipRuns
  import opened OwnershipClosing
  import OwnershipExits

  /** The outstanding releases determine every lease count. */
  lemma {:induction false} LedgerDetermines(rs: seq<Resource>, rs': seq<Resource>, leases: map<LeaseId, Lease>, n: LeaseId, n': LeaseId)
    requires Ledger(rs, leases, n) && Ledger(rs', leases, n') && LeaseOnly(rs, rs')
    ensures rs == rs'
  {
    forall r | 0 <= r < |rs| ensures rs[r] == rs'[r] {
      forall o ensures Held(rs[r], o) == Held(rs'[r], o) && (o in rs[r].leases <==> Held(rs[r], o) > 0) && (o in rs'[r].leases <==> Held(rs'[r], o) > 0) {
        assert Held(rs[r], o) == |Outstanding(leases, r, o)|;
        assert Held(rs'[r], o) == |Outstanding(leases, r, o)|;
      }
      assert rs[r].leases == rs'[r].leases by {
        forall o ensures o in rs[r].leases <==> o in rs'[r].leases {
          assert Held(rs[r], o) == Held(rs'[r], o);
        }
        forall o | o in rs[r].leases ensures rs[r].leases[o] == rs'[r].leases[o] {
          assert Held(rs[r], o) == Held(rs'[r], o);
        }
      }
    }
  }

  lemma {:induction false} RetainPrefix(w: World, a: seq<ResourceId>, b: seq<ResourceId>, x: Exec, holder: Holder)
    ensures Retain(w, a + b, x, holder)
         == match Retain(w, a, x, holder) case None => None case Some(m) => Retain(m, b, x, holder)
    decreases |a|
  {
    if a == [] {
      assert a + b == b;
    } else {
      assert (a + b)[0] == a[0] && (a + b)[1..] == a[1..] + b;
      if Acquirable(w, a[0], x) {
        RetainPrefix(Grant(w, a[0], OwnerOf(w, x), holder), a[1..], b, x, holder);
      }
    }
  }

  lemma {:induction false} RetainEachPrefix(w: World, a: seq<seq<ResourceId>>, b: seq<seq<ResourceId>>, x: Exec, task: TaskId)
    ensures RetainEach(w, a + b, x, task)
         == match RetainEach(w, a, x, task) case None => None case Some(m) => RetainEach(m, b, x, task + |a|)
    decreases |a|
  {
    if a == [] {
      assert a + b == b;
    } else {
      assert (a + b)[0] == a[0] && (a + b)[1..] == a[1..] + b;
      if Retain(w, a[0], x, Participant(task)).Some? {
        RetainEachPrefix(Retain(w, a[0], x, Participant(task)).value, a[1..], b, x, task + 1);
      }
    }
  }

  /** Undoing grants puts every lease table back. */
  lemma {:induction false} Undone(w: World, w1: World, ids: seq<LeaseId>)
    requires Ledger(w.resources, w.leases, w.nextLease) && Ledger(w1.resources, w1.leases, w1.nextLease)
    requires LeaseOnly(w.resources, w1.resources) && w1 == w.(resources := w1.resources, leases := w1.leases, nextLease := w1.nextLease)
    requires w1.leases - Ids(ids) == w.leases
    ensures ReleaseAll(w1, ids) == w.(nextLease := w1.nextLease)
  {
    hide Ledger, LeaseOnly;
    ReleaseAllLedger(w1, ids);
    var back := ReleaseAll(w1, ids);
    LeaseOnlyTrans(w.resources, w1.resources, back.resources);
    LedgerDetermines(w.resources, back.resources, w.leases, w.nextLease, back.nextLease);
  }

  lemma {:induction false} InvParts(w: World)
    requires Inv(w)
    ensures Ledger(w.resources, w.leases, w.nextLease) && Lifecycle(w.resources) && |w.parents| == |w.scopes|
    ensures forall t | t in w.callbacks :: t < |w.tasks| && w.tasks[t].retained == []
    ensures forall b | 0 <= b < |w.batches| :: |w.batches[b].group.completions| == |w.batches[b].group.observed|
  {
    hide Ledger, Lifecycle, LeaseTable, InitialIds, Homes, Drains;
    forall t | t in w.callbacks ensures t < |w.tasks| && w.tasks[t].retained == [] {
      assert TaskPlaced(w.tasks[t], t, w.batches, w.callbacks);
    }
    forall b | 0 <= b < |w.batches| ensures |w.batches[b].group.completions| == |w.batches[b].group.observed| {
      assert BatchOk(w.batches[b], b, w.tasks);
    }
  }

  /** What an event that can happen refers to exists. */
  lemma {:induction false} EventParts(w: World, e: Event)
    requires Next(w, e).Some?
    ensures e.ECallbackSettles? ==> e.task in w.callbacks && e.task < |w.tasks|
  {
  }

  lemma {:induction false} BumpInv(w: World, lease: LeaseId, owner: Owner)
    requires Inv(w) && lease >= w.nextLease
    ensures Inv(w.(nextLease := lease, nextOwner := owner))
  {
    hide Lifecycle, WorkTable, Tree, Homes, Drains;
    forall t | 0 <= t < |w.tasks| ensures TaskLeases(w.tasks[t], t, w.leases, lease) {
      assert TaskLeases(w.tasks[t], t, w.leases, w.nextLease);
    }
    forall s, id | 0 <= s < |w.scopes| && id in w.scopes[s].exits ensures InitialOrGone(w.leases, lease, id) {
      assert InitialOrGone(w.leases, w.nextLease, id);
    }
    forall r | 0 <= r < |w.resources| && w.resources[r].initial.Some? ensures InitialOrGone(w.leases, lease, w.resources[r].initial.value) {
      assert InitialOrGone(w.leases, w.nextLease, w.resources[r].initial.value);
    }
  }

  lemma {:induction false} ReleaseAllAppend(w: World, a: seq<LeaseId>, b: seq<LeaseId>)
    ensures ReleaseAll(w, a + b) == ReleaseAll(ReleaseAll(w, a), b)
    decreases |a|
  {
    if a == [] {
      assert a + b == b;
    } else {
      assert (a + b)[0] == a[0] && (a + b)[1..] == a[1..] + b;
      ReleaseAllAppend(Release(w, a[0]), a[1..], b);
    }
  }

  /** Releasing does not look at the tasks. */
  lemma {:induction false} ReleaseAllTasks(w: World, tasks: seq<Task>, ids: seq<LeaseId>)
    ensures ReleaseAll(w.(tasks := tasks), ids) == ReleaseAll(w, ids).(tasks := tasks)
    ensures ReleaseAll(w, ids).tasks == w.tasks
    decreases |ids|
  {
    if ids != [] {
      ReleaseAllTasks(Release(w, ids[0]), tasks, ids[1..]);
    }
  }

  lemma {:induction false} FinishSplit(w: World, t: TaskId)
    requires t < |w.tasks|
    ensures FinishTask(w, t)
         == ReleaseAll(ReleaseAll(w, w.tasks[t].retained), w.tasks[t].dynamic)
            .(tasks := w.tasks[t := w.tasks[t].(dynamic := [], done := true)])
  {
    ReleaseAllAppend(w, w.tasks[t].retained, w.tasks[t].dynamic);
  }

  lemma {:induction false} ReleaseKeeps(w: World, id: LeaseId)
    requires Ledger(w.resources, w.leases, w.nextLease)
    ensures Release(w, id) == w.(resources := Release(w, id).resources, leases := Release(w, id).leases)
    ensures |Release(w, id).resources| == |w.resources|
  {
  }

  lemma {:induction false} CloseAdmitted(w: World, x: Exec, r: ResourceId, kind: string, deadline: bool)
    requires Ledger(w.resources, w.leases, w.nextLease)
    ensures CloseCall(w, x, r, kind, deadline).Some?
       <==> && Usable(w, x) && ScopeAdmits(w, r, x) && w.resources[r].kind == kind
            && (w.resources[r].state == Open || w.resources[r].idempotent)
    ensures CloseCall(w, x, r, kind, deadline).Some? ==>
      var w1 := if w.resources[r].creator == x.task && w.resources[r].initial.Some?
                then Release(w, w.resources[r].initial.value) else w;
      r < |w1.resources| && CloseCall(w, x, r, kind, deadline).value == ClosedBy(w1, r, deadline)
  {
    if Usable(w, x) && ScopeAdmits(w, r, x) && w.resources[r].initial.Some? {
      ReleaseKeeps(w, w.resources[r].initial.value);
    }
  }

  lemma {:induction false} InsideSelf(parents: seq<Option<ScopeId>>, s: ScopeId)
    requires s < |parents|
    ensures Inside(parents, s, s)
  {
  }

  lemma {:induction false} RetainEachNothing(w: World, captures: seq<seq<ResourceId>>, x: Exec, task: TaskId)
    ensures RetainEach(w, captures[..0], x, task) == Some(w)
  {
  }

  function Reversed(s: seq<LeaseId>): (r: seq<LeaseId>)
    ensures forall id :: id in r <==> id in s
  {
    if s == [] then [] else [s[|s| - 1]] + Reversed(s[..|s| - 1])
  }

  lemma {:induction false} RetainNext(w: World, captured: seq<ResourceId>, i: nat, x: Exec, holder: Holder)
    requires i < |captured| && Retain(w, captured[..i], x, holder).Some?
    ensures var m := Retain(w, captured[..i], x, holder).value;
            && (Acquirable(m, captured[i], x) ==>
                  Retain(w, captured[..i + 1], x, holder) == Some(Grant(m, captured[i], OwnerOf(m, x), holder)))
            && (!Acquirable(m, captured[i], x) ==> Retain(w, captured, x, holder) == None)
  {
    assert captured[..i + 1] == captured[..i] + [captured[i]];
    RetainPrefix(w, captured[..i], [captured[i]], x, holder);
    assert captured[..i] + captured[i..] == captured;
    RetainPrefix(w, captured[..i], captured[i..], x, holder);
  }

  lemma {:induction false} RetainEachNext(w: World, captures: seq<seq<ResourceId>>, i: nat, x: Exec, task: TaskId)
    requires i < |captures| && RetainEach(w, captures[..i], x, task).Some?
    ensures var m := RetainEach(w, captures[..i], x, task).value;
            var n := Retain(m, captures[i], x, Participant(task + i));
            && RetainEach(w, captures[..i + 1], x, task) == n
            && (n.None? ==> RetainEach(w, captures, x, task) == None)
  {
    assert captures[..i + 1] == captures[..i] + [captures[i]];
    RetainEachPrefix(w, captures[..i], [captures[i]], x, task);
    var one: seq<seq<ResourceId>> := [captures[i]];
    assert |one[1..]| == 0;
    assert captures[..i] + captures[i..] == captures;
    RetainEachPrefix(w, captures[..i], captures[i..], x, task);
  }

  lemma {:induction false} RangeIds(ids: seq<LeaseId>, from: LeaseId, to: LeaseId, count: nat)
    requires from <= to && forall id :: id in ids <==> from <= id < to
    ensures forall id :: id in ids + Range(to, count) <==> from <= id < to + count
  {
    forall id: nat | to <= id < to + count ensures id in Range(to, count) {
      assert Range(to, count)[id - to] == id;
    }
  }

  lemma {:induction false} UndoEach(w: World, m: World, captures: seq<seq<ResourceId>>, task: TaskId, now: World, ids: seq<LeaseId>)
    requires Ledger(w.resources, w.leases, w.nextLease) && RetainedEach(w, m, captures, task)
    requires now == m.(nextLease := now.nextLease) && Ledger(now.resources, now.leases, now.nextLease)
    requires forall id :: id in ids <==> w.nextLease <= id < m.nextLease
    ensures ReleaseAll(now, ids) == w.(nextLease := now.nextLease)
  {
    assert forall id | id in w.leases :: id < w.nextLease;
    hide Ledger, LeaseOnly, Runs, Before;
    assert now.leases - Ids(ids) == w.leases;
    Undone(w, now, ids);
  }

  lemma {:induction false} UndoRetained(w: World, m: World, count: nat, holder: Holder, ids: seq<LeaseId>)
    requires Ledger(w.resources, w.leases, w.nextLease) && Retained(w, m, count, holder)
    requires forall id :: id in ids <==> id in Range(w.nextLease, count)
    ensures Ledger(m.resources, m.leases, m.nextLease)
    ensures ReleaseAll(m, ids) == w.(nextLease := m.nextLease)
  {
    assert forall id | id in w.leases :: id < w.nextLease;
    hide Ledger, LeaseOnly;
    forall id: nat ensures id in Ids(ids) <==> w.nextLease <= id < w.nextLease + count {
      if w.nextLease <= id < w.nextLease + count { assert Range(w.nextLease, count)[id - w.nextLease] == id; }
    }
    assert m.leases - Ids(ids) == w.leases;
    Undone(w, m, ids);
  }

  /** The calls that are granted or refused. */
  predicate Asks(e: Event) {
    e.ERegister? || e.EUseStarts? || e.ECloseCall? || e.EPublish? || e.ECallbackStarts? || e.EOpenScope?
  }

  class Root {
    var parents: seq<Option<ScopeId>>
    var scopes: seq<Scope>
    var resources: seq<Resource>
    var tasks: seq<Task>
    var batches: seq<Batch>
    var callbacks: set<TaskId>
    var leases: map<LeaseId, Lease>
    var nextLease: LeaseId
    var nextOwner: Owner
    var nextFailure: FailureId

    function View(): World
      reads this
    {
      World(parents, scopes, resources, tasks, batches, callbacks, leases, nextLease, nextOwner, nextFailure)
    }

    constructor ()
      ensures View() == Start()
    {
      parents, scopes := [None], [Scope(Open, 0, [], None, Body)];
      resources, tasks, batches, callbacks := [], [], [], {};
      leases, nextLease, nextOwner, nextFailure := map[], 0, 1, 0;
    }

    // ------------------------------------------------------------------------ leases ---

    method Acquire(r: ResourceId, x: Exec, holder: Holder) returns (lease: Option<LeaseId>)
      modifies this`resources, this`leases, this`nextLease
      ensures lease.Some? <==> Acquirable(old(View()), r, x)
      ensures lease.Some? ==> lease.value == old(nextLease) && View() == Grant(old(View()), r, OwnerOf(old(View()), x), holder)
      ensures lease.None? ==> View() == old(View())
    {
      if !Usable(View(), x) || !ScopeAdmits(View(), r, x) {
        return None;
      }
      var owner := if x.owner.Some? then x.owner.value else scopes[x.scope].base;
      var state := resources[r];
      if || state.state == Closed
         || (state.state == Closing && owner !in state.leases)
         || (scopes[state.scope].state == Closing && owner !in state.leases)
      {
        return None;
      }
      var count := if owner in state.leases then state.leases[owner] else 0;
      resources := resources[r := state.(leases := state.leases[owner := count + 1])];
      leases := leases[nextLease := Lease(r, owner, holder)];
      lease := Some(nextLease);
      nextLease := nextLease + 1;
    }

    method ReleaseLease(id: LeaseId)
      requires Ledger(resources, leases, nextLease)
      modifies this`resources, this`leases
      ensures View() == Release(old(View()), id) && Ledger(resources, leases, nextLease)
    {
      ReleaseLedger(View(), id);
      if id in leases {
        var lease := leases[id];
        var state := resources[lease.resource];
        assert Held(state, lease.owner) > 0 by {
          CountRemove(leases, id, lease.resource, lease.owner);
        }
        var count := state.leases[lease.owner];
        var left := if count == 1 then state.leases - {lease.owner} else state.leases[lease.owner := count - 1];
        resources := resources[lease.resource := state.(leases := left)];
        leases := leases - {id};
      }
    }

    method ReleaseEach(ids: seq<LeaseId>)
      requires Ledger(resources, leases, nextLease)
      modifies this`resources, this`leases
      ensures View() == ReleaseAll(old(View()), ids) && Ledger(resources, leases, nextLease)
    {
      var i := 0;
      while i < |ids|
        invariant 0 <= i <= |ids| && Ledger(resources, leases, nextLease)
        invariant ReleaseAll(View(), ids[i..]) == ReleaseAll(old(View()), ids)
      {
        assert ids[i..][0] == ids[i] && ids[i..][1..] == ids[i + 1..];
        ReleaseLease(ids[i]);
        i := i + 1;
      }
    }

    /** Leases on all captured resources, or none: a refusal leaves every lease as it was. */
    method RetainAll(captured: seq<ResourceId>, x: Exec, holder: Holder) returns (held: Option<seq<LeaseId>>)
      requires Ledger(resources, leases, nextLease)
      modifies this`resources, this`leases, this`nextLease
      ensures held.Some? <==> Retain(old(View()), captured, x, holder).Some?
      ensures held.Some? ==> View() == Retain(old(View()), captured, x, holder).value
      ensures held.Some? ==> held.value == Range(old(nextLease), |captured|)
      ensures held.None? ==> View() == old(View()).(nextLease := nextLease)
      ensures nextLease >= old(nextLease)
      ensures Ledger(resources, leases, nextLease)
    {
      hide Ledger, LeaseOnly, Acquirable, Grant;
      ghost var w := View();
      var releases: seq<LeaseId> := [];
      var i := 0;
      while i < |captured|
        invariant 0 <= i <= |captured|
        invariant Retain(w, captured[..i], x, holder) == Some(View())
        invariant releases == Range(w.nextLease, i)
      {
        RetainLedger(w, captured[..i], x, holder);
        RetainNext(w, captured, i, x, holder);
        ghost var m := View();
        var lease := Acquire(captured[i], x, holder);
        if lease.None? {
          UndoRetained(w, m, i, holder, Reversed(releases));
          ReleaseEach(Reversed(releases));
          return None;
        }
        releases := releases + [lease.value];
        i := i + 1;
      }
      assert captured[..i] == captured;
      RetainLedger(w, captured, x, holder);
      held := Some(releases);
    }

    // ------------------------------------------------------------------------- tasks ---

    /** Every participant's leases are taken before any participant can run, or none is. */
    method RetainParticipants(captures: seq<seq<ResourceId>>, child: Exec) returns (ok: bool)
      requires Ledger(resources, leases, nextLease)
      modifies this`resources, this`leases, this`nextLease
      ensures ok <==> RetainEach(old(View()), captures, child, |tasks|).Some?
      ensures ok ==> View() == RetainEach(old(View()), captures, child, |tasks|).value
      ensures !ok ==> View() == old(View()).(nextLease := nextLease) && nextLease >= old(nextLease)
      ensures Ledger(resources, leases, nextLease)
    {
      hide Ledger, LeaseOnly, Retain, RetainEach, Runs, Before;
      ghost var w := View();
      var count := |tasks|;
      var retained: seq<LeaseId> := [];
      var i := 0;
      RetainEachNothing(w, captures, child, count);
      while i < |captures|
        invariant 0 <= i <= |captures| && Ledger(resources, leases, nextLease)
        invariant RetainEach(w, captures[..i], child, count) == Some(View())
        invariant forall id :: id in retained <==> w.nextLease <= id < nextLease
      {
        RetainEachLedger(w, captures[..i], child, count);
        RetainEachNext(w, captures, i, child, count);
        ghost var m := View();
        var held := RetainAll(captures[i], child, Participant(count + i));
        if held.None? {
          UndoEach(w, m, captures[..i], count, View(), Reversed(retained));
          ReleaseEach(Reversed(retained));
          return false;
        }
        RetainLedger(m, captures[i], child, Participant(count + i));
        RangeIds(retained, w.nextLease, m.nextLease, |captures[i]|);
        retained := retained + held.value;
        i := i + 1;
      }
      assert captures[..i] == captures;
      RetainEachLedger(w, captures, child, count);
      ok := true;
    }

    /** Launches a group; a refusal leaves every lease and the set of groups as they were. */
    method PrepareLaunch(x: Exec, captures: seq<seq<ResourceId>>, native_: bool) returns (ok: bool)
      requires Ledger(resources, leases, nextLease)
      modifies this
      ensures ok <==> Launch(old(View()), x, captures, native_).Some?
      ensures ok ==> View() == Launch(old(View()), x, captures, native_).value
      ensures !ok ==> View() == old(View()).(nextLease := nextLease, nextOwner := nextOwner)
      ensures nextLease >= old(nextLease) && nextOwner >= old(nextOwner)
    {
      hide Ledger, LeaseOnly, Retain, RetainEach, Runs, Before;
      if !Usable(View(), x) {
        return false;
      }
      if scopes[x.scope].state != Open && !(native_ && x.task.Some? && !tasks[x.task.value].done) {
        return false;
      }
      var key := if native_ && x.owner.Some? then x.owner.value else nextOwner;
      nextOwner := nextOwner + 1;
      ghost var w := View();
      var base := nextLease;
      ok := RetainParticipants(captures, x.(owner := Some(key)));
      if ok {
        RetainEachLedger(w, captures, x.(owner := Some(key)), |tasks|);
        batches := batches + [Batch(x.scope, G.Launch(|captures|), Range(|tasks|, |captures|))];
        tasks := tasks + Participants(x.scope, |batches| - 1, captures, base);
      }
    }

    /** A participant's outcome arrives: its leases go back, then its group is told. */
    method SettleLaunched(b: BatchId, i: nat, completion: G.Completion)
      requires Ledger(resources, leases, nextLease)
      requires TaskSettles(View(), b, i, completion).Some?
      modifies this
      ensures View() == TaskSettles(old(View()), b, i, completion).value
      ensures Ledger(resources, leases, nextLease)
    {
      hide Ledger, Hosts;
      ghost var w := View();
      var t := batches[b].tasks[i];
      FinishSplit(w, t);
      tasks := tasks[t := tasks[t].(done := true)];
      ReleaseAllTasks(w, tasks, tasks[t].retained);
      ReleaseEach(tasks[t].retained);
      ReleaseAllTasks(ReleaseAll(w, w.tasks[t].retained), tasks, tasks[t].dynamic);
      ReleaseEach(tasks[t].dynamic);
      tasks := tasks[t := tasks[t].(dynamic := [])];
      batches := batches[b := batches[b].(group := G.Settle(batches[b].group, i, completion))];
    }

    method PublishGroup(b: BatchId, selected: seq<nat>) returns (ok: bool)
      requires b < |batches| ==> |batches[b].group.completions| == |batches[b].group.observed|
      modifies this`batches
      ensures ok <==> Publish(old(View()), b, selected).Some?
      ensures View() == if ok then Publish(old(View()), b, selected).value else old(View())
    {
      ok := b < |batches| && G.Publishable(batches[b].group, selected);
      if ok {
        batches := batches[b := batches[b].(group := G.Publish(batches[b].group, selected))];
      }
    }

    /** A guarded callback is dispatched; the task it runs under, unless it is refused. */
    method GuardCallback(guard: ScopeId, from: Option<Exec>) returns (task: Option<TaskId>)
      modifies this`tasks, this`callbacks, this`nextOwner
      ensures task.Some? <==> CallbackStarts(old(View()), guard, from).Some?
      ensures View() == if task.Some? then CallbackStarts(old(View()), guard, from).value else old(View())
      ensures task.Some? ==> task.value == old(|tasks|) && task.value in callbacks
    {
      if guard >= |scopes| {
        return None;
      }
      var active := false;
      if from.Some? && from.value.task.Some? && from.value.scope < |scopes| && from.value.task.value < |tasks| {
        active := !tasks[from.value.task.value].done && Inside(parents, from.value.scope, guard);
      }
      if scopes[guard].state == Closed || (!active && scopes[guard].state == Closing) {
        return None;
      }
      task := Some(|tasks|);
      callbacks := callbacks + {|tasks|};
      tasks := tasks + [Task(if active then from.value.scope else guard, None, [], [], false)];
      nextOwner := nextOwner + 1;
    }

    method SettleCallback(t: TaskId)
      requires Ledger(resources, leases, nextLease)
      requires CallbackSettles(View(), t).Some? && tasks[t].retained == []
      modifies this
      ensures View() == CallbackSettles(old(View()), t).value
      ensures Ledger(resources, leases, nextLease)
    {
      hide Ledger, Hosts;
      ghost var w := View();
      FinishSplit(w, t);
      tasks := tasks[t := tasks[t].(done := true)];
      ReleaseAllTasks(w, tasks, tasks[t].dynamic);
      ReleaseEach(tasks[t].dynamic);
      tasks := tasks[t := tasks[t].(dynamic := [])];
      callbacks := callbacks - {t};
    }

    // --------------------------------------------------------------------- resources ---

    method RegisterResource(x: Exec, kind: string, idempotent: bool, scopeManaged: bool, limited: bool)
      returns (token: Option<ResourceId>)
      requires |parents| == |scopes|
      modifies this
      ensures token.Some? <==> Register(old(View()), x, kind, idempotent, scopeManaged, limited).Some?
      ensures View() == (if token.Some? then Register(old(View()), x, kind, idempotent, scopeManaged, limited).value
                         else old(View()))
      ensures token.Some? ==> token.value == old(|resources|)
      ensures token.Some? ==> Usable(old(View()), x) && OwnershipExits.Registered(old(View()), View(), x)
    {
      ghost var w := View();
      if Register(w, x, kind, idempotent, scopeManaged, limited).Some? {
        OwnershipExits.RegisterGives(w, x, kind, idempotent, scopeManaged, limited);
      }
      hide OwnershipExits.Registered;
      if !Usable(View(), x) || kind == "" || scopes[x.scope].state != Open {
        return None;
      }
      var r := |resources|;
      resources := resources + [Fresh(kind, x.scope, idempotent, scopeManaged, limited)];
      if x.task.Some? {
        var t := x.task.value;
        InsideSelf(parents, x.scope);
        var lease := Acquire(r, x, Initial(t));
        var id := lease.value;
        resources := resources[r := resources[r].(creator := x.task, initial := Some(id))];
        tasks := tasks[t := tasks[t].(dynamic := tasks[t].dynamic + [id])];
        if x.scope != tasks[t].scope {
          scopes := scopes[x.scope := scopes[x.scope].(exits := scopes[x.scope].exits + [id])];
        }
      }
      token := Some(r);
    }

    /** Direct use takes a lease for as long as the operation runs. */
    method UseResource(x: Exec, r: ResourceId, kind: string) returns (lease: Option<LeaseId>)
      modifies this`resources, this`leases, this`nextLease
      ensures lease.Some? <==> UseStarts(old(View()), x, r, kind).Some?
      ensures View() == if lease.Some? then UseStarts(old(View()), x, r, kind).value else old(View())
      ensures lease.Some? ==> UseEnds(View(), lease.value).Some?
    {
      if r >= |resources| || resources[r].kind != kind {
        return None;
      }
      lease := Acquire(r, x, Direct);
    }

    method EndUse(lease: LeaseId)
      requires Ledger(resources, leases, nextLease) && UseEnds(View(), lease).Some?
      modifies this`resources, this`leases
      ensures View() == UseEnds(old(View()), lease).value && Ledger(resources, leases, nextLease)
    {
      ReleaseLease(lease);
    }

    /** Begins the close of a resource that no close was begun for: from here on the owners
        that can get a lease are those that hold one. */
    method BeginClose(r: ResourceId)
      requires r < |resources| && Lifecycle(resources) && resources[r].closing == Unstarted
      modifies this`resources
      ensures resources == old(resources)[r := Begin(old(resources)[r])]
      ensures Lifecycle(resources) && Monotone(old(resources), resources) && ShutsOut(old(View()), View(), r)
    {
      BeginMeans(View(), r);
      resources := resources[r := resources[r].(state := Closing, autoPending := false, closing := Waiting)];
    }

    /** Joins the close of a resource, beginning it when nothing has; a deadline is armed. */
    method JoinClose(r: ResourceId, deadline: bool)
      requires r < |resources| && Lifecycle(resources)
      modifies this`resources
      ensures View() == ClosedBy(old(View()), r, deadline)
    {
      if resources[r].closing == Unstarted {
        BeginClose(r);
      }
      if deadline && resources[r].closing != Finished {
        resources := resources[r := resources[r].(deadlines := resources[r].deadlines + 1)];
      }
    }

    method CloseResource(x: Exec, r: ResourceId, kind: string, deadline: bool) returns (ok: bool)
      requires Ledger(resources, leases, nextLease) && Lifecycle(resources)
      modifies this`resources, this`leases
      ensures Lifecycle(resources) && Monotone(old(resources), resources)
      ensures ok <==> CloseCall(old(View()), x, r, kind, deadline).Some?
      ensures View() == if ok then CloseCall(old(View()), x, r, kind, deadline).value else old(View())
    {
      hide Ledger, Begin, Inside, LeaseOnly, ClosedBy, CloseCall, Lifecycle, Monotone;
      ghost var w := View();
      CloseAdmitted(w, x, r, kind, deadline);
      MonotoneSelf(resources);
      if !Usable(View(), x) || !ScopeAdmits(View(), r, x) || resources[r].kind != kind {
        return false;
      }
      if resources[r].state != Open && !resources[r].idempotent {
        return false;
      }
      CloseCallLife(w, x, r, kind, deadline);
      if resources[r].creator == x.task && resources[r].initial.Some? {
        ReleaseLife(View(), resources[r].initial.value);
        ReleaseLease(resources[r].initial.value);
      }
      JoinClose(r, deadline);
      ok := true;
    }

    /** The native close starts once no lease is left, and its outcome is recorded. */
    method StartClose(r: ResourceId)
      requires CloseStarts(View(), r).Some? && Lifecycle(resources)
      modifies this`resources
      ensures View() == CloseStarts(old(View()), r).value && OnlyResource(old(View()), View(), r)
      ensures Lifecycle(resources) && Monotone(old(resources), resources)
      ensures ShutToAll(View(), r) && CloseStarts(View(), r).None?
    {
      StartMeans(View(), r);
      resources := resources[r := resources[r].(closing := Running)];
    }

    /** The native close settles: the resource is closed or carries a failure and is left alone
        from then on, and every drain that waits for it can go on. */
    method EndClose(r: ResourceId, ok: bool)
      requires CloseEnds(View(), r, ok).Some? && Lifecycle(resources)
      modifies this`resources, this`nextFailure
      ensures View() == CloseEnds(old(View()), r, ok).value && OnlyResource(old(View()), View(), r)
      ensures Lifecycle(resources) && Monotone(old(resources), resources)
      ensures AtRest(View(), r) && FreesDrains(View(), r)
      ensures resources[r].state == Closed || resources[r].cleanup.Some?
      ensures ok ==> resources[r].cleanup == old(resources)[r].cleanup
    {
      EndMeans(View(), r, ok);
      resources := resources[r := resources[r].(timer := false, closing := Finished, deadlines := 0)];
      if ok {
        resources := resources[r := resources[r].(state := Closed, creator := None, initial := None)];
      } else {
        resources := resources[r := resources[r].(cleanup := Some(nextFailure))];
        nextFailure := nextFailure + 1;
      }
    }

    /** A close deadline expires: a failure is recorded, and the close goes on as before. */
    method FireDeadline(r: ResourceId)
      requires DeadlineFires(View(), r).Some? && Lifecycle(resources)
      modifies this`resources, this`nextFailure
      ensures View() == DeadlineFires(old(View()), r).value && OnlyResource(old(View()), View(), r)
      ensures Lifecycle(resources) && Monotone(old(resources), resources)
      ensures resources[r].cleanup == Some(old(nextFailure))
      ensures CloseStarts(View(), r).Some? <==> CloseStarts(old(View()), r).Some?
      ensures forall x :: Acquirable(View(), r, x) <==> Acquirable(old(View()), r, x)
    {
      DeadlineMeans(View(), r);
      resources := resources[r := resources[r].(deadlines := resources[r].deadlines - 1, cleanup := Some(nextFailure))];
      nextFailure := nextFailure + 1;
    }

    /** The shutdown timer: an open resource starts closing, its close left to the drain. New
        owners are shut out, no close is begun, and the timer is never armed again. */
    method FireTimer(r: ResourceId)
      requires TimerFires(View(), r).Some? && Lifecycle(resources)
      modifies this`resources, this`nextFailure
      ensures View() == TimerFires(old(View()), r).value && OnlyResource(old(View()), View(), r)
      ensures Lifecycle(resources) && Monotone(old(resources), resources)
      ensures ShutsOut(old(View()), View(), r) && resources[r].closing == old(resources)[r].closing
      ensures resources[r].state == Closed || resources[r].cleanup.Some?
      ensures TimerFires(View(), r).None? && forall s :: !Arms(View(), s, resources[r])
    {
      TimerMeans(View(), r);
      resources := resources[r := resources[r].(timer := false)];
      if resources[r].state == Closed {
        return;
      }
      if resources[r].state == Open {
        resources := resources[r := resources[r].(state := Closing, autoPending := true)];
      }
      resources := resources[r := resources[r].(cleanup := Some(nextFailure))];
      nextFailure := nextFailure + 1;
    }

    // ------------------------------------------------------------------------ scopes ---

    method CreateChildScope(x: Exec) returns (scope: Option<ScopeId>)
      modifies this`parents, this`scopes, this`nextOwner
      ensures scope.Some? <==> OpenScope(old(View()), x).Some?
      ensures View() == if scope.Some? then OpenScope(old(View()), x).value else old(View())
    {
      if !Usable(View(), x) || scopes[x.scope].state != Open || !HostRuns(View(), x) {
        return None;
      }
      var host := if x.task.Some? && tasks[x.task.value].scope == x.scope then x.task else None;
      scope := Some(|scopes|);
      parents := parents + [Some(x.scope)];
      scopes := scopes + [Scope(Open, nextOwner, [], host, Body)];
      nextOwner := nextOwner + 1;
    }

    /** A scope's body is over: its exit releases are called, so that none of them is outstanding
        any more, and it starts closing. The root stays open until its drain finds it quiet. */
    method SettleScopeBody(s: ScopeId)
      requires Ledger(resources, leases, nextLease)
      requires BodyEnds(View(), s).Some?
      modifies this
      ensures View() == BodyEnds(old(View()), s).value && Ledger(resources, leases, nextLease)
      ensures OwnershipExits.BodyEnded(old(View()), View(), s)
    {
      OwnershipExits.BodyGives(View(), s);
      hide Ledger, LeaseOnly, BodyHosts, OwnershipExits.BodyEnded;
      if s == 0 {
        scopes := scopes[s := scopes[s].(drain := Quiescing)];
        return;
      }
      ReleaseAllLedger(View(), scopes[s].exits);
      ReleaseEach(scopes[s].exits);
      scopes := scopes[s := scopes[s].(exits := [], state := Closing, drain := Quiescing)];
    }

    method ArmTimers(s: ScopeId)
      modifies this`resources
      ensures resources == Armed(old(View()), s) && |resources| == |old(resources)|
    {
      ghost var w := View();
      ghost var armed := Armed(w, s);
      var r := 0;
      while r < |resources|
        invariant 0 <= r <= |resources| == |w.resources|
        invariant forall i | 0 <= i < |resources| :: resources[i] == if i < r then armed[i] else w.resources[i]
      {
        var res := resources[r];
        if Inside(parents, res.scope, s) && res.state != Closed && res.limited && !res.timer && res.cleanup.None? {
          resources := resources[r := res.(timer := true)];
        }
        r := r + 1;
      }
    }

    /** One turn of the drain's waiting loop: shutdown timers are armed, then the scope starts
        closing if no group and no callback is left inside it. */
    method DrainTurn(s: ScopeId) returns (quiet: bool)
      requires DrainTurns(View(), s).Some?
      modifies this`resources, this`scopes
      ensures View() == DrainTurns(old(View()), s).value
      ensures quiet <==> Quiet(old(View()), s)
    {
      hide Armed, Inside;
      ArmTimers(s);
      quiet := Quiet(View(), s);
      assert quiet <==> Quiet(old(View()), s);
      if quiet {
        scopes := scopes[s := scopes[s].(state := Closing, drain := Visiting(|resources|, None))];
      }
    }

    /** The drain visits one resource: it closes it, waits for it, or takes its cleanup. */
    method DrainVisit(s: ScopeId)
      requires DrainVisits(View(), s).Some? && Lifecycle(resources)
      modifies this`resources, this`scopes, this`nextFailure
      ensures View() == DrainVisits(old(View()), s).value
      ensures |scopes| == |old(scopes)| && |resources| == |old(resources)| && scopes == old(scopes)[s := scopes[s]]
      ensures Lifecycle(resources) && Monotone(old(resources), resources) && VisitDone(old(View()), View(), s)
    {
      hide Lifecycle, Monotone, VisitDone, ShutsOut;
      VisitMeans(View(), s);
      var d := scopes[s].drain;
      if d.next == 0 {
        scopes := scopes[s := scopes[s].(drain := Drained(d.first))];
        return;
      }
      var r := d.next - 1;
      if !Inside(parents, resources[r].scope, s) {
        scopes := scopes[s := scopes[s].(drain := Visiting(r, d.first))];
      } else if resources[r].state == Open || resources[r].autoPending {
        MarkedLife(resources, r, nextFailure);
        if !resources[r].scopeManaged && resources[r].cleanup.None? {
          resources := resources[r := resources[r].(cleanup := Some(nextFailure))];
          nextFailure := nextFailure + 1;
        }
        BeginClose(r);
        scopes := scopes[s := scopes[s].(drain := Awaiting(d.next, d.first))];
      } else {
        var passed := Visiting(r, First(d.first, resources[r].cleanup));
        scopes := scopes[s := scopes[s].(drain := if resources[r].closing != Unstarted then Awaiting(d.next, d.first) else passed)];
      }
    }

    /** The drain goes on past a resource whose close has settled: it is closed or failed, and
        the drain's result is the first failure met, of the latest registered resource. */
    method ResumeDrain(s: ScopeId)
      requires DrainResumes(View(), s).Some? && Lifecycle(resources)
      modifies this`scopes
      ensures View() == DrainResumes(old(View()), s).value
      ensures var d, res := old(scopes)[s].drain, resources[old(scopes)[s].drain.next - 1];
              && (res.state == Closed || res.cleanup.Some?) && AtRest(View(), d.next - 1)
              && scopes[s].drain.Visiting? && scopes[s].drain.next < d.next
              && (scopes[s].drain.first.Some? <==> d.first.Some? || res.cleanup.Some?)
              && (d.first.Some? ==> scopes[s].drain.first == d.first)
    {
      RestMeans(View(), scopes[s].drain.next - 1);
      var d := scopes[s].drain;
      var first := if d.first.Some? then d.first else resources[d.next - 1].cleanup;
      scopes := scopes[s := scopes[s].(drain := Visiting(d.next - 1, first))];
    }

    /** Any event, carried out in place: it happens exactly when the protocol lets it, its
        effect is the protocol's, and every invariant of the root is kept either way. */
    method Perform(e: Event) returns (ok: bool)
      requires Inv(View())
      modifies this
      ensures ok <==> Next(old(View()), e).Some?
      ensures ok ==> View() == Next(old(View()), e).value
      ensures !ok ==> View() == old(View()).(nextLease := nextLease, nextOwner := nextOwner)
      ensures Inv(View())
    {
      hide Inv, Stepped, Ledger, Register, UseStarts, UseEnds, CloseCall, Launch, TaskSettles, Publish, CallbackStarts,
           CallbackSettles, OpenScope, BodyEnds, DrainTurns, DrainVisits, DrainResumes, ScopeCloses,
           DeadlineFires, CloseStarts, CloseEnds, TimerFires, Usable, HostRuns;
      ghost var w := View();
      InvParts(w);
      if e.ELaunch? {
        ok := PrepareLaunch(e.x, e.captures, e.native_);
        if !ok {
          BumpInv(w, nextLease, nextOwner);
        }
      } else if Asks(e) {
        ok := Attempt(e);
      } else {
        ok := Next(View(), e).Some?;
        if ok {
          Proceed(e);
        }
      }
      if ok {
        StepInv(w, e);
        SteppedInv(w, Next(w, e).value);
      }
    }

    /** A call that the runtime grants or refuses; its own checks decide which. */
    method Attempt(e: Event) returns (ok: bool)
      requires Inv(View()) && Asks(e)
      modifies this
      ensures ok <==> Next(old(View()), e).Some?
      ensures View() == if ok then Next(old(View()), e).value else old(View())
    {
      hide Inv, Ledger, Register, UseStarts, CloseCall, Publish, CallbackStarts, OpenScope, Usable, HostRuns, Lifecycle, Monotone;
      InvParts(View());
      match e {
        case ERegister(x, kind, idempotent, scopeManaged, limited) =>
          var token := RegisterResource(x, kind, idempotent, scopeManaged, limited);
          ok := token.Some?;
        case EUseStarts(x, r, kind) =>
          var lease := UseResource(x, r, kind);
          ok := lease.Some?;
        case ECloseCall(x, r, kind, deadline) => ok := CloseResource(x, r, kind, deadline);
        case EPublish(b, selected) => ok := PublishGroup(b, selected);
        case ECallbackStarts(s, from) =>
          var task := GuardCallback(s, from);
          ok := task.Some?;
        case EOpenScope(x) =>
          var scope := CreateChildScope(x);
          ok := scope.Some?;
      }
    }

    /** What happens to the runtime: work that ends, closes that go on, drains that move. It
        happens only when it can. */
    method Proceed(e: Event)
      requires Inv(View()) && Next(View(), e).Some? && !e.ELaunch? && !Asks(e)
      modifies this
      ensures View() == Next(old(View()), e).value
    {
      hide Inv, Ledger, UseEnds, TaskSettles, CallbackSettles, BodyEnds, DrainTurns, DrainVisits, DrainResumes, ScopeCloses,
           DeadlineFires, CloseStarts, CloseEnds, TimerFires, Lifecycle, Monotone, VisitDone, AtRest, FreesDrains, ShutsOut, ShutToAll, OnlyResource, Arms;
      InvParts(View());
      EventParts(View(), e);
      match e {
        case EUseEnds(id) => EndUse(id);
        case EDeadlineFires(r) => FireDeadline(r);
        case ECloseStarts(r) => StartClose(r);
        case ECloseEnds(r, ok) => EndClose(r, ok);
        case ETimerFires(r) => FireTimer(r);
        case ETaskSettles(b, i, c) => SettleLaunched(b, i, c);
        case ECallbackSettles(t) => SettleCallback(t);
        case EBodyEnds(s) => SettleScopeBody(s);
        case EDrainTurns(s) => var _ := DrainTurn(s);
        case EDrainVisits(s) => DrainVisit(s);
        case EDrainResumes(s) => ResumeDrain(s);
        case EScopeCloses(s) => CloseScope(s);
      }
    }

    method CloseScope(s: ScopeId)
      requires ScopeCloses(View(), s).Some?
      modifies this`scopes
      ensures View() == ScopeCloses(old(View()), s).value
    {
      scopes := scopes[s := scopes[s].(state := Closed)];
    }
  }
}
