/** Who holds which lease, and which tasks the root still waits for. */
module OwnershipTasks {
  import opened Wrappers
  import G = Groups
  import opened Ownership
  import opened OwnershipLeases

  // ------------------------------------------------------------------ lease table ---

  /** A running participant holds all its retained leases; every participant or initial lease
      is in its task's list. */
  ghost predicate TaskLeases(task: Task, t: TaskId, leases: map<LeaseId, Lease>, next: LeaseId) {
    && (forall id | id in task.retained :: id < next && (!task.done ==> id in leases) && (id in leases ==> leases[id].holder == Participant(t)))
    && (forall i, j | 0 <= i < j < |task.retained| :: task.retained[i] != task.retained[j])
    && (forall id | id in task.dynamic :: id < next && (id in leases ==> leases[id].holder == Initial(t)))
  }

  ghost predicate Listed(l: Lease, id: LeaseId, tasks: seq<Task>) {
    match l.holder
    case Direct => true
    case Participant(t) => t < |tasks| && !tasks[t].done && id in tasks[t].retained
    case Initial(t) => t < |tasks| && id in tasks[t].dynamic
  }

  ghost predicate LeaseTable(tasks: seq<Task>, leases: map<LeaseId, Lease>, next: LeaseId) {
    && (forall t | 0 <= t < |tasks| :: TaskLeases(tasks[t], t, leases, next))
    && (forall id | id in leases :: id < next && Listed(leases[id], id, tasks))
  }

  /** Ids kept outside task lists only ever name initial leases. */
  ghost predicate InitialOrGone(leases: map<LeaseId, Lease>, next: LeaseId, id: LeaseId) {
    id < next && (id in leases ==> leases[id].holder.Initial?)
  }

  ghost predicate InitialIds(scopes: seq<Scope>, rs: seq<Resource>, leases: map<LeaseId, Lease>, next: LeaseId) {
    && (forall s, id | 0 <= s < |scopes| && id in scopes[s].exits :: InitialOrGone(leases, next, id))
    && (forall r | 0 <= r < |rs| && rs[r].initial.Some? :: InitialOrGone(leases, next, rs[r].initial.value))
  }

  lemma {:induction false} TableShrinks(tasks: seq<Task>, leases: map<LeaseId, Lease>, next: LeaseId, gone: set<LeaseId>)
    requires LeaseTable(tasks, leases, next)
    requires forall id | id in gone && id in leases :: !leases[id].holder.Participant?
    ensures LeaseTable(tasks, leases - gone, next)
  {
    forall t | 0 <= t < |tasks| ensures TaskLeases(tasks[t], t, leases - gone, next) {
      assert TaskLeases(tasks[t], t, leases, next);
    }
  }

  lemma {:induction false} FinishTable(tasks: seq<Task>, leases: map<LeaseId, Lease>, next: LeaseId, t: TaskId)
    requires LeaseTable(tasks, leases, next) && t < |tasks|
    ensures LeaseTable(tasks[t := tasks[t].(dynamic := [], done := true)], leases - Ids(tasks[t].retained + tasks[t].dynamic), next)
  {
    var tasks' := tasks[t := tasks[t].(dynamic := [], done := true)];
    var gone := Ids(tasks[t].retained + tasks[t].dynamic);
    assert forall id :: id in gone <==> id in tasks[t].retained || id in tasks[t].dynamic;
    assert TaskLeases(tasks[t], t, leases, next);
    forall u | 0 <= u < |tasks'| ensures TaskLeases(tasks'[u], u, leases - gone, next) {
      assert TaskLeases(tasks[u], u, leases, next);
      forall id | id in tasks'[u].retained && !tasks'[u].done ensures id in leases - gone {
        assert leases[id].holder == Participant(u);
      }
    }
    forall id | id in leases - gone ensures Listed(leases[id], id, tasks') {
      assert Listed(leases[id], id, tasks);
    }
  }

  lemma {:induction false} GrantDirectTable(tasks: seq<Task>, leases: map<LeaseId, Lease>, next: LeaseId, l: Lease)
    requires LeaseTable(tasks, leases, next) && l.holder.Direct?
    ensures LeaseTable(tasks, leases[next := l], next + 1)
  {
    forall t | 0 <= t < |tasks| ensures TaskLeases(tasks[t], t, leases[next := l], next + 1) {
      assert TaskLeases(tasks[t], t, leases, next);
    }
  }

  lemma {:induction false} GrantInitialTable(tasks: seq<Task>, leases: map<LeaseId, Lease>, next: LeaseId, l: Lease, t: TaskId)
    requires LeaseTable(tasks, leases, next) && t < |tasks| && l.holder == Initial(t)
    ensures LeaseTable(tasks[t := tasks[t].(dynamic := tasks[t].dynamic + [next])], leases[next := l], next + 1)
  {
    var tasks' := tasks[t := tasks[t].(dynamic := tasks[t].dynamic + [next])];
    forall u | 0 <= u < |tasks'| ensures TaskLeases(tasks'[u], u, leases[next := l], next + 1) {
      assert TaskLeases(tasks[u], u, leases, next);
    }
    var leases' := leases[next := l];
    forall id | id in leases' ensures id < next + 1 && Listed(leases'[id], id, tasks') {
      if id != next { assert Listed(leases[id], id, tasks); }
    }
  }

  lemma {:induction false} AppendTaskTable(tasks: seq<Task>, leases: map<LeaseId, Lease>, next: LeaseId, task: Task)
    requires LeaseTable(tasks, leases, next) && task.retained == [] && task.dynamic == []
    ensures LeaseTable(tasks + [task], leases, next)
  {
    forall t | 0 <= t < |tasks| + 1 ensures TaskLeases((tasks + [task])[t], t, leases, next) {
      if t < |tasks| { assert TaskLeases(tasks[t], t, leases, next); }
    }
    forall id | id in leases ensures Listed(leases[id], id, tasks + [task]) {
      assert Listed(leases[id], id, tasks);
    }
  }

  lemma {:induction false} LaunchTable(w: World, w1: World, captures: seq<seq<ResourceId>>, scope: ScopeId, batch: BatchId)
    requires LeaseTable(w.tasks, w.leases, w.nextLease) && RetainedEach(w, w1, captures, |w.tasks|)
    ensures LeaseTable(w.tasks + Participants(scope, batch, captures, w.nextLease), w1.leases, w1.nextLease)
  {
    hide LeaseOnly, Ledger, Runs, Participants, Before;
    var added := Participants(scope, batch, captures, w.nextLease);
    var tasks := w.tasks + added;
    forall t | 0 <= t < |tasks| ensures TaskLeases(tasks[t], t, w1.leases, w1.nextLease) {
      if t < |w.tasks| {
        assert TaskLeases(w.tasks[t], t, w.leases, w.nextLease);
        OldTaskLeases(w, w1, captures, t);
      } else {
        NewTaskLeases(w, w1, captures, scope, batch, t - |w.tasks|);
      }
    }
    forall id | id in w1.leases ensures id < w1.nextLease && Listed(w1.leases[id], id, tasks) {
      if id in w.leases {
        assert Listed(w.leases[id], id, w.tasks);
      } else {
        NewLeaseListed(w, w1, captures, scope, batch, id);
      }
    }
  }

  lemma {:induction false} OldTaskLeases(w: World, w1: World, captures: seq<seq<ResourceId>>, t: TaskId)
    requires LeaseTable(w.tasks, w.leases, w.nextLease) && RetainedEach(w, w1, captures, |w.tasks|) && t < |w.tasks|
    ensures TaskLeases(w.tasks[t], t, w1.leases, w1.nextLease)
  {
    hide LeaseOnly, Ledger, Runs;
    assert TaskLeases(w.tasks[t], t, w.leases, w.nextLease);
  }

  lemma {:induction false} RangeMembers(from: nat, count: nat)
    ensures forall id :: id in Range(from, count) <==> from <= id < from + count
  {
    forall id: nat | from <= id < from + count ensures id in Range(from, count) {
      assert Range(from, count)[id - from] == id;
    }
  }

  lemma {:induction false} NewTaskLeases(w: World, w1: World, captures: seq<seq<ResourceId>>, scope: ScopeId, batch: BatchId, i: nat)
    requires RetainedEach(w, w1, captures, |w.tasks|) && i < |captures|
    ensures i < |Participants(scope, batch, captures, w.nextLease)|
    ensures TaskLeases(Participants(scope, batch, captures, w.nextLease)[i], |w.tasks| + i, w1.leases, w1.nextLease)
  {
    hide LeaseOnly, Ledger, Participants, Before, Range;
    var from := w.nextLease + Before(captures, i);
    assert HeldBy(w1.leases, from, |captures[i]|, Participant(|w.tasks| + i)) by {
      assert Runs(w1.leases, w.nextLease, captures, |w.tasks|);
    }
    BeforeEnd(captures, i);
    RangeMembers(from, |captures[i]|);
  }

  lemma {:induction false} BeforeEnd(captures: seq<seq<ResourceId>>, i: nat)
    requires i < |captures|
    ensures Before(captures, i) + |captures[i]| <= Before(captures, |captures|)
  {
    BeforeMonotone(captures, i + 1, |captures|);
  }

  lemma {:induction false} NewLeaseListed(w: World, w1: World, captures: seq<seq<ResourceId>>, scope: ScopeId, batch: BatchId, id: LeaseId)
    requires RetainedEach(w, w1, captures, |w.tasks|) && id in w1.leases && id !in w.leases
    ensures id < w1.nextLease && Listed(w1.leases[id], id, w.tasks + Participants(scope, batch, captures, w.nextLease))
  {
    hide LeaseOnly, Ledger, Participants, Before, Range;
    var i := BeforeCovers(captures, |captures|, id - w.nextLease);
    var from := w.nextLease + Before(captures, i);
    assert HeldBy(w1.leases, from, |captures[i]|, Participant(|w.tasks| + i)) by {
      assert Runs(w1.leases, w.nextLease, captures, |w.tasks|);
    }
    RangeMembers(from, |captures[i]|);
    var added := Participants(scope, batch, captures, w.nextLease);
    assert (w.tasks + added)[|w.tasks| + i] == added[i];
  }

  // ------------------------------------------------------------------- work table ---

  ghost predicate BatchOk(b: Batch, id: BatchId, tasks: seq<Task>) {
    && G.Valid(b.group) && |b.tasks| == |b.group.completions|
    && forall i | 0 <= i < |b.tasks| ::
         && b.tasks[i] < |tasks| && tasks[b.tasks[i]].site == Some((id, i)) && tasks[b.tasks[i]].scope == b.scope
         && (tasks[b.tasks[i]].done <==> b.group.completions[i].Some?)
  }

  ghost predicate TaskPlaced(task: Task, t: TaskId, batches: seq<Batch>, callbacks: set<TaskId>) {
    match task.site
    case None => task.retained == [] && (t in callbacks <==> !task.done)
    case Some(site) => t !in callbacks && site.0 < |batches| && site.1 < |batches[site.0].tasks| && batches[site.0].tasks[site.1] == t
  }

  /** Participants and groups agree; a callback is retained by the root exactly until it
      settles. */
  ghost predicate WorkTable(tasks: seq<Task>, batches: seq<Batch>, callbacks: set<TaskId>) {
    && (forall b | 0 <= b < |batches| :: BatchOk(batches[b], b, tasks))
    && (forall t | 0 <= t < |tasks| :: TaskPlaced(tasks[t], t, batches, callbacks))
    && (forall t | t in callbacks :: t < |tasks|)
  }

  /** Work that still runs is work the root still holds. */
  lemma {:induction false} RunningIsHeld(w: World, t: TaskId)
    requires WorkTable(w.tasks, w.batches, w.callbacks) && t < |w.tasks| && !w.tasks[t].done
    ensures t in w.callbacks
         || exists b | 0 <= b < |w.batches| :: w.batches[b].group.live && w.batches[b].scope == w.tasks[t].scope
  {
    assert TaskPlaced(w.tasks[t], t, w.batches, w.callbacks);
    if w.tasks[t].site.Some? {
      var (b, i) := w.tasks[t].site.value;
      assert BatchOk(w.batches[b], b, w.tasks);
      G.NoneUnsettled(w.batches[b].group.completions);
    }
  }

  lemma {:induction false} SettleWork(w: World, b: BatchId, i: nat, c: G.Completion)
    requires WorkTable(w.tasks, w.batches, w.callbacks) && Pending(w, b, i)
    ensures var t := w.batches[b].tasks[i];
            WorkTable(w.tasks[t := w.tasks[t].(dynamic := [], done := true)],
                      w.batches[b := w.batches[b].(group := G.Settle(w.batches[b].group, i, c))], w.callbacks)
  {
    var t := w.batches[b].tasks[i];
    assert BatchOk(w.batches[b], b, w.tasks);
    G.SettleValid(w.batches[b].group, i, c);
    var tasks := w.tasks[t := w.tasks[t].(dynamic := [], done := true)];
    var batches := w.batches[b := w.batches[b].(group := G.Settle(w.batches[b].group, i, c))];
    forall b' | 0 <= b' < |batches| ensures BatchOk(batches[b'], b', tasks) {
      assert BatchOk(w.batches[b'], b', w.tasks);
    }
    forall u | 0 <= u < |tasks| ensures TaskPlaced(tasks[u], u, batches, w.callbacks) {
      assert TaskPlaced(w.tasks[u], u, w.batches, w.callbacks);
    }
  }

  lemma {:induction false} PublishWork(w: World, b: BatchId, selected: seq<nat>)
    requires WorkTable(w.tasks, w.batches, w.callbacks) && Publish(w, b, selected).Some?
    ensures WorkTable(w.tasks, Publish(w, b, selected).value.batches, w.callbacks)
  {
    var batches := Publish(w, b, selected).value.batches;
    assert BatchOk(w.batches[b], b, w.tasks);
    G.PublishValid(w.batches[b].group, selected);
    forall b' | 0 <= b' < |batches| ensures BatchOk(batches[b'], b', w.tasks) {
      assert BatchOk(w.batches[b'], b', w.tasks);
    }
    forall u | 0 <= u < |w.tasks| ensures TaskPlaced(w.tasks[u], u, batches, w.callbacks) {
      assert TaskPlaced(w.tasks[u], u, w.batches, w.callbacks);
    }
  }

  lemma {:induction false} LaunchWork(tasks: seq<Task>, batches: seq<Batch>, callbacks: set<TaskId>, scope: ScopeId,
                   captures: seq<seq<ResourceId>>, lease: LeaseId)
    requires WorkTable(tasks, batches, callbacks)
    ensures WorkTable(tasks + Participants(scope, |batches|, captures, lease),
                      batches + [Batch(scope, G.Launch(|captures|), Range(|tasks|, |captures|))], callbacks)
  {
    hide Participants, Before, Range, G.Valid;
    var added := Participants(scope, |batches|, captures, lease);
    var tasks' := tasks + added;
    var last := Batch(scope, G.Launch(|captures|), Range(|tasks|, |captures|));
    var batches' := batches + [last];
    G.LaunchValid(|captures|);
    assert BatchOk(last, |batches|, tasks');
    forall b | 0 <= b < |batches| ensures BatchOk(batches'[b], b, tasks') {
      assert BatchOk(batches[b], b, tasks);
    }
    forall t | 0 <= t < |tasks'| ensures TaskPlaced(tasks'[t], t, batches', callbacks) {
      if t < |tasks| {
        assert TaskPlaced(tasks[t], t, batches, callbacks);
      } else {
        assert tasks'[t] == added[t - |tasks|];
        assert batches'[|batches|] == last && last.tasks[t - |tasks|] == t;
      }
    }
  }

  lemma {:induction false} CallbackWork(tasks: seq<Task>, batches: seq<Batch>, callbacks: set<TaskId>, task: Task)
    requires WorkTable(tasks, batches, callbacks) && task.site == None && task.retained == [] && !task.done
    ensures WorkTable(tasks + [task], batches, callbacks + {|tasks|})
  {
    var tasks' := tasks + [task];
    forall b | 0 <= b < |batches| ensures BatchOk(batches[b], b, tasks') {
      assert BatchOk(batches[b], b, tasks);
    }
    forall t | 0 <= t < |tasks'| ensures TaskPlaced(tasks'[t], t, batches, callbacks + {|tasks|}) {
      if t < |tasks| { assert TaskPlaced(tasks[t], t, batches, callbacks); }
    }
  }

  lemma {:induction false} CallbackDoneWork(tasks: seq<Task>, batches: seq<Batch>, callbacks: set<TaskId>, t: TaskId)
    requires WorkTable(tasks, batches, callbacks) && t in callbacks
    ensures WorkTable(tasks[t := tasks[t].(dynamic := [], done := true)], batches, callbacks - {t})
  {
    var tasks' := tasks[t := tasks[t].(dynamic := [], done := true)];
    assert TaskPlaced(tasks[t], t, batches, callbacks);
    forall b | 0 <= b < |batches| ensures BatchOk(batches[b], b, tasks') {
      assert BatchOk(batches[b], b, tasks);
    }
    forall u | 0 <= u < |tasks'| ensures TaskPlaced(tasks'[u], u, batches, callbacks - {t}) {
      assert TaskPlaced(tasks[u], u, batches, callbacks);
    }
  }

  /** Tasks that differ only in their dynamic lists are placed alike. */
  lemma {:induction false} DynamicWork(tasks: seq<Task>, batches: seq<Batch>, callbacks: set<TaskId>, t: TaskId, ids: seq<LeaseId>)
    requires WorkTable(tasks, batches, callbacks) && t < |tasks|
    ensures WorkTable(tasks[t := tasks[t].(dynamic := ids)], batches, callbacks)
  {
    var tasks' := tasks[t := tasks[t].(dynamic := ids)];
    forall b | 0 <= b < |batches| ensures BatchOk(batches[b], b, tasks') {
      assert BatchOk(batches[b], b, tasks);
    }
    forall u | 0 <= u < |tasks'| ensures TaskPlaced(tasks'[u], u, batches, callbacks) {
      assert TaskPlaced(tasks[u], u, batches, callbacks);
    }
  }
}
