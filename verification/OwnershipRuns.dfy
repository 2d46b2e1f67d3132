/** What every interleaving of ownership events keeps, and what holds over whole runs. */
module OwnershipRuns {
  import opened Wrappers
  import G = Groups
  import opened Ownership
  import opened OwnershipLeases
  import opened OwnershipLifecycle
  import opened OwnershipTasks
  import opened OwnershipDrain

  ghost predicate Inv(w: World) {
    && Ledger(w.resources, w.leases, w.nextLease)
    && Lifecycle(w.resources)
    && LeaseTable(w.tasks, w.leases, w.nextLease)
    && InitialIds(w.scopes, w.resources, w.leases, w.nextLease)
    && WorkTable(w.tasks, w.batches, w.callbacks)
    && Tree(w.parents, w.scopes, w.tasks)
    && Homes(w.scopes, w.resources)
    && Drains(w.parents, w.scopes, w.resources)
  }

  /** What a step may do to the resources. */
  ghost predicate Stepped(w: World, w': World) {
    Inv(w') && Monotone(w.resources, w'.resources)
  }

  lemma {:induction false} StartInv()
    ensures Inv(Start())
  {
  }

  // ----------------------------------------------------------------- initial leases ---

  lemma {:induction false} InitialShrink(scopes: seq<Scope>, rs: seq<Resource>, leases: map<LeaseId, Lease>, next: LeaseId,
                      rs': seq<Resource>, gone: set<LeaseId>)
    requires InitialIds(scopes, rs, leases, next) && |rs'| == |rs|
    requires forall r | 0 <= r < |rs| :: rs'[r].initial == None || rs'[r].initial == rs[r].initial
    ensures InitialIds(scopes, rs', leases - gone, next)
  {
    forall r | 0 <= r < |rs'| && rs'[r].initial.Some? ensures InitialOrGone(leases - gone, next, rs'[r].initial.value) {
      assert InitialOrGone(leases, next, rs[r].initial.value);
    }
    forall s, id | 0 <= s < |scopes| && id in scopes[s].exits ensures InitialOrGone(leases - gone, next, id) {
      assert InitialOrGone(leases, next, id);
    }
  }

  lemma {:induction false} InitialGrow(scopes: seq<Scope>, rs: seq<Resource>, leases: map<LeaseId, Lease>, next: LeaseId,
                    rs': seq<Resource>, leases': map<LeaseId, Lease>, next': LeaseId)
    requires InitialIds(scopes, rs, leases, next) && |rs'| == |rs| && next <= next'
    requires forall r | 0 <= r < |rs| :: rs'[r].initial == rs[r].initial
    requires forall id | id in leases' && id < next :: id in leases && leases'[id] == leases[id]
    ensures InitialIds(scopes, rs', leases', next')
  {
    forall r | 0 <= r < |rs'| && rs'[r].initial.Some? ensures InitialOrGone(leases', next', rs'[r].initial.value) {
      assert InitialOrGone(leases, next, rs[r].initial.value);
    }
    forall s, id | 0 <= s < |scopes| && id in scopes[s].exits ensures InitialOrGone(leases', next', id) {
      assert InitialOrGone(leases, next, id);
    }
  }

  lemma {:induction false} InitialSame(scopes: seq<Scope>, rs: seq<Resource>, leases: map<LeaseId, Lease>, next: LeaseId,
                    scopes': seq<Scope>, rs': seq<Resource>)
    requires InitialIds(scopes, rs, leases, next)
    requires forall s, id | 0 <= s < |scopes'| && id in scopes'[s].exits ::
               (s < |scopes| && id in scopes[s].exits) || InitialOrGone(leases, next, id)
    requires forall r | 0 <= r < |rs'| && rs'[r].initial.Some? ::
               (r < |rs| && rs'[r].initial == rs[r].initial) || InitialOrGone(leases, next, rs'[r].initial.value)
    ensures InitialIds(scopes', rs', leases, next)
  {
  }

  lemma {:induction false} HomesKept(scopes: seq<Scope>, rs: seq<Resource>, rs': seq<Resource>)
    requires Homes(scopes, rs) && Monotone(rs, rs') && |rs'| == |rs|
    ensures Homes(scopes, rs')
  {
    forall r | 0 <= r < |rs'| ensures rs'[r].scope < |scopes| {
      assert Advance(rs[r], rs'[r]);
    }
  }

  lemma {:induction false} LeaseOnlyInitial(rs: seq<Resource>, rs': seq<Resource>)
    requires LeaseOnly(rs, rs')
    ensures |rs'| == |rs| && forall r | 0 <= r < |rs| :: rs'[r].initial == rs[r].initial
  {
  }

  // ------------------------------------------------------------------------- leases ---

  lemma {:induction false} UseStartsInv(w: World, x: Exec, r: ResourceId, kind: string)
    requires Inv(w) && UseStarts(w, x, r, kind).Some?
    ensures Stepped(w, UseStarts(w, x, r, kind).value)
  {
    var o := OwnerOf(w, x);
    var w' := Grant(w, r, o, Direct);
    GrantLedger(w, r, o, Direct);
    GrantLeaseOnly(w, r, o, Direct);
    hide Ledger, LeaseOnly, Lifecycle, LeaseTable, InitialIds, WorkTable, Tree, Homes, Drains, Monotone;
    LeaseOnlyLife(w.resources, w'.resources);
    GrantDirectTable(w.tasks, w.leases, w.nextLease, Lease(r, o, Direct));
    LeaseOnlyInitial(w.resources, w'.resources);
    InitialGrow(w.scopes, w.resources, w.leases, w.nextLease, w'.resources, w'.leases, w'.nextLease);
    HomesKept(w.scopes, w.resources, w'.resources);
    DrainsKept(w.parents, w.scopes, w.resources, w'.resources);
  }

  /** Calling releases that hold no participant lease. */
  lemma {:induction false} ReleaseInv(w: World, ids: seq<LeaseId>)
    requires Inv(w) && forall id | id in ids && id in w.leases :: !w.leases[id].holder.Participant?
    ensures Stepped(w, ReleaseAll(w, ids))
  {
    hide Ledger, LeaseOnly, Lifecycle, LeaseTable, InitialIds, WorkTable, Tree, Homes, Drains, Monotone;
    var w' := ReleaseAll(w, ids);
    ReleaseAllLedger(w, ids);
    LeaseOnlyLife(w.resources, w'.resources);
    TableShrinks(w.tasks, w.leases, w.nextLease, Ids(ids));
    LeaseOnlyInitial(w.resources, w'.resources);
    InitialShrink(w.scopes, w.resources, w.leases, w.nextLease, w'.resources, Ids(ids));
    HomesKept(w.scopes, w.resources, w'.resources);
    DrainsKept(w.parents, w.scopes, w.resources, w'.resources);
  }

  lemma {:induction false} UseEndsInv(w: World, id: LeaseId)
    requires Inv(w) && UseEnds(w, id).Some?
    ensures Stepped(w, UseEnds(w, id).value)
  {
    hide Inv, Stepped;
    ReleaseInv(w, [id]);
    assert ReleaseAll(w, [id]) == Release(w, id) by {
      assert [id][1..] == [];
    }
  }

  // -------------------------------------------------------------- resource progress ---

  /** Records changed without touching leases, scopes or initial ids. */
  lemma {:induction false} RecordsInv(w: World, w': World)
    requires Inv(w) && w' == w.(resources := w'.resources, nextFailure := w'.nextFailure)
    requires |w'.resources| == |w.resources| && Lifecycle(w'.resources) && Monotone(w.resources, w'.resources)
    requires forall r | 0 <= r < |w.resources| :: w'.resources[r].leases == w.resources[r].leases
    requires forall r | 0 <= r < |w.resources| :: w'.resources[r].initial == None || w'.resources[r].initial == w.resources[r].initial
    ensures Stepped(w, w')
  {
    LedgerSame(w.resources, w'.resources, w.leases, w.nextLease);
    hide Ledger, Lifecycle, LeaseTable, InitialIds, WorkTable, Tree, Homes, Drains, Monotone;
    InitialShrink(w.scopes, w.resources, w.leases, w.nextLease, w'.resources, {});
    assert w.leases - {} == w.leases;
    HomesKept(w.scopes, w.resources, w'.resources);
    DrainsKept(w.parents, w.scopes, w.resources, w'.resources);
  }

  lemma {:induction false} CloseProgressInv(w: World, e: Event)
    requires Inv(w) && Next(w, e).Some?
    requires e.EDeadlineFires? || e.ECloseStarts? || e.ECloseEnds? || e.ETimerFires?
    ensures Stepped(w, Next(w, e).value)
  {
    CloseProgressLife(w, e);
    hide Ledger, Lifecycle, LeaseTable, InitialIds, WorkTable, Tree, Homes, Drains, Monotone;
    RecordsInv(w, Next(w, e).value);
  }

  /** The initial release a close by the creator calls first. */
  ghost function CreatorRelease(w: World, x: Exec, r: ResourceId): seq<LeaseId>
    requires r < |w.resources|
  {
    if w.resources[r].creator == x.task && w.resources[r].initial.Some? then [w.resources[r].initial.value] else []
  }

  lemma {:induction false} CreatorReleaseInitial(w: World, x: Exec, r: ResourceId)
    requires InitialIds(w.scopes, w.resources, w.leases, w.nextLease) && r < |w.resources|
    ensures forall id | id in CreatorRelease(w, x, r) && id in w.leases :: !w.leases[id].holder.Participant?
  {
    if CreatorRelease(w, x, r) != [] {
      assert InitialOrGone(w.leases, w.nextLease, w.resources[r].initial.value);
    }
  }

  lemma {:induction false} CloseFrame(w: World, x: Exec, r: ResourceId, kind: string, deadline: bool)
    requires CloseCall(w, x, r, kind, deadline).Some?
    ensures r < |w.resources| && r < |ReleaseAll(w, CreatorRelease(w, x, r)).resources|
    ensures CloseCall(w, x, r, kind, deadline).value == ClosedBy(ReleaseAll(w, CreatorRelease(w, x, r)), r, deadline)
  {
    var ids := CreatorRelease(w, x, r);
    assert ids != [] ==> ids[1..] == [];
  }

  ghost function ClosedBy(w: World, r: ResourceId, deadline: bool): World
    requires r < |w.resources|
  {
    var res := if w.resources[r].closing == Unstarted then Begin(w.resources[r]) else w.resources[r];
    var timed := if deadline && res.closing != Finished then res.(deadlines := res.deadlines + 1) else res;
    w.(resources := w.resources[r := timed])
  }

  lemma {:induction false} CloseCallInv(w: World, x: Exec, r: ResourceId, kind: string, deadline: bool)
    requires Inv(w) && CloseCall(w, x, r, kind, deadline).Some?
    ensures Stepped(w, CloseCall(w, x, r, kind, deadline).value)
  {
    hide Inv, CloseCall, Stepped, ClosedBy, CreatorRelease;
    CloseFrame(w, x, r, kind, deadline);
    assert InitialIds(w.scopes, w.resources, w.leases, w.nextLease) by { InvInitial(w); }
    CreatorReleaseInitial(w, x, r);
    var ids := CreatorRelease(w, x, r);
    ReleaseInv(w, ids);
    var w1 := ReleaseAll(w, ids);
    SteppedInv(w, w1);
    CloseRecord(w1, r, deadline);
    StepChain(w, w1, ClosedBy(w1, r, deadline));
  }

  lemma {:induction false} InvInitial(w: World)
    requires Inv(w)
    ensures InitialIds(w.scopes, w.resources, w.leases, w.nextLease)
  {
  }

  lemma {:induction false} SteppedInv(a: World, b: World)
    requires Stepped(a, b)
    ensures Inv(b)
  {
  }

  lemma {:induction false} StepChain(a: World, b: World, c: World)
    requires Stepped(a, b) && Stepped(b, c)
    ensures Stepped(a, c)
  {
    hide Inv;
    MonotoneTrans(a.resources, b.resources, c.resources);
  }

  /** The close itself: begun at most once, with a deadline armed only on an unsettled close. */
  lemma {:induction false} CloseRecord(w: World, r: ResourceId, deadline: bool)
    requires Inv(w) && r < |w.resources|
    ensures Stepped(w, ClosedBy(w, r, deadline))
  {
    hide Ledger, LeaseTable, InitialIds, WorkTable, Tree, Homes, Drains;
    var timed := ClosedBy(w, r, deadline).resources[r];
    assert ResourceOk(w.resources[r]);
    ReplaceLife(w.resources, r, timed);
    hide Lifecycle, Monotone;
    RecordsInv(w, ClosedBy(w, r, deadline));
  }

  // -------------------------------------------------------------------- registration ---

  lemma {:induction false} RegisterParts(w: World, x: Exec, kind: string, idempotent: bool, scopeManaged: bool, limited: bool) returns (w1: World, res: Resource)
    requires Inv(w) && Register(w, x, kind, idempotent, scopeManaged, limited).Some?
    ensures var w' := Register(w, x, kind, idempotent, scopeManaged, limited).value;
            && Ledger(w'.resources, w'.leases, w'.nextLease)
            && w'.resources == w.resources + [res] && res.scope == x.scope
            && |w'.tasks| == |w.tasks| && |w'.scopes| == |w.scopes|
  {
    var w' := Register(w, x, kind, idempotent, scopeManaged, limited).value;
    res := w'.resources[|w.resources|];
    var plain := Fresh(kind, x.scope, idempotent, scopeManaged, limited);
    LedgerAppend(w.resources, plain, w.leases, w.nextLease);
    w1 := w.(resources := w.resources + [plain]);
    if x.task.Some? {
      var w2 := Grant(w1, |w.resources|, OwnerOf(w1, x), Initial(x.task.value));
      GrantLedger(w1, |w.resources|, OwnerOf(w1, x), Initial(x.task.value));
      LedgerSame(w2.resources, w'.resources, w2.leases, w2.nextLease);
    }
  }

  lemma {:induction false} RegisterInitial(w: World, x: Exec, kind: string, idempotent: bool, scopeManaged: bool, limited: bool)
    requires Inv(w) && Register(w, x, kind, idempotent, scopeManaged, limited).Some?
    ensures var w' := Register(w, x, kind, idempotent, scopeManaged, limited).value;
            InitialIds(w'.scopes, w'.resources, w'.leases, w'.nextLease)
  {
    var w' := Register(w, x, kind, idempotent, scopeManaged, limited).value;
    assert forall id | id in w.leases :: id < w.nextLease;
    hide Ledger, Lifecycle, LeaseTable, WorkTable, Tree, Homes, Drains;
    InitialGrow(w.scopes, w.resources, w.leases, w.nextLease, w.resources, w'.leases, w'.nextLease);
    hide InitialIds;
    if x.task.Some? {
      assert InitialOrGone(w'.leases, w'.nextLease, w.nextLease);
    }
    InitialSame(w.scopes, w.resources, w'.leases, w'.nextLease, w'.scopes, w'.resources);
  }

  lemma {:induction false} RegisterTree(w: World, x: Exec, kind: string, idempotent: bool, scopeManaged: bool, limited: bool)
    requires Inv(w) && Register(w, x, kind, idempotent, scopeManaged, limited).Some?
    ensures var w' := Register(w, x, kind, idempotent, scopeManaged, limited).value;
            Tree(w'.parents, w'.scopes, w'.tasks) && Drains(w'.parents, w'.scopes, w'.resources) && Homes(w'.scopes, w'.resources)
  {
    var w' := Register(w, x, kind, idempotent, scopeManaged, limited).value;
    var w1, res := RegisterParts(w, x, kind, idempotent, scopeManaged, limited);
    hide Ledger, Lifecycle, LeaseTable, InitialIds, WorkTable, Drains;
    assert ScopeOk(w.scopes[x.scope], x.scope) && Sealed(w.parents, w.scopes, x.scope);
    DrainsAppend(w.parents, w.scopes, w.tasks, w.resources, res);
    TreeUpdate(w.parents, w.scopes, w.tasks, x.scope, w'.scopes[x.scope]);
    assert DrainOk(w.parents, x.scope, w'.scopes[x.scope].drain, w'.resources) by {
      assert Drains(w.parents, w.scopes, w'.resources);
      DrainAt(w.parents, w.scopes, w'.resources, x.scope);
    }
    DrainsUpdate(w.parents, w.scopes, w'.resources, x.scope, w'.scopes[x.scope]);
    assert w'.scopes == w.scopes[x.scope := w'.scopes[x.scope]];
    hide Tree;
    TreeTasks(w.parents, w'.scopes, w.tasks, w'.tasks);
  }

  lemma {:induction false} DrainAt(parents: seq<Option<ScopeId>>, scopes: seq<Scope>, rs: seq<Resource>, s: ScopeId)
    requires Drains(parents, scopes, rs) && s < |scopes|
    ensures DrainOk(parents, s, scopes[s].drain, rs)
  {
  }

  lemma {:induction false} RegisterInv(w: World, x: Exec, kind: string, idempotent: bool, scopeManaged: bool, limited: bool)
    requires Inv(w) && Register(w, x, kind, idempotent, scopeManaged, limited).Some?
    ensures Stepped(w, Register(w, x, kind, idempotent, scopeManaged, limited).value)
  {
    hide Ledger, Lifecycle, LeaseTable, InitialIds, WorkTable, Tree, Homes, Drains, Monotone;
    var w1, res := RegisterParts(w, x, kind, idempotent, scopeManaged, limited);
    RegisterInitial(w, x, kind, idempotent, scopeManaged, limited);
    RegisterTree(w, x, kind, idempotent, scopeManaged, limited);
    RegisterLife(w, x, kind, idempotent, scopeManaged, limited);
    if x.task.Some? {
      var t := x.task.value;
      GrantInitialTable(w.tasks, w.leases, w.nextLease, Lease(|w.resources|, OwnerOf(w, x), Initial(t)), t);
      DynamicWork(w.tasks, w.batches, w.callbacks, t, w.tasks[t].dynamic + [w.nextLease]);
    }
  }

  // --------------------------------------------------------------------------- tasks ---

  lemma {:induction false} LaunchInv(w: World, x: Exec, captures: seq<seq<ResourceId>>, native_: bool)
    requires Inv(w) && Launch(w, x, captures, native_).Some?
    ensures Stepped(w, Launch(w, x, captures, native_).value)
  {
    hide Ledger, Lifecycle, LeaseTable, InitialIds, WorkTable, Homes, Drains, Monotone, LeaseOnly, Runs, Participants, Range, Before, RetainEach;
    var w0 := w.(nextOwner := w.nextOwner + 1);
    var child := x.(owner := Some(LaunchKey(w, x, native_)));
    var w1 := RetainEach(w0, captures, child, |w.tasks|).value;
    RetainEachLedger(w0, captures, child, |w.tasks|);
    LeaseOnlyLife(w.resources, w1.resources);
    LaunchTable(w0, w1, captures, x.scope, |w.batches|);
    LeaseOnlyInitial(w.resources, w1.resources);
    InitialGrow(w.scopes, w.resources, w.leases, w.nextLease, w1.resources, w1.leases, w1.nextLease);
    HomesKept(w.scopes, w.resources, w1.resources);
    DrainsKept(w.parents, w.scopes, w.resources, w1.resources);
    LaunchWork(w.tasks, w.batches, w.callbacks, x.scope, captures, w.nextLease);
    TreeTasks(w.parents, w.scopes, w.tasks, w.tasks + Participants(x.scope, |w.batches|, captures, w.nextLease));
  }

  /** Everything but the work table, when a task that hosts nothing finishes. */
  lemma {:induction false} FinishTaskParts(w: World, t: TaskId)
    requires Inv(w) && t < |w.tasks| && !Hosts(w, t)
    ensures var w' := FinishTask(w, t);
            && w' == w.(resources := w'.resources, leases := w'.leases, tasks := w.tasks[t := w.tasks[t].(dynamic := [], done := true)])
            && w'.leases == w.leases - Ids(w.tasks[t].retained + w.tasks[t].dynamic)
            && Ledger(w'.resources, w'.leases, w'.nextLease) && Lifecycle(w'.resources) && Monotone(w.resources, w'.resources)
            && LeaseTable(w'.tasks, w'.leases, w'.nextLease) && InitialIds(w'.scopes, w'.resources, w'.leases, w'.nextLease)
            && Tree(w'.parents, w'.scopes, w'.tasks) && Homes(w'.scopes, w'.resources) && Drains(w'.parents, w'.scopes, w'.resources)
  {
    hide Ledger, Lifecycle, LeaseTable, InitialIds, WorkTable, Homes, Drains, Monotone, LeaseOnly;
    var ids := w.tasks[t].retained + w.tasks[t].dynamic;
    var w1 := ReleaseAll(w, ids);
    ReleaseAllLedger(w, ids);
    LeaseOnlyLife(w.resources, w1.resources);
    FinishTable(w.tasks, w.leases, w.nextLease, t);
    LeaseOnlyInitial(w.resources, w1.resources);
    InitialShrink(w.scopes, w.resources, w.leases, w.nextLease, w1.resources, Ids(ids));
    HomesKept(w.scopes, w.resources, w1.resources);
    DrainsKept(w.parents, w.scopes, w.resources, w1.resources);
    hide Tree;
    TreeTasks(w.parents, w.scopes, w.tasks, w.tasks[t := w.tasks[t].(dynamic := [], done := true)]);
  }

  lemma {:induction false} TaskSettlesInv(w: World, b: BatchId, i: nat, c: G.Completion)
    requires Inv(w) && TaskSettles(w, b, i, c).Some?
    ensures Stepped(w, TaskSettles(w, b, i, c).value)
  {
    hide Ledger, Lifecycle, LeaseTable, InitialIds, WorkTable, Tree, Homes, Drains, Monotone, FinishTask;
    var t := w.batches[b].tasks[i];
    FinishTaskParts(w, t);
    SettleWork(w, b, i, c);
  }

  lemma {:induction false} PublishInv(w: World, b: BatchId, selected: seq<nat>)
    requires Inv(w) && Publish(w, b, selected).Some?
    ensures Stepped(w, Publish(w, b, selected).value)
  {
    hide Ledger, Lifecycle, LeaseTable, InitialIds, WorkTable, Tree, Homes, Drains;
    PublishWork(w, b, selected);
  }

  lemma {:induction false} CallbackStartsInv(w: World, s: ScopeId, from: Option<Exec>)
    requires Inv(w) && CallbackStarts(w, s, from).Some?
    ensures Stepped(w, CallbackStarts(w, s, from).value)
  {
    hide Ledger, Lifecycle, LeaseTable, InitialIds, WorkTable, Tree, Homes, Drains;
    var w' := CallbackStarts(w, s, from).value;
    var task := w'.tasks[|w.tasks|];
    assert w'.tasks == w.tasks + [task];
    AppendTaskTable(w.tasks, w.leases, w.nextLease, task);
    CallbackWork(w.tasks, w.batches, w.callbacks, task);
    TreeTasks(w.parents, w.scopes, w.tasks, w'.tasks);
  }

  lemma {:induction false} CallbackSettlesInv(w: World, t: TaskId)
    requires Inv(w) && CallbackSettles(w, t).Some?
    ensures Stepped(w, CallbackSettles(w, t).value)
  {
    hide Ledger, Lifecycle, LeaseTable, InitialIds, WorkTable, Tree, Homes, Drains, Monotone, FinishTask;
    FinishTaskParts(w, t);
    CallbackDoneWork(w.tasks, w.batches, w.callbacks, t);
  }

  // -------------------------------------------------------------------------- scopes ---

  lemma {:induction false} OpenScopeInv(w: World, x: Exec)
    requires Inv(w) && OpenScope(w, x).Some?
    ensures Stepped(w, OpenScope(w, x).value)
  {
    var w' := OpenScope(w, x).value;
    assert |w.parents| == |w.scopes|;
    assert Homes(w'.scopes, w'.resources);
    hide Ledger, Lifecycle, LeaseTable, InitialIds, WorkTable, Tree, Homes, Drains;
    TreeOpen(w, x);
    InitialSame(w.scopes, w.resources, w.leases, w.nextLease, w'.scopes, w.resources);
    DrainsOpen(w.parents, Some(x.scope), w.scopes, w.resources, w'.scopes[|w.scopes|]);
  }

  /** One scope's record replaced where only the drain's own position matters. */
  lemma {:induction false} ScopeRecordInv(w: World, s: ScopeId, scope: Scope)
    requires Inv(w) && s < |w.scopes|
    requires Tree(w.parents, w.scopes[s := scope], w.tasks)
    requires DrainOk(w.parents, s, scope.drain, w.resources)
    requires forall id | id in scope.exits :: id in w.scopes[s].exits
    ensures Stepped(w, w.(scopes := w.scopes[s := scope]))
  {
    hide Ledger, Lifecycle, LeaseTable, InitialIds, WorkTable, Tree, Drains, DrainOk;
    InitialSame(w.scopes, w.resources, w.leases, w.nextLease, w.scopes[s := scope], w.resources);
    DrainsUpdate(w.parents, w.scopes, w.resources, s, scope);
  }

  lemma {:induction false} BodyEndsInv(w: World, s: ScopeId)
    requires Inv(w) && BodyEnds(w, s).Some?
    ensures Stepped(w, BodyEnds(w, s).value)
  {
    var w' := BodyEnds(w, s).value;
    var scope := w'.scopes[s];
    var ids := if s == 0 then [] else w.scopes[s].exits;
    forall id | id in ids && id in w.leases ensures !w.leases[id].holder.Participant? {
      assert InitialOrGone(w.leases, w.nextLease, id);
    }
    hide Ledger, Lifecycle, LeaseTable, InitialIds, WorkTable, Homes, Drains, LeaseOnly;
    var w1 := ReleaseAll(w, ids);
    ReleaseAllLedger(w, ids);
    assert ScopeOk(w.scopes[s], s) && Sealed(w.parents, w.scopes, s);
    TreeUpdate(w.parents, w.scopes, w.tasks, s, scope);
    hide Tree;
    ReleaseInv(w, ids);
    assert w' == w1.(scopes := w1.scopes[s := scope]);
    ScopeRecordInv(w1, s, scope);
  }

  lemma {:induction false} DrainTurnsInv(w: World, s: ScopeId)
    requires Inv(w) && DrainTurns(w, s).Some?
    ensures Stepped(w, DrainTurns(w, s).value)
  {
    var w1 := w.(resources := Armed(w, s));
    ArmedLife(w, s);
    assert forall r | 0 <= r < |w.resources| :: w1.resources[r].leases == w.resources[r].leases && w1.resources[r].initial == w.resources[r].initial;
    hide Ledger, Lifecycle, LeaseTable, InitialIds, WorkTable, Tree, Homes, Drains, Monotone, Armed, Quiet;
    RecordsInv(w, w1);
    if Quiet(w, s) {
      var scope := w.scopes[s].(state := Closing, drain := Visiting(|w.resources|, None));
      QuietSeals(w, s);
      TreeTurn(w, s, scope, |w.resources|);
      assert Visited(w.parents, s, w1.resources, |w1.resources|, None);
      ScopeRecordInv(w1, s, scope);
    }
  }

  lemma {:induction false} NoOpenChild(w: World, s: ScopeId)
    requires Nesting(w.parents) && |w.parents| == |w.scopes| && s < |w.scopes|
    requires forall c | 0 <= c < |w.scopes| && c != s && Inside(w.parents, c, s) :: w.scopes[c].state == Closed
    ensures forall c | 0 < c < |w.scopes| && w.scopes[c].state != Closed && c != s :: w.parents[c] != Some(s)
  {
    forall c | 0 < c < |w.scopes| && w.parents[c] == Some(s) ensures Inside(w.parents, c, s) {
      assert Inside(w.parents, s, s);
    }
  }

  lemma {:induction false} TreeTurn(w: World, s: ScopeId, scope: Scope, n: nat)
    requires Tree(w.parents, w.scopes, w.tasks) && s < |w.scopes| && w.scopes[s].drain == Quiescing
    requires forall c | 0 <= c < |w.scopes| && c != s && Inside(w.parents, c, s) :: w.scopes[c].state == Closed
    requires scope == w.scopes[s].(state := Closing, drain := Visiting(n, None))
    ensures Tree(w.parents, w.scopes[s := scope], w.tasks)
  {
    assert ScopeOk(w.scopes[s], s) && Sealed(w.parents, w.scopes, s);
    NoOpenChild(w, s);
    TreeUpdate(w.parents, w.scopes, w.tasks, s, scope);
  }

  /** A drain that has begun closing moves on, or its scope closes. */
  lemma {:induction false} TreeMove(w: World, s: ScopeId, scope: Scope)
    requires Tree(w.parents, w.scopes, w.tasks) && s < |w.scopes| && ClosingBegun(w.scopes[s])
    requires ClosingBegun(scope) && scope.host == w.scopes[s].host
    requires scope.state == w.scopes[s].state || (scope.state == Closed && scope.drain.Drained?)
    requires w.scopes[s].state == Closed ==> scope.state == Closed && scope.drain.Drained?
    ensures Tree(w.parents, w.scopes[s := scope], w.tasks)
  {
    assert ScopeOk(w.scopes[s], s) && Sealed(w.parents, w.scopes, s);
    NoOpenChild(w, s);
    TreeUpdate(w.parents, w.scopes, w.tasks, s, scope);
  }

  lemma {:induction false} VisitFrame(w: World, s: ScopeId)
    requires DrainVisits(w, s).Some?
    ensures var w' := DrainVisits(w, s).value;
            && w'.scopes == w.scopes[s := w'.scopes[s]]
            && w' == w.(resources := w'.resources, nextFailure := w'.nextFailure, scopes := w'.scopes)
            && |w'.resources| == |w.resources|
            && forall r | 0 <= r < |w.resources| ::
                 w'.resources[r].leases == w.resources[r].leases && w'.resources[r].initial == w.resources[r].initial
  {
  }

  lemma {:induction false} VisitRecords(w: World, s: ScopeId)
    requires Inv(w) && DrainVisits(w, s).Some?
    ensures var w' := DrainVisits(w, s).value;
            Stepped(w, w.(resources := w'.resources, nextFailure := w'.nextFailure))
  {
    hide Ledger, Lifecycle, LeaseTable, InitialIds, WorkTable, Tree, Homes, Drains, Monotone, DrainVisits;
    VisitFrame(w, s);
    var w' := DrainVisits(w, s).value;
    DrainVisitsLife(w, s);
    RecordsInv(w, w.(resources := w'.resources, nextFailure := w'.nextFailure));
  }

  lemma {:induction false} DrainVisitsInv(w: World, s: ScopeId)
    requires Inv(w) && DrainVisits(w, s).Some?
    ensures Stepped(w, DrainVisits(w, s).value)
  {
    var w' := DrainVisits(w, s).value;
    assert ScopeOk(w.scopes[s], s) && Sealed(w.parents, w.scopes, s);
    DrainVisitsLife(w, s);
    DrainVisitsOk(w, s);
    hide Ledger, Lifecycle, LeaseTable, InitialIds, WorkTable, Homes, Drains, Monotone;
    TreeMove(w, s, w'.scopes[s]);
    var w1 := w.(resources := w'.resources, nextFailure := w'.nextFailure);
    hide Tree;
    assert Stepped(w, w1) by { VisitRecords(w, s); }
    DrainAt(w'.parents, w'.scopes, w'.resources, s);
    hide DrainOk, DrainVisits;
    assert w' == w1.(scopes := w1.scopes[s := w'.scopes[s]]) by { VisitFrame(w, s); }
    ScopeRecordInv(w1, s, w'.scopes[s]);
  }

  lemma {:induction false} DrainResumesInv(w: World, s: ScopeId)
    requires Inv(w) && DrainResumes(w, s).Some?
    ensures Stepped(w, DrainResumes(w, s).value)
  {
    var w' := DrainResumes(w, s).value;
    assert ScopeOk(w.scopes[s], s) && Sealed(w.parents, w.scopes, s);
    DrainResumesOk(w, s);
    hide Ledger, Lifecycle, LeaseTable, InitialIds, WorkTable, Homes, Drains;
    TreeMove(w, s, w'.scopes[s]);
    hide Tree;
    DrainAt(w'.parents, w'.scopes, w'.resources, s);
    ScopeRecordInv(w, s, w'.scopes[s]);
  }

  lemma {:induction false} ScopeClosesInv(w: World, s: ScopeId)
    requires Inv(w) && ScopeCloses(w, s).Some?
    ensures Stepped(w, ScopeCloses(w, s).value)
  {
    var w' := ScopeCloses(w, s).value;
    DrainAt(w.parents, w.scopes, w.resources, s);
    hide Ledger, Lifecycle, LeaseTable, InitialIds, WorkTable, Homes, Drains;
    TreeMove(w, s, w'.scopes[s]);
    hide Tree;
    ScopeRecordInv(w, s, w'.scopes[s]);
  }

  // ---------------------------------------------------------------------------- runs ---

  /** Every event keeps every invariant and only moves resources forward. */
  lemma {:induction false} StepInv(w: World, e: Event)
    requires Inv(w) && Next(w, e).Some?
    ensures Stepped(w, Next(w, e).value)
  {
    hide Inv, Stepped, Register, UseStarts, UseEnds, CloseCall, Launch, TaskSettles, Publish, CallbackStarts,
         CallbackSettles, OpenScope, BodyEnds, DrainTurns, DrainVisits, DrainResumes, ScopeCloses;
    match e {
      case ERegister(x, kind, idempotent, scopeManaged, limited) => RegisterInv(w, x, kind, idempotent, scopeManaged, limited);
      case EUseStarts(x, r, kind) => UseStartsInv(w, x, r, kind);
      case EUseEnds(id) => UseEndsInv(w, id);
      case ECloseCall(x, r, kind, deadline) => CloseCallInv(w, x, r, kind, deadline);
      case EDeadlineFires(r) => CloseProgressInv(w, e);
      case ECloseStarts(r) => CloseProgressInv(w, e);
      case ECloseEnds(r, ok) => CloseProgressInv(w, e);
      case ETimerFires(r) => CloseProgressInv(w, e);
      case ELaunch(x, captures, native_) => LaunchInv(w, x, captures, native_);
      case ETaskSettles(b, i, c) => TaskSettlesInv(w, b, i, c);
      case EPublish(b, selected) => PublishInv(w, b, selected);
      case ECallbackStarts(s, from) => CallbackStartsInv(w, s, from);
      case ECallbackSettles(t) => CallbackSettlesInv(w, t);
      case EOpenScope(x) => OpenScopeInv(w, x);
      case EBodyEnds(s) => BodyEndsInv(w, s);
      case EDrainTurns(s) => DrainTurnsInv(w, s);
      case EDrainVisits(s) => DrainVisitsInv(w, s);
      case EDrainResumes(s) => DrainResumesInv(w, s);
      case EScopeCloses(s) => ScopeClosesInv(w, s);
    }
  }
}
