/** Initial leases: given with a registration, taken back when the creator closes the resource,
    and taken back at the end of a scope's body from the tasks that enclose the scope. */
module OwnershipExits {
  import opened Wrappers
  import G = Groups
  import opened Ownership
  import opened OwnershipLeases
  import opened OwnershipLifecycle
  import opened OwnershipTasks
  import opened OwnershipDrain
  import opened OwnershipRuns
  import opened OwnershipTheorems

  /** An initial lease of a task on a resource of another scope, the root aside: the body of that
      scope still runs and will call its release. */
  ghost predicate NestedAt(w: World, id: LeaseId)
    requires id in w.leases
  {
    var l := w.leases[id];
    l.holder.Initial? ==>
      && l.resource < |w.resources| && l.holder.task < |w.tasks|
      && var c := w.resources[l.resource].scope;
         c == 0 || c == w.tasks[l.holder.task].scope || (c < |w.scopes| && w.scopes[c].drain == Body && id in w.scopes[c].exits)
  }

  ghost predicate Nested(w: World) {
    forall id | id in w.leases :: NestedAt(w, id)
  }

  /** A step that ends no body and registers nothing: no new initial lease, and the bodies that
      run keep their releases. */
  ghost predicate KeepsExits(w: World, w': World) {
    && |w.tasks| <= |w'.tasks| && (forall t | 0 <= t < |w.tasks| :: w'.tasks[t].scope == w.tasks[t].scope)
    && |w.resources| <= |w'.resources| && (forall r | 0 <= r < |w.resources| :: w'.resources[r].scope == w.resources[r].scope)
    && |w.scopes| <= |w'.scopes|
    && (forall c | 0 <= c < |w.scopes| && w.scopes[c].drain == Body :: w'.scopes[c].drain == Body && w'.scopes[c].exits == w.scopes[c].exits)
    && (forall id | id in w'.leases && w'.leases[id].holder.Initial? :: id in w.leases && w.leases[id] == w'.leases[id])
  }

  lemma {:induction false} KeepsNested(w: World, w': World)
    requires Nested(w) && KeepsExits(w, w')
    ensures Nested(w')
  {
    forall id | id in w'.leases ensures NestedAt(w', id) {
      if w'.leases[id].holder.Initial? { assert NestedAt(w, id); }
    }
  }

  lemma {:induction false} ScopesKept(w: World, e: Event)
    requires Inv(w) && Next(w, e).Some?
    ensures var w' := Next(w, e).value; |w.resources| <= |w'.resources| && forall r | 0 <= r < |w.resources| :: w'.resources[r].scope == w.resources[r].scope
  {
    hide Inv, Next;
    StepInv(w, e);
    var w' := Next(w, e).value;
    SteppedMonotone(w, w');
    forall r | 0 <= r < |w.resources| ensures w'.resources[r].scope == w.resources[r].scope {
      assert Advance(w.resources[r], w'.resources[r]);
    }
  }

  /** Everything but registrations and ended bodies. */
  lemma {:induction false} StepKeeps(w: World, e: Event)
    requires Inv(w) && Next(w, e).Some? && !e.ERegister? && !e.EBodyEnds?
    ensures KeepsExits(w, Next(w, e).value)
  {
    if e.ELaunch? || e.ETaskSettles? || e.ECallbackSettles? || e.EUseEnds? || e.ECloseCall? {
      LeasesMove(w, e);
    } else {
      PlainStepKeeps(w, e);
    }
  }

  /** The step keeps scopes, and leases may only go. */
  lemma {:induction false} OnlyFewerLeases(w: World, w': World)
    requires w'.scopes == w.scopes && |w.tasks| <= |w'.tasks| && |w.resources| <= |w'.resources|
    requires forall t | 0 <= t < |w.tasks| :: w'.tasks[t].scope == w.tasks[t].scope
    requires forall r | 0 <= r < |w.resources| :: w'.resources[r].scope == w.resources[r].scope
    requires forall id | id in w'.leases && w'.leases[id].holder.Initial? :: id in w.leases && w.leases[id] == w'.leases[id]
    ensures KeepsExits(w, w')
  {
  }

  lemma {:induction false} LeasesMove(w: World, e: Event)
    requires Inv(w) && Next(w, e).Some?
    requires e.ELaunch? || e.ETaskSettles? || e.ECallbackSettles? || e.EUseEnds? || e.ECloseCall?
    ensures KeepsExits(w, Next(w, e).value)
  {
    ScopesKept(w, e);
    SameScopes(w, e);
    FewerInitial(w, e);
    hide Inv, Next, KeepsExits;
    OnlyFewerLeases(w, Next(w, e).value);
  }

  lemma {:induction false} FewerInitial(w: World, e: Event)
    requires Inv(w) && Next(w, e).Some?
    requires e.ELaunch? || e.ETaskSettles? || e.ECallbackSettles? || e.EUseEnds? || e.ECloseCall?
    ensures var w' := Next(w, e).value;
            && |w.tasks| <= |w'.tasks| && (forall t | 0 <= t < |w.tasks| :: w'.tasks[t].scope == w.tasks[t].scope)
            && forall id | id in w'.leases && w'.leases[id].holder.Initial? :: id in w.leases && w.leases[id] == w'.leases[id]
  {
    match e {
      case EUseEnds(id) => ReleaseLedger(w, id);
      case ECloseCall(x, r, kind, deadline) => CloseLeases(w, x, r, kind, deadline);
      case ELaunch(x, captures, native_) => LaunchKeeps(w, x, captures, native_);
      case ETaskSettles(b, i, c) => FinishFewer(w, w.batches[b].tasks[i]);
      case ECallbackSettles(t) => FinishFewer(w, t);
    }
    hide Inv, Launch, CloseCall, FinishTask;
  }

  lemma {:induction false} FinishFewer(w: World, t: TaskId)
    requires Inv(w) && t < |w.tasks| && !Hosts(w, t)
    ensures var w' := FinishTask(w, t);
            && |w'.tasks| == |w.tasks| && (forall u | 0 <= u < |w.tasks| :: w'.tasks[u].scope == w.tasks[u].scope)
            && forall id | id in w'.leases :: id in w.leases && w.leases[id] == w'.leases[id]
  {
    FinishTaskParts(w, t);
    hide Inv, FinishTask, Ledger, LeaseTable, InitialIds, Tree, Homes, Drains, Lifecycle, Monotone;
  }

  lemma {:induction false} PlainStepKeeps(w: World, e: Event)
    requires Inv(w) && Next(w, e).Some? && !e.ERegister? && !e.EBodyEnds?
    requires !(e.ELaunch? || e.ETaskSettles? || e.ECallbackSettles? || e.EUseEnds? || e.ECloseCall?)
    ensures KeepsExits(w, Next(w, e).value)
  {
    ScopesKept(w, e);
    hide Inv;
    if e.EUseStarts? || e.EDeadlineFires? || e.ECloseStarts? || e.ECloseEnds? || e.ETimerFires? || e.EPublish? || e.ECallbackStarts? {
      ScopesStand(w, e);
      hide Next, KeepsExits;
      OnlyFewerLeases(w, Next(w, e).value);
    } else {
      ScopeStepKeeps(w, e);
      hide Next;
    }
  }

  lemma {:induction false} ScopesStand(w: World, e: Event)
    requires Next(w, e).Some?
    requires e.EUseStarts? || e.EDeadlineFires? || e.ECloseStarts? || e.ECloseEnds? || e.ETimerFires? || e.EPublish? || e.ECallbackStarts?
    ensures var w' := Next(w, e).value;
            && w'.scopes == w.scopes
            && |w.tasks| <= |w'.tasks| && (forall t | 0 <= t < |w.tasks| :: w'.tasks[t].scope == w.tasks[t].scope)
            && forall id | id in w'.leases && w'.leases[id].holder.Initial? :: id in w.leases && w.leases[id] == w'.leases[id]
  {
  }

  /** The steps of scopes leave tasks and leases alone, and bodies that run as they are. */
  lemma {:induction false} ScopeStepKeeps(w: World, e: Event)
    requires Next(w, e).Some? && (e.EOpenScope? || e.EDrainTurns? || e.EDrainVisits? || e.EDrainResumes? || e.EScopeCloses?)
    ensures var w' := Next(w, e).value;
            && w'.tasks == w.tasks && w'.leases == w.leases && |w.scopes| <= |w'.scopes|
            && forall c | 0 <= c < |w.scopes| && w.scopes[c].drain == Body :: w'.scopes[c].drain == Body && w'.scopes[c].exits == w.scopes[c].exits
  {
    hide Armed, Inside, Quiet;
  }

  lemma {:induction false} CloseLeases(w: World, x: Exec, r: ResourceId, kind: string, deadline: bool)
    requires Inv(w) && CloseCall(w, x, r, kind, deadline).Some?
    ensures var w' := CloseCall(w, x, r, kind, deadline).value;
            w'.leases == w.leases - Ids(CreatorRelease(w, x, r)) && w'.tasks == w.tasks
  {
    CloseFrame(w, x, r, kind, deadline);
    ReleaseAllLedger(w, CreatorRelease(w, x, r));
  }

  lemma {:induction false} LaunchKeeps(w: World, x: Exec, captures: seq<seq<ResourceId>>, native_: bool)
    requires Inv(w) && Launch(w, x, captures, native_).Some?
    ensures var w' := Launch(w, x, captures, native_).value;
            && w'.scopes == w.scopes && |w.tasks| <= |w'.tasks| && w'.tasks[..|w.tasks|] == w.tasks
            && forall id | id in w'.leases && w'.leases[id].holder.Initial? :: id in w.leases && w.leases[id] == w'.leases[id]
  {
    var start, child := w.(nextOwner := w.nextOwner + 1), x.(owner := Some(LaunchKey(w, x, native_)));
    RetainEachLedger(start, captures, child, |w.tasks|);
    var w1 := RetainEach(start, captures, child, |w.tasks|).value;
    forall id | id in w1.leases && w1.leases[id].holder.Initial? ensures id in w.leases && w.leases[id] == w1.leases[id] {
      if id !in w.leases {
        NewLeaseListed(start, w1, captures, x.scope, |w.batches|, id);
      }
    }
  }

  /** What a registration gives: a lease of the registering task on the new resource, listed for
      the end of the scope's body when the task encloses it. */
  ghost predicate Registered(w: World, w': World, x: Exec)
    requires x.scope < |w.scopes| && (x.task.Some? ==> x.task.value < |w.tasks|)
  {
    var r, id := |w.resources|, w.nextLease;
    && |w'.resources| == r + 1 && w'.resources[..r] == w.resources
    && w'.resources[r].scope == x.scope && w'.resources[r].state == Open && w'.resources[r].creator == x.task
    && |w'.tasks| == |w.tasks| && (forall t | 0 <= t < |w.tasks| :: w'.tasks[t].scope == w.tasks[t].scope)
    && |w'.scopes| == |w.scopes| && (forall c | 0 <= c < |w.scopes| :: w'.scopes[c].drain == w.scopes[c].drain)
    && (forall c | 0 <= c < |w.scopes| && c != x.scope :: w'.scopes[c] == w.scopes[c])
    && match x.task
       case None => w'.leases == w.leases && w'.scopes == w.scopes && w'.resources[r].initial == None && w'.tasks == w.tasks
       case Some(t) =>
         && w'.leases == w.leases[id := Lease(r, OwnerOf(w, x), Initial(t))]
         && w'.resources[r].initial == Some(id)
         && w'.tasks[t].dynamic == w.tasks[t].dynamic + [id]
         && w'.scopes[x.scope].exits == if x.scope == w.tasks[t].scope then w.scopes[x.scope].exits else w.scopes[x.scope].exits + [id]
  }

  lemma {:induction false} RegisterGives(w: World, x: Exec, kind: string, idempotent: bool, scopeManaged: bool, limited: bool)
    requires Register(w, x, kind, idempotent, scopeManaged, limited).Some?
    ensures x.scope < |w.scopes| && (x.task.Some? ==> x.task.value < |w.tasks|)
    ensures Registered(w, Register(w, x, kind, idempotent, scopeManaged, limited).value, x)
    ensures w.scopes[x.scope].state == Open
  {
    var w' := Register(w, x, kind, idempotent, scopeManaged, limited).value;
    assert w'.resources[..|w.resources|] == w.resources;
  }

  lemma {:induction false} RegisterNested(w: World, w': World, x: Exec)
    requires Inv(w) && Nested(w) && Usable(w, x) && w.scopes[x.scope].state == Open && Registered(w, w', x)
    ensures Nested(w')
  {
    assert ScopeOk(w.scopes[x.scope], x.scope);
    assert forall id | id in w.leases :: id < w.nextLease && w.leases[id].resource < |w.resources|;
    hide Inv;
    forall id | id in w'.leases ensures NestedAt(w', id) {
      if id in w.leases {
        assert NestedAt(w, id);
        assert w'.leases[id] == w.leases[id];
        assert forall r | 0 <= r < |w.resources| :: w'.resources[r] == w'.resources[..|w.resources|][r];
        if w.leases[id].holder.Initial? && id in w.scopes[x.scope].exits {
          assert id in w'.scopes[x.scope].exits;
        }
      }
    }
  }

  /** What the end of a body takes: exactly the leases listed in its exits. */
  ghost predicate BodyEnded(w: World, w': World, s: ScopeId)
    requires s < |w.scopes|
  {
    && (forall id :: id in w'.leases <==> id in w.leases && (s == 0 || id !in w.scopes[s].exits))
    && (forall id | id in w'.leases :: w'.leases[id] == w.leases[id])
    && |w'.scopes| == |w.scopes| && (forall c | 0 <= c < |w.scopes| && c != s :: w'.scopes[c] == w.scopes[c])
    && w'.scopes[s].drain == Quiescing && (s != 0 ==> w'.scopes[s].state == Closing && w'.scopes[s].exits == [])
    && w'.tasks == w.tasks
  }

  lemma {:induction false} BodyGives(w: World, s: ScopeId)
    requires Ledger(w.resources, w.leases, w.nextLease) && BodyEnds(w, s).Some?
    ensures BodyEnded(w, BodyEnds(w, s).value, s)
  {
    ReleaseAllLedger(w, w.scopes[s].exits);
    hide Ledger;
    assert forall id :: id in Ids(w.scopes[s].exits) <==> id in w.scopes[s].exits;
  }

  lemma {:induction false} BodyNested(w: World, s: ScopeId)
    requires Inv(w) && Nested(w) && BodyEnds(w, s).Some?
    ensures Nested(BodyEnds(w, s).value)
  {
    var w' := BodyEnds(w, s).value;
    BodyGives(w, s);
    ScopesKept(w, EBodyEnds(s));
    hide Inv, BodyEnds;
    forall id | id in w'.leases ensures NestedAt(w', id) {
      assert NestedAt(w, id);
    }
  }

  lemma {:induction false} RunNested(run: seq<World>, events: seq<Event>, i: nat)
    requires IsRun(run, events) && i < |run|
    ensures Nested(run[i])
  {
    if i > 0 {
      RunNested(run, events, i - 1);
      RunInv(run, events, i - 1);
      assert Next(run[i - 1], events[i - 1]) == Some(run[i]);
      hide Inv, Nested, IsRun, Next;
      NestedStep(run[i - 1], events[i - 1]);
    }
  }

  lemma {:induction false} NestedStep(w: World, e: Event)
    requires Inv(w) && Nested(w) && Next(w, e).Some?
    ensures Nested(Next(w, e).value)
  {
    hide Inv, Nested, KeepsExits, Registered;
    match e {
      case ERegister(x, kind, a, b, c) =>
        RegisterGives(w, x, kind, a, b, c);
        hide BodyEnds;
        RegisterNested(w, Next(w, e).value, x);
      case EBodyEnds(s) => BodyNested(w, s);
      case _ =>
        StepKeeps(w, e);
        KeepsNested(w, Next(w, e).value);
    }
  }

  // ------------------------------------------------------------------------ theorems ---

  /** When the body of a child scope ends, no release that stood in its exits is outstanding any
      more, and every other one is as it was. */
  lemma {:induction false} BodyEndGivesBack(run: seq<World>, events: seq<Event>, i: nat, s: ScopeId)
    requires IsRun(run, events) && i < |events| && events[i] == EBodyEnds(s)
    ensures s < |run[i].scopes|
    ensures forall id :: id in run[i + 1].leases <==> id in run[i].leases && (s == 0 || id !in run[i].scopes[s].exits)
    ensures forall id | id in run[i + 1].leases :: run[i + 1].leases[id] == run[i].leases[id]
  {
    RunInv(run, events, i);
    assert Next(run[i], events[i]) == Some(run[i + 1]);
    BodyGives(run[i], s);
  }

  /** Once the drain of a child scope has started, no task of another scope holds an initial
      lease on a resource registered in it: it cannot keep the scope from closing. */
  lemma {:induction false} NoEnclosingLease(run: seq<World>, events: seq<Event>, i: nat, s: ScopeId, id: LeaseId)
    requires IsRun(run, events) && i < |run| && 0 < s < |run[i].scopes| && run[i].scopes[s].drain != Body
    requires id in run[i].leases && run[i].leases[id].holder.Initial?
    ensures var l := run[i].leases[id];
            && l.resource < |run[i].resources| && l.holder.task < |run[i].tasks|
            && (run[i].resources[l.resource].scope == s ==> run[i].tasks[l.holder.task].scope == s)
  {
    RunNested(run, events, i);
    assert NestedAt(run[i], id);
  }

  /** A registration gives its task one lease on the new resource, and nothing else changes hands. */
  lemma {:induction false} RegistrationGives(run: seq<World>, events: seq<Event>, i: nat)
    requires IsRun(run, events) && i < |events| && events[i].ERegister?
    ensures var x := events[i].x; x.scope < |run[i].scopes| && (x.task.Some? ==> x.task.value < |run[i].tasks|)
    ensures Registered(run[i], run[i + 1], events[i].x)
  {
    var e := events[i];
    assert Next(run[i], e) == Some(run[i + 1]);
    RegisterGives(run[i], e.x, e.kind, e.idempotent, e.scopeManaged, e.limited);
  }

  /** A close by the task that registered the resource takes its initial lease back first; a close
      by anyone else takes no lease. Either way a close has begun. */
  lemma {:induction false} ClosingGivesBack(run: seq<World>, events: seq<Event>, i: nat)
    requires IsRun(run, events) && i < |events| && events[i].ECloseCall?
    ensures var e, w, w' := events[i], run[i], run[i + 1];
            && e.resource < |w.resources| && e.resource < |w'.resources| && w'.resources[e.resource].closing != Unstarted
            && var res := w.resources[e.resource];
               && (forall id :: id in w'.leases <==> id in w.leases && !(res.creator == e.x.task && res.initial == Some(id)))
               && (forall id | id in w'.leases :: w'.leases[id] == w.leases[id])
  {
    var e, w := events[i], run[i];
    RunInv(run, events, i);
    assert Next(w, e) == Some(run[i + 1]);
    CloseLeases(w, e.x, e.resource, e.kind, e.deadline);
    CloseFrame(w, e.x, e.resource, e.kind, e.deadline);
    hide Inv, IsRun, CloseCall;
    assert forall id :: id in Ids(CreatorRelease(w, e.x, e.resource)) <==> id in CreatorRelease(w, e.x, e.resource);
  }
}
