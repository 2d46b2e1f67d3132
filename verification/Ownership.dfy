/** The ownership protocol of one root: scopes, resources with counted leases, launched
    groups, callbacks and draining. Every event is one synchronous stretch of the runtime, or
    part of one; events interleave freely. */
module Ownership {
  import opened Wrappers
  import G = Groups

  type Owner = nat
  type LeaseId = nat
  type ResourceId = nat
  type ScopeId = nat
  type TaskId = nat
  type BatchId = nat
  type FailureId = nat

  datatype Phase = Open | Closing | Closed

  /** The closing promise: not begun, waiting for leases, in the native close, settled. */
  datatype Close = Unstarted | Waiting | Running | Finished

  datatype Holder = Direct | Participant(task: TaskId) | Initial(task: TaskId)

  /** One release that was handed out and not yet called. */
  datatype Lease = Lease(resource: ResourceId, owner: Owner, holder: Holder)

  datatype Resource = Resource(
    kind: string, scope: ScopeId, state: Phase, leases: map<Owner, nat>,
    creator: Option<TaskId>, initial: Option<LeaseId>, idempotent: bool, scopeManaged: bool, limited: bool,
    timer: bool, autoPending: bool, deadlines: nat, cleanup: Option<FailureId>, closing: Close)

  /** Where a scope's drain stands; `next` counts down over the resources still to visit. */
  datatype Drain =
    | Body
    | Quiescing
    | Visiting(next: nat, first: Option<FailureId>)
    | Awaiting(next: nat, first: Option<FailureId>)
    | Drained(first: Option<FailureId>)

  datatype Scope = Scope(state: Phase, base: Owner, exits: seq<LeaseId>, host: Option<TaskId>, drain: Drain)

  datatype Task = Task(scope: ScopeId, site: Option<(BatchId, nat)>, retained: seq<LeaseId>, dynamic: seq<LeaseId>, done: bool)

  datatype Batch = Batch(scope: ScopeId, group: G.Group, tasks: seq<TaskId>)

  datatype World = World(
    parents: seq<Option<ScopeId>>, scopes: seq<Scope>, resources: seq<Resource>, tasks: seq<Task>, batches: seq<Batch>,
    callbacks: set<TaskId>, leases: map<LeaseId, Lease>, nextLease: LeaseId, nextOwner: Owner, nextFailure: FailureId)

  /** The execution a call is made from. */
  datatype Exec = Exec(scope: ScopeId, owner: Option<Owner>, task: Option<TaskId>)

  function Start(): World {
    World([None], [Scope(Open, 0, [], None, Body)], [], [], [], {}, map[], 0, 1, 0)
  }

  predicate Inside(parents: seq<Option<ScopeId>>, a: ScopeId, b: ScopeId) {
    a < |parents| && (a == b || (parents[a].Some? && parents[a].value < a && Inside(parents, parents[a].value, b)))
  }

  predicate Usable(w: World, x: Exec) {
    && x.scope < |w.scopes| && w.scopes[x.scope].state != Closed
    && (x.task.Some? ==> x.task.value < |w.tasks|)
  }

  // ----------------------------------------------------------------------- leases ---

  function OwnerOf(w: World, x: Exec): Owner
    requires x.scope < |w.scopes|
  {
    if x.owner.Some? then x.owner.value else w.scopes[x.scope].base
  }

  predicate ScopeAdmits(w: World, r: ResourceId, x: Exec) {
    && r < |w.resources| && w.resources[r].scope < |w.scopes|
    && Inside(w.parents, x.scope, w.resources[r].scope)
    && w.scopes[w.resources[r].scope].state != Closed
  }

  /** Whether a lease on r is granted to the calling owner. */
  predicate Acquirable(w: World, r: ResourceId, x: Exec) {
    && Usable(w, x) && ScopeAdmits(w, r, x)
    && w.resources[r].state != Closed
    && (w.resources[r].state == Closing || w.scopes[w.resources[r].scope].state == Closing
        ==> OwnerOf(w, x) in w.resources[r].leases)
  }

  function Held(res: Resource, o: Owner): nat {
    if o in res.leases then res.leases[o] else 0
  }

  function Grant(w: World, r: ResourceId, o: Owner, holder: Holder): World
    requires r < |w.resources|
  {
    var res := w.resources[r];
    w.(resources := w.resources[r := res.(leases := res.leases[o := Held(res, o) + 1])],
       leases := w.leases[w.nextLease := Lease(r, o, holder)],
       nextLease := w.nextLease + 1)
  }

  /** Calling a release; on one that was called already this is the once-guard's no-op. */
  function Release(w: World, id: LeaseId): World {
    if id !in w.leases || w.leases[id].resource >= |w.resources| then w else
    var l := w.leases[id];
    var res := w.resources[l.resource];
    var left := if Held(res, l.owner) <= 1 then res.leases - {l.owner} else res.leases[l.owner := res.leases[l.owner] - 1];
    w.(resources := w.resources[l.resource := res.(leases := left)], leases := w.leases - {id})
  }

  function ReleaseAll(w: World, ids: seq<LeaseId>): World
    decreases ids
  {
    if ids == [] then w else ReleaseAll(Release(w, ids[0]), ids[1..])
  }

  /** Leases on every captured resource, or nothing at all. */
  function Retain(w: World, captured: seq<ResourceId>, x: Exec, holder: Holder): Option<World>
    decreases captured
  {
    if captured == [] then Some(w)
    else if !Acquirable(w, captured[0], x) then None
    else Retain(Grant(w, captured[0], OwnerOf(w, x), holder), captured[1..], x, holder)
  }

  function RetainEach(w: World, captures: seq<seq<ResourceId>>, x: Exec, task: TaskId): Option<World>
    decreases captures
  {
    if captures == [] then Some(w)
    else match Retain(w, captures[0], x, Participant(task))
      case None => None
      case Some(w') => RetainEach(w', captures[1..], x, task + 1)
  }

  function Range(from: nat, count: nat): (s: seq<nat>)
    ensures |s| == count && forall i | 0 <= i < count :: s[i] == from + i
  {
    seq(count, i requires 0 <= i < count => from + i)
  }

  /** How many captures come before participant i. */
  function Before(captures: seq<seq<ResourceId>>, i: nat): nat
    requires i <= |captures|
  {
    if i == 0 then 0 else Before(captures, i - 1) + |captures[i - 1]|
  }

  // -------------------------------------------------------------------- resources ---

  function Fresh(kind: string, scope: ScopeId, idempotent: bool, scopeManaged: bool, limited: bool): Resource {
    Resource(kind, scope, Open, map[], None, None, idempotent, scopeManaged, limited, false, false, 0, None, Unstarted)
  }

  function Register(w: World, x: Exec, kind: string, idempotent: bool, scopeManaged: bool, limited: bool): Option<World> {
    if !Usable(w, x) || kind == "" || w.scopes[x.scope].state != Open then None else
    var r := |w.resources|;
    var w1 := w.(resources := w.resources + [Fresh(kind, x.scope, idempotent, scopeManaged, limited)]);
    if x.task.None? then Some(w1) else
    var id, t := w.nextLease, x.task.value;
    var w2 := Grant(w1, r, OwnerOf(w1, x), Initial(t));
    Some(w2.(resources := w2.resources[r := w2.resources[r].(creator := x.task, initial := Some(id))],
             tasks := w2.tasks[t := w2.tasks[t].(dynamic := w2.tasks[t].dynamic + [id])],
             scopes := if x.scope == w2.tasks[t].scope then w2.scopes
                       else w2.scopes[x.scope := w2.scopes[x.scope].(exits := w2.scopes[x.scope].exits + [id])]))
  }

  function UseStarts(w: World, x: Exec, r: ResourceId, kind: string): Option<World> {
    if !Acquirable(w, r, x) || w.resources[r].kind != kind then None
    else Some(Grant(w, r, OwnerOf(w, x), Direct))
  }

  function UseEnds(w: World, id: LeaseId): Option<World> {
    if id in w.leases && w.leases[id].holder.Direct? then Some(Release(w, id)) else None
  }

  function Begin(res: Resource): Resource {
    res.(state := Closing, autoPending := false, closing := Waiting)
  }

  function CloseCall(w: World, x: Exec, r: ResourceId, kind: string, deadline: bool): Option<World> {
    if !Usable(w, x) || !ScopeAdmits(w, r, x) || w.resources[r].kind != kind then None
    else if w.resources[r].state != Open && !w.resources[r].idempotent then None
    else
      var w1 := if w.resources[r].creator == x.task && w.resources[r].initial.Some?
                then Release(w, w.resources[r].initial.value) else w;
      if r >= |w1.resources| then None else
      var res := if w1.resources[r].closing == Unstarted then Begin(w1.resources[r]) else w1.resources[r];
      var timed := if deadline && res.closing != Finished then res.(deadlines := res.deadlines + 1) else res;
      Some(w1.(resources := w1.resources[r := timed]))
  }

  /** A close deadline can only expire while the close it races is unsettled. */
  function DeadlineFires(w: World, r: ResourceId): Option<World> {
    if r < |w.resources| && w.resources[r].deadlines > 0 && (w.resources[r].closing == Waiting || w.resources[r].closing == Running)
    then Some(w.(resources := w.resources[r := w.resources[r].(deadlines := w.resources[r].deadlines - 1, cleanup := Some(w.nextFailure))],
                 nextFailure := w.nextFailure + 1))
    else None
  }

  function CloseStarts(w: World, r: ResourceId): Option<World> {
    if r < |w.resources| && w.resources[r].closing == Waiting && w.resources[r].leases == map[]
    then Some(w.(resources := w.resources[r := w.resources[r].(closing := Running)]))
    else None
  }

  function CloseEnds(w: World, r: ResourceId, ok: bool): Option<World> {
    if r >= |w.resources| || w.resources[r].closing != Running then None else
    var res := w.resources[r].(closing := Finished, timer := false, deadlines := 0);
    if ok then Some(w.(resources := w.resources[r := res.(state := Closed, creator := None, initial := None)]))
    else Some(w.(resources := w.resources[r := res.(cleanup := Some(w.nextFailure))], nextFailure := w.nextFailure + 1))
  }

  /** The shutdown timer a drain armed. */
  function TimerFires(w: World, r: ResourceId): Option<World> {
    if r >= |w.resources| || !w.resources[r].timer then None else
    var res := w.resources[r].(timer := false);
    if res.state == Closed then Some(w.(resources := w.resources[r := res])) else
    var moved := if res.state == Open then res.(state := Closing, autoPending := true) else res;
    Some(w.(resources := w.resources[r := moved.(cleanup := Some(w.nextFailure))], nextFailure := w.nextFailure + 1))
  }

  // ------------------------------------------------------------------------ tasks ---

  function ParticipantTask(scope: ScopeId, batch: BatchId, captures: seq<seq<ResourceId>>, lease: LeaseId, i: nat): Task
    requires i < |captures|
  {
    Task(scope, Some((batch, i)), Range(lease + Before(captures, i), |captures[i]|), [], false)
  }

  function Participants(scope: ScopeId, batch: BatchId, captures: seq<seq<ResourceId>>, lease: LeaseId): (tasks: seq<Task>)
    ensures |tasks| == |captures|
    ensures forall i | 0 <= i < |captures| :: tasks[i] == ParticipantTask(scope, batch, captures, lease, i)
  {
    seq(|captures|, i requires 0 <= i < |captures| => ParticipantTask(scope, batch, captures, lease, i))
  }

  function LaunchKey(w: World, x: Exec, native_: bool): Owner {
    if native_ && x.owner.Some? then x.owner.value else w.nextOwner
  }

  function Launch(w: World, x: Exec, captures: seq<seq<ResourceId>>, native_: bool): Option<World> {
    if !Usable(w, x) then None
    else if w.scopes[x.scope].state != Open && !(native_ && x.task.Some? && !w.tasks[x.task.value].done) then None
    else
      var key := LaunchKey(w, x, native_);
      match RetainEach(w.(nextOwner := w.nextOwner + 1), captures, x.(owner := Some(key)), |w.tasks|)
      case None => None
      case Some(w1) =>
        Some(w1.(batches := w1.batches + [Batch(x.scope, G.Launch(|captures|), Range(|w.tasks|, |captures|))],
                 tasks := w1.tasks + Participants(x.scope, |w.batches|, captures, w.nextLease)))
  }

  /** Children scopes opened by the task itself, and not closed yet. */
  predicate Hosts(w: World, t: TaskId) {
    exists c | 0 <= c < |w.scopes| :: w.scopes[c].host == Some(t) && w.scopes[c].state != Closed
  }

  predicate BodyHosts(w: World, s: ScopeId) {
    exists c | 0 <= c < |w.scopes| && c < |w.parents| ::
      w.parents[c] == Some(s) && w.scopes[c].host == None && w.scopes[c].state != Closed
  }

  function FinishTask(w: World, t: TaskId): World
    requires t < |w.tasks|
  {
    var w1 := ReleaseAll(w, w.tasks[t].retained + w.tasks[t].dynamic);
    w1.(tasks := w.tasks[t := w.tasks[t].(dynamic := [], done := true)])
  }

  predicate Pending(w: World, b: BatchId, i: nat) {
    && b < |w.batches|
    && i < |w.batches[b].tasks| == |w.batches[b].group.completions| == |w.batches[b].group.observed|
    && w.batches[b].group.completions[i].None? && w.batches[b].group.pending > 0
    && w.batches[b].tasks[i] < |w.tasks|
  }

  /** A participant settles; its own child scopes were awaited. */
  function TaskSettles(w: World, b: BatchId, i: nat, completion: G.Completion): Option<World> {
    if !Pending(w, b, i) || Hosts(w, w.batches[b].tasks[i]) then None else
    var w1 := FinishTask(w, w.batches[b].tasks[i]);
    Some(w1.(batches := w.batches[b := w.batches[b].(group := G.Settle(w.batches[b].group, i, completion))]))
  }

  function Publish(w: World, b: BatchId, selected: seq<nat>): Option<World> {
    if b < |w.batches| && |w.batches[b].group.completions| == |w.batches[b].group.observed| && G.Publishable(w.batches[b].group, selected)
    then Some(w.(batches := w.batches[b := w.batches[b].(group := G.Publish(w.batches[b].group, selected))]))
    else None
  }

  /** A guarded callback is dispatched. From inside still-running work of the guard scope it
      joins that work's scope; otherwise it runs in the guard scope, which must be open. */
  function CallbackStarts(w: World, guard: ScopeId, from: Option<Exec>): Option<World> {
    if guard >= |w.scopes| then None else
    var active := from.Some? && from.value.scope < |w.scopes| && Inside(w.parents, from.value.scope, guard)
                  && from.value.task.Some? && from.value.task.value < |w.tasks| && !w.tasks[from.value.task.value].done;
    if w.scopes[guard].state == Closed || (w.scopes[guard].state == Closing && !active) then None
    else Some(w.(tasks := w.tasks + [Task(if active then from.value.scope else guard, None, [], [], false)],
                 callbacks := w.callbacks + {|w.tasks|},
                 nextOwner := w.nextOwner + 1))
  }

  function CallbackSettles(w: World, t: TaskId): Option<World> {
    if t !in w.callbacks || t >= |w.tasks| || Hosts(w, t) then None else
    Some(FinishTask(w, t).(callbacks := w.callbacks - {t}))
  }

  // ----------------------------------------------------------------------- scopes ---

  /** The work that will await a scope opened from x: the calling task when it opened it in
      its own scope, else the body of the current scope. */
  function HostOf(w: World, x: Exec): Option<TaskId>
    requires Usable(w, x)
  {
    if x.task.Some? && w.tasks[x.task.value].scope == x.scope then x.task else None
  }

  predicate HostRuns(w: World, x: Exec)
    requires Usable(w, x)
  {
    match HostOf(w, x)
    case Some(t) => t < |w.tasks| && !w.tasks[t].done
    case None => w.scopes[x.scope].drain == Body
  }

  /** A child scope opens, awaited by the work it was opened from. */
  function OpenScope(w: World, x: Exec): Option<World> {
    if !Usable(w, x) || w.scopes[x.scope].state != Open || !HostRuns(w, x) then None
    else Some(w.(parents := w.parents + [Some(x.scope)],
                 scopes := w.scopes + [Scope(Open, w.nextOwner, [], HostOf(w, x), Body)],
                 nextOwner := w.nextOwner + 1))
  }

  /** The body of a scope ends and its drain begins. The root stays open while it drains. */
  function BodyEnds(w: World, s: ScopeId): Option<World> {
    if s >= |w.scopes| || w.scopes[s].drain != Body || BodyHosts(w, s) then None
    else if s == 0 then Some(w.(scopes := w.scopes[s := w.scopes[s].(drain := Quiescing)]))
    else Some(ReleaseAll(w, w.scopes[s].exits)
              .(scopes := w.scopes[s := w.scopes[s].(exits := [], state := Closing, drain := Quiescing)]))
  }

  predicate Arms(w: World, s: ScopeId, res: Resource) {
    Inside(w.parents, res.scope, s) && res.state != Closed && res.limited && !res.timer && res.cleanup.None?
  }

  function Armed(w: World, s: ScopeId): seq<Resource> {
    seq(|w.resources|, r requires 0 <= r < |w.resources| =>
      if Arms(w, s, w.resources[r]) then w.resources[r].(timer := true) else w.resources[r])
  }

  /** No group and no callback inside the scope is left. */
  predicate Quiet(w: World, s: ScopeId) {
    && (forall b | 0 <= b < |w.batches| :: !(w.batches[b].group.live && Inside(w.parents, w.batches[b].scope, s)))
    && (forall t | t in w.callbacks :: !(t < |w.tasks| && Inside(w.parents, w.tasks[t].scope, s)))
  }

  /** One turn of the drain's waiting loop. */
  function DrainTurns(w: World, s: ScopeId): Option<World> {
    if s >= |w.scopes| || w.scopes[s].drain != Quiescing then None else
    var w1 := w.(resources := Armed(w, s));
    if Quiet(w, s) then
      Some(w1.(scopes := w.scopes[s := w.scopes[s].(state := Closing, drain := Visiting(|w.resources|, None))]))
    else Some(w1)
  }

  function First(first: Option<FailureId>, cleanup: Option<FailureId>): Option<FailureId> {
    if first.Some? then first else cleanup
  }

  function Move(w: World, s: ScopeId, d: Drain): World
    requires s < |w.scopes|
  {
    w.(scopes := w.scopes[s := w.scopes[s].(drain := d)])
  }

  /** The drain looks at the next resource, latest registration first. */
  function DrainVisits(w: World, s: ScopeId): Option<World> {
    if s >= |w.scopes| || !w.scopes[s].drain.Visiting? || w.scopes[s].drain.next > |w.resources| then None else
    var d := w.scopes[s].drain;
    if d.next == 0 then Some(Move(w, s, Drained(d.first))) else
    var r := d.next - 1;
    var res := w.resources[r];
    if !Inside(w.parents, res.scope, s) then Some(Move(w, s, Visiting(r, d.first)))
    else if res.state == Open || res.autoPending then
      var failed := !res.scopeManaged && res.cleanup.None?;
      var marked := if failed then res.(cleanup := Some(w.nextFailure)) else res;
      Some(Move(w.(resources := w.resources[r := Begin(marked)],
                   nextFailure := if failed then w.nextFailure + 1 else w.nextFailure), s, Awaiting(d.next, d.first)))
    else if res.closing != Unstarted then Some(Move(w, s, Awaiting(d.next, d.first)))
    else Some(Move(w, s, Visiting(r, First(d.first, res.cleanup))))
  }

  function DrainResumes(w: World, s: ScopeId): Option<World> {
    if s >= |w.scopes| || !w.scopes[s].drain.Awaiting? then None else
    var d := w.scopes[s].drain;
    if d.next == 0 || d.next > |w.resources| || w.resources[d.next - 1].closing != Finished then None
    else Some(Move(w, s, Visiting(d.next - 1, First(d.first, w.resources[d.next - 1].cleanup))))
  }

  function ScopeCloses(w: World, s: ScopeId): Option<World> {
    if s < |w.scopes| && w.scopes[s].drain.Drained? then Some(w.(scopes := w.scopes[s := w.scopes[s].(state := Closed)]))
    else None
  }

  // ----------------------------------------------------------------------- events ---

  datatype Event =
    | ERegister(x: Exec, kind: string, idempotent: bool, scopeManaged: bool, limited: bool)
    | EUseStarts(x: Exec, resource: ResourceId, kind: string)
    | EUseEnds(lease: LeaseId)
    | ECloseCall(x: Exec, resource: ResourceId, kind: string, deadline: bool)
    | EDeadlineFires(resource: ResourceId)
    | ECloseStarts(resource: ResourceId)
    | ECloseEnds(resource: ResourceId, ok: bool)
    | ETimerFires(resource: ResourceId)
    | ELaunch(x: Exec, captures: seq<seq<ResourceId>>, native_: bool)
    | ETaskSettles(batch: BatchId, index: nat, completion: G.Completion)
    | EPublish(batch: BatchId, selected: seq<nat>)
    | ECallbackStarts(scope: ScopeId, from: Option<Exec>)
    | ECallbackSettles(task: TaskId)
    | EOpenScope(x: Exec)
    | EBodyEnds(scope: ScopeId)
    | EDrainTurns(scope: ScopeId)
    | EDrainVisits(scope: ScopeId)
    | EDrainResumes(scope: ScopeId)
    | EScopeCloses(scope: ScopeId)

  /** The world after an event, or nothing when the event cannot happen or is refused. */
  function Next(w: World, e: Event): Option<World> {
    match e
    case ERegister(x, kind, idempotent, scopeManaged, limited) => Register(w, x, kind, idempotent, scopeManaged, limited)
    case EUseStarts(x, r, kind) => UseStarts(w, x, r, kind)
    case EUseEnds(id) => UseEnds(w, id)
    case ECloseCall(x, r, kind, deadline) => CloseCall(w, x, r, kind, deadline)
    case EDeadlineFires(r) => DeadlineFires(w, r)
    case ECloseStarts(r) => CloseStarts(w, r)
    case ECloseEnds(r, ok) => CloseEnds(w, r, ok)
    case ETimerFires(r) => TimerFires(w, r)
    case ELaunch(x, captures, native_) => Launch(w, x, captures, native_)
    case ETaskSettles(b, i, c) => TaskSettles(w, b, i, c)
    case EPublish(b, selected) => Publish(w, b, selected)
    case ECallbackStarts(s, from) => CallbackStarts(w, s, from)
    case ECallbackSettles(t) => CallbackSettles(w, t)
    case EOpenScope(x) => OpenScope(w, x)
    case EBodyEnds(s) => BodyEnds(w, s)
    case EDrainTurns(s) => DrainTurns(w, s)
    case EDrainVisits(s) => DrainVisits(w, s)
    case EDrainResumes(s) => DrainResumes(w, s)
    case EScopeCloses(s) => ScopeCloses(w, s)
  }
}
