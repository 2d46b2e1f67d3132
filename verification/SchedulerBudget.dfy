/** Retries, restarts and termination of the scheduler. */
module SchedulerBudget {
  import opened Wrappers
  import opened Documents
  import opened Scheduler
  import opened SchedulerRuns

  /** Per root: at most two retries; a dirty root has been started no more often than it was
      retried, and the root in flight at most once more. Out-of-date work leaves no retries. */
  ghost predicate RootBudget(revision: nat, active: Option<Work>, dirty: map<Path, Uri>, retries: map<Path, nat>, started: map<Path, nat>, r: Path) {
    && Count(retries, r) <= 2 && Count(started, r) <= 3
    && (r in dirty ==> Count(started, r) <= Count(retries, r))
    && (active.Some? && active.value.root == r && active.value.root != "" && active.value.revision == revision ==>
          r !in dirty && Count(started, r) <= Count(retries, r) + 1)
  }

  ghost predicate Budgeted(s: State) {
    && (forall r :: RootBudget(s.revision, s.active, s.dirty, s.retries, s.started, r))
    && (s.active.Some? && s.active.value.revision != s.revision ==> s.retries == map[] && s.started == map[])
  }

  /** After a shutdown nothing is queued and whatever still runs is cancelled; the queue is
      bounded; the empty root is never diagnosed. */
  ghost predicate Settled(s: State) {
    && |s.pending| <= MAX_PENDING
    && (s.isShutdown ==> s.pending == [] && s.dirty == map[] && (s.active.Some? ==> s.active.value.cancelled))
    && (s.active.Some? ==> (s.active.value.id.None? <==> s.active.value.root != ""))
  }

  /** The empty root does not become dirty. */
  ghost predicate Rooted(s: State) {
    "" !in s.dirty
  }

  // ------------------------------------------------------------------------- budget ---

  /** What taking from the queue leaves alone, and what it hands over. */
  ghost predicate TookPending(s: State, t: State) {
    && t.revision == s.revision && t.server == s.server && t.retries == s.retries && t.started == s.started
    && t.dirty == s.dirty && t.isShutdown == s.isShutdown && t.last == s.last && t.exited == s.exited && t.inputOpen == s.inputOpen
    && |t.pending| <= |s.pending|
    && (t.active.None? ==> t.pending == [])
    && (t.active.Some? ==> |t.pending| < |s.pending|)
    && (t.active.Some? ==> t.active.value.root == "" && t.active.value.id.Some? && t.active.value.revision == s.revision
                           && !t.active.value.cancelled && t.active.value.copy == s.server)
  }

  lemma {:induction false} TakePendingParts(s: State)
    requires s.active.None?
    ensures TookPending(s, TakePending(s))
    decreases |s.pending|
  {
    TakePendingIs(s);
    hide TakePending, PassOver, TookPending;
    if s.pending == [] || (!s.pending[0].cancelled && s.pending[0].revision == s.revision) {
      TookAtOnce(s);
    } else {
      var p := PassOver(s, if s.pending[0].cancelled then -32800 else -32801);
      PassOverParts(s, if s.pending[0].cancelled then -32800 else -32801);
      TakePendingParts(p);
      TookAfter(s, p, TakePending(p));
    }
  }

  lemma {:induction false} TookAtOnce(s: State)
    requires s.active.None?
    requires s.pending != [] ==> !s.pending[0].cancelled && s.pending[0].revision == s.revision
    ensures TookPending(s, TakePending(s))
  {
  }

  lemma {:induction false} PassOverParts(s: State, code: int)
    requires s.pending != []
    ensures var p := PassOver(s, code);
            && p.revision == s.revision && p.server == s.server && p.retries == s.retries && p.started == s.started && p.active == s.active
            && p.dirty == s.dirty && p.isShutdown == s.isShutdown && p.last == s.last && p.exited == s.exited && p.inputOpen == s.inputOpen
            && p.pending == s.pending[1..] && p.owed == s.owed
  {
  }

  lemma {:induction false} TookAfter(s: State, p: State, t: State)
    requires p.revision == s.revision && p.server == s.server && p.retries == s.retries && p.started == s.started
    requires p.dirty == s.dirty && p.isShutdown == s.isShutdown && p.last == s.last && p.exited == s.exited && p.inputOpen == s.inputOpen
    requires |p.pending| < |s.pending| && TookPending(p, t)
    ensures TookPending(s, t)
  {
  }

  lemma {:induction false} DispatchBudgeted(s: State)
    requires Budgeted(s)
    ensures Budgeted(Dispatch(s))
  {
    if s.active.None? {
      TakePendingParts(s);
      var t := TakePending(s);
      hide TakePending;
      assert Budgeted(t) by {
        forall r ensures RootBudget(t.revision, t.active, t.dirty, t.retries, t.started, r) {
          assert RootBudget(s.revision, s.active, s.dirty, s.retries, s.started, r);
        }
      }
      TakeDirtyBudgeted(t);
    }
  }

  lemma {:induction false} TakeDirtyBudgeted(s: State)
    requires Budgeted(s)
    ensures Budgeted(TakeDirty(s))
  {
    var t := TakeDirty(s);
    hide TakeDirty;
    TakeDirtyParts(s);
    forall r ensures RootBudget(t.revision, t.active, t.dirty, t.retries, t.started, r) {
      assert RootBudget(s.revision, s.active, s.dirty, s.retries, s.started, r);
    }
  }

  lemma {:induction false} TakeDirtyParts(s: State)
    ensures var t := TakeDirty(s);
            && t.revision == s.revision && t.server == s.server && t.retries == s.retries && t.pending == s.pending && t.log == s.log
            && t.isShutdown == s.isShutdown && t.last == s.last && t.exited == s.exited && t.inputOpen == s.inputOpen
            && (s.active.Some? ==> t == s)
            && (s.active.None? && s.dirty != map[] ==>
                  var root := Least(s.dirty.Keys);
                  && root in s.dirty && t.dirty == s.dirty - {root}
                  && (root == "" ==> t.active.None? && t.started == s.started)
                  && (root != "" ==> t.active.Some? && t.active.value.root == root && t.active.value.revision == s.revision
                                     && t.active.value.id.None? && t.active.value.copy == s.server
                                     && t.started == s.started[root := Count(s.started, root) + 1]))
            && (s.dirty == map[] ==> t == s)
  {
    hide IsLeast;
    assert s.dirty.Keys == {} <==> s.dirty == map[];
    if s.dirty.Keys != {} { LeastIn(s.dirty.Keys); }
  }

  lemma {:induction false} LeastIn(s: set<Path>)
    requires s != {}
    ensures Least(s) in s && ("" in s ==> Least(s) == "")
  {
    if "" in s { LeastUnique(s, ""); }
  }

  /** What a message that changes no document may touch. */
  ghost predicate Quietly(s: State, m: Message, t: State) {
    && t.revision == s.revision && t.retries == s.retries && t.started == s.started && t.last == s.last
    && t.server.docs == s.server.docs && t.server.published == s.server.published
    && (t.active == s.active || t.active == CancelWork(s.active))
    && t.dirty == (if m.Shutdown? then map[] else s.dirty)
    && t.isShutdown == (s.isShutdown || m.Shutdown?) && t.exited == (s.exited || m.Exit?)
    && (m.Shutdown? ==> t.pending == [] && t.active == CancelWork(s.active))
    && (|s.pending| <= MAX_PENDING ==> |t.pending| <= MAX_PENDING)
    && (s.isShutdown && m.Exit? ==> t.pending == s.pending && t.active == s.active)
  }

  lemma {:induction false} QuietlyParts(s: State, m: Message)
    requires s.isShutdown ==> m.Exit? || m.Shutdown?
    ensures Quietly(s, m, HandleQuietly(s, m))
  {
    QuietlyIs(s, m);
    hide HandleQuietly, CloseDown, Cancel, Enqueue, CancelWork, Configure, Replies, Refused, Send;
    match m {
      case Shutdown(id) => CloseDownParts(s, id);
      case CancelRequest(_, target) => CancelParts(s, target);
      case Initialize(id, inlay, folders) => InitializeParts(s, id, inlay, folders);
      case Call(id) => CallParts(s, id);
      case DidChange(_, _, _, _, _) => SendParts(s);
      case _ =>
    }
  }

  lemma {:induction false} SendParts(s: State)
    ensures var t := Send(s, Notice);
            && t.revision == s.revision && t.retries == s.retries && t.started == s.started && t.last == s.last && t.server == s.server
            && t.active == s.active && t.pending == s.pending && t.dirty == s.dirty && t.isShutdown == s.isShutdown && t.exited == s.exited
  {
  }

  lemma {:induction false} InitializeParts(s: State, id: Option<Id>, inlay: Option<bool>, folders: seq<Folder>)
    ensures var t := Replies(s.(server := Configure(s.server, inlay, folders)), id);
            && t.revision == s.revision && t.retries == s.retries && t.started == s.started && t.last == s.last
            && t.active == s.active && t.pending == s.pending && t.dirty == s.dirty && t.isShutdown == s.isShutdown && t.exited == s.exited
            && t.server.docs == s.server.docs && t.server.published == s.server.published
  {
  }

  lemma {:induction false} EnqueueParts(s: State, id: Id)
    ensures var t := Enqueue(s, id);
            && t.revision == s.revision && t.retries == s.retries && t.started == s.started && t.last == s.last
            && t.active == s.active && t.dirty == s.dirty && t.isShutdown == s.isShutdown && t.exited == s.exited
            && t.server == s.server && |t.pending| == |s.pending| + 1
  {
  }

  lemma {:induction false} CallParts(s: State, id: Option<Id>)
    ensures var t := if id.None? then s else if |s.pending| >= MAX_PENDING then Refused(s, id, -32000) else Enqueue(s, id.value);
            && t.revision == s.revision && t.retries == s.retries && t.started == s.started && t.last == s.last
            && t.active == s.active && t.dirty == s.dirty && t.isShutdown == s.isShutdown && t.exited == s.exited
            && t.server == s.server && (|s.pending| <= MAX_PENDING ==> |t.pending| <= MAX_PENDING)
  {
    if id.Some? {
      RefusedParts(s, id, -32000);
      EnqueueParts(s, id.value);
    }
    hide Refused, Enqueue;
  }

  lemma {:induction false} CloseDownParts(s: State, id: Option<Id>)
    ensures var t := CloseDown(s, id);
            && t.active == CancelWork(s.active) && t.pending == [] && t.dirty == map[] && t.isShutdown && t.exited == s.exited
            && t.server == s.server && t.revision == s.revision && t.retries == s.retries && t.started == s.started && t.last == s.last
  {
    hide Shutting, CancelWork;
  }

  lemma {:induction false} CancelParts(s: State, target: Id)
    ensures var t := Cancel(s, target);
            && t.server == s.server && t.revision == s.revision && t.retries == s.retries && t.started == s.started && t.last == s.last
            && t.dirty == s.dirty && t.isShutdown == s.isShutdown && t.exited == s.exited && (t.active == s.active || t.active == CancelWork(s.active))
            && |t.pending| == |s.pending|
  {
  }

  lemma {:induction false} RefusedParts(s: State, id: Option<Id>, code: int)
    ensures var t := Refused(s, id, code);
            && t.revision == s.revision && t.retries == s.retries && t.started == s.started && t.last == s.last && t.server == s.server
            && t.active == s.active && t.pending == s.pending && t.dirty == s.dirty && t.isShutdown == s.isShutdown && t.exited == s.exited
  {
  }

  lemma {:induction false} HandleBudgeted(s: State, m: Message, fs: Files, marks: map<Path, Uri>)
    requires Budgeted(s) && FreshWork(s.server, s.revision, s.active)
    ensures Budgeted(Handle(s, m, fs, marks))
  {
    hide *;
    HandleIs(s, m, fs, marks);
    if s.isShutdown && !m.Exit? && !m.Shutdown? {
      RefusedParts(s, m.id, -32600);
      BudgetKept(s, Refused(s, m.id, -32600));
    } else if Invalidates(s, m) {
      ChangeParts(s, m, fs, marks);
      ChangeBudgeted(s.server, s.revision, s.active, HandleChange(s, m, fs, marks));
    } else {
      QuietlyBudgeted(s, m);
    }
  }

  lemma {:induction false} QuietlyBudgeted(s: State, m: Message)
    requires Budgeted(s) && (s.isShutdown ==> m.Exit? || m.Shutdown?)
    ensures Budgeted(HandleQuietly(s, m))
  {
    QuietlyParts(s, m);
    hide HandleQuietly, Budgeted;
    BudgetKept(s, HandleQuietly(s, m));
  }

  /** After a change every budget starts afresh. */
  lemma {:induction false} ChangeBudgeted(server: Editor, revision: nat, active: Option<Work>, t: State)
    requires FreshWork(server, revision, active) && t.active == active && t.revision == revision + 1
    requires t.retries == map[] && t.started == map[]
    ensures Budgeted(t)
  {
  }

  lemma {:induction false} BudgetKept(s: State, t: State)
    requires Budgeted(s) && t.revision == s.revision && t.retries == s.retries && t.started == s.started
    requires t.active == s.active || t.active == CancelWork(s.active)
    requires t.dirty == s.dirty || t.dirty == map[]
    ensures Budgeted(t)
  {
    forall r ensures RootBudget(t.revision, t.active, t.dirty, t.retries, t.started, r) {
      assert RootBudget(s.revision, s.active, s.dirty, s.retries, s.started, r);
    }
  }

  lemma {:induction false} CompleteBudgeted(s: State, a: Answer, frames: seq<Frame>, published: map<Uri, Path>)
    requires Budgeted(s) && s.active.Some?
    ensures Budgeted(Complete(s, a, frames, published))
  {
    var t := Complete(s, a, frames, published);
    hide Stale, ClosedScratch, LogAfter, LastAfter;
    forall r ensures RootBudget(t.revision, t.active, t.dirty, t.retries, t.started, r) {
      assert RootBudget(s.revision, s.active, s.dirty, s.retries, s.started, r);
    }
  }

  lemma {:induction false} NextBudgeted(s: State, e: Event)
    requires Enabled(s, e) && Budgeted(s) && Fresh(s)
    ensures Budgeted(Next(s, e))
  {
    hide Budgeted, Handle, Dispatch, Complete, Written, Invalidates, Marks, OverlayOk, FreshQueue, FreshWork;
    match e {
      case EDispatch => DispatchBudgeted(s);
      case EReceive(input, fs, marks) => if input.Received? { HandleBudgeted(s, input.message, fs, marks); } else { QuietBudgeted(s, input, fs, marks); }
      case EComplete(a, frames, published) => CompleteBudgeted(s, a, frames, published);
    }
  }

  lemma {:induction false} QuietBudgeted(s: State, input: Input, fs: Files, marks: map<Path, Uri>)
    requires Budgeted(s) && !input.Received?
    ensures Budgeted(Receive(s, input, fs, marks))
  {
    hide RootBudget;
  }

  // ------------------------------------------------------------------------ settling ---

  lemma {:induction false} DispatchSettled(s: State)
    requires Settled(s)
    ensures Settled(Dispatch(s)) && (Rooted(s) ==> Rooted(Dispatch(s)))
  {
    if s.active.None? {
      TakePendingParts(s);
      TakeDirtyParts(TakePending(s));
      hide TakePending, TakeDirty, Least;
    }
  }

  lemma {:induction false} CompleteSettled(s: State, a: Answer, frames: seq<Frame>, published: map<Uri, Path>)
    requires Settled(s) && s.active.Some?
    ensures Settled(Complete(s, a, frames, published)) && (Rooted(s) ==> Rooted(Complete(s, a, frames, published)))
  {
    hide LogAfter, RetriesAfter, LastAfter, Stale, ClosedScratch;
  }

  lemma {:induction false} NextSettled(s: State, e: Event)
    requires Enabled(s, e) && Settled(s)
    ensures Settled(Next(s, e))
  {
    NextIs(s, e);
    hide Next, Receive, Enabled, Settled, Handle, Dispatch, Complete;
    match e {
      case EDispatch => DispatchSettled(s);
      case EReceive(input, fs, marks) =>
        if input.Received? { HandleSettled(s, input.message, fs, marks); } else { QuietSettled(s, input, fs, marks); }
      case EComplete(a, frames, published) => CompleteSettled(s, a, frames, published);
    }
  }

  lemma {:induction false} QuietSettled(s: State, input: Input, fs: Files, marks: map<Path, Uri>)
    requires !input.Received?
    ensures Settled(s) ==> Settled(Receive(s, input, fs, marks))
    ensures Rooted(s) ==> Rooted(Receive(s, input, fs, marks))
  {
  }

  lemma {:induction false} HandleSettled(s: State, m: Message, fs: Files, marks: map<Path, Uri>)
    requires Settled(s)
    ensures Settled(Handle(s, m, fs, marks))
  {
    HandleIs(s, m, fs, marks);
    hide Handle, HandleChange, HandleQuietly, Refused, Invalidates;
    if s.isShutdown && !m.Exit? && !m.Shutdown? {
      RefusedParts(s, m.id, -32600);
    } else if Invalidates(s, m) {
      ChangeParts(s, m, fs, marks);
    } else {
      QuietlyParts(s, m);
    }
  }

  lemma {:induction false} NextRooted(s: State, e: Event)
    requires Enabled(s, e) && Settled(s) && Rooted(s)
    ensures Rooted(Next(s, e))
  {
    NextIs(s, e);
    hide Next, Receive, Settled, Handle, Dispatch, Complete, Rooted, Invalidates, Marks, Written, Fits;
    match e {
      case EDispatch => DispatchSettled(s);
      case EReceive(input, fs, marks) =>
        if input.Received? { HandleRooted(s, input.message, fs, marks); } else { QuietSettled(s, input, fs, marks); }
      case EComplete(a, frames, published) => CompleteSettled(s, a, frames, published);
    }
  }

  lemma {:induction false} HandleRooted(s: State, m: Message, fs: Files, marks: map<Path, Uri>)
    requires Rooted(s)
    requires Invalidates(s, m) ==> Marks(Edited(s, m).server, fs, marks)
    ensures Rooted(Handle(s, m, fs, marks))
  {
    HandleIs(s, m, fs, marks);
    hide Handle, HandleChange, HandleQuietly, Refused, Invalidates, Edited, Marks;
    if s.isShutdown && !m.Exit? && !m.Shutdown? {
      RefusedParts(s, m.id, -32600);
    } else if Invalidates(s, m) {
      MarksRooted(Edited(s, m).server, fs, marks);
      ChangeRooted(s, m, fs, marks);
    } else {
      QuietlyParts(s, m);
    }
  }

  lemma {:induction false} MarksRooted(e: Editor, fs: Files, marks: map<Path, Uri>)
    requires Marks(e, fs, marks)
    ensures "" !in marks
  {
    hide RootOf;
    assert "" !in Manifests(e, fs);
  }

  lemma {:induction false} ChangeRooted(s: State, m: Message, fs: Files, marks: map<Path, Uri>)
    requires Rooted(s) && "" !in marks
    ensures Rooted(HandleChange(s, m, fs, marks))
  {
    EditedLog(s, m);
    hide Edited, RootOf;
  }

  // --------------------------------------------------------------------- termination ---

  function ActiveRoot(active: Option<Work>): set<Path> {
    if active.Some? && active.value.root != "" then {active.value.root} else {}
  }

  /** The first attempt a root still has: a root only in flight has used one more. */
  function Attempt(dirty: map<Path, Uri>, retries: map<Path, nat>, r: Path): nat {
    Count(retries, r) + if r in dirty then 0 else 1
  }

  /** The runs that could still be started without any further input. */
  function Chances(active: Option<Work>, dirty: map<Path, Uri>, retries: map<Path, nat>): set<(Path, nat)> {
    set r, k | r in dirty.Keys + ActiveRoot(active) && Attempt(dirty, retries, r) <= k < 3 :: (r, k)
  }

  function ChancesOf(s: State): set<(Path, nat)> {
    Chances(s.active, s.dirty, s.retries)
  }

  function Busy(s: State): nat {
    if s.active.Some? then 1 else 0
  }

  /** t is lower than s in the order chances, queue, worker. */
  ghost predicate Lower(t: State, s: State) {
    || ChancesOf(t) < ChancesOf(s)
    || (ChancesOf(t) == ChancesOf(s) && (|t.pending| < |s.pending| || (|t.pending| == |s.pending| && Busy(t) < Busy(s))))
  }

  lemma {:induction false} NothingPending(s: State)
    requires s.active.None? && s.pending == []
    ensures TakePending(s) == s
  {
  }

  /** Without input, dispatching changes nothing or makes progress. */
  lemma {:induction false} DispatchLowers(s: State)
    requires Budgeted(s)
    ensures Lower(Dispatch(s), s) || Dispatch(s) == s
  {
    if s.active.None? {
      TakePendingParts(s);
      var p := TakePending(s);
      hide TakePending, TakeDirty;
      TakeDirtyParts(p);
      var t := TakeDirty(p);
      if p.active.Some? {
        assert ChancesOf(p) == ChancesOf(s);
      } else if p.dirty != map[] {
        var root := Least(p.dirty.Keys);
        assert RootBudget(s.revision, s.active, s.dirty, s.retries, s.started, root);
        assert (root, Count(s.retries, root)) in ChancesOf(s) && (root, Count(s.retries, root)) !in ChancesOf(t);
        assert ChancesOf(t) <= ChancesOf(s);
      } else if s.pending == [] {
        assert p == s by { NothingPending(s); }
      } else {
        assert ChancesOf(t) == ChancesOf(s);
      }
    }
  }

  /** A job that comes back always makes progress. */
  lemma {:induction false} CompleteLowers(s: State, a: Answer, frames: seq<Frame>, published: map<Uri, Path>)
    requires Budgeted(s) && s.active.Some?
    ensures Lower(Complete(s, a, frames, published), s)
  {
    var w := s.active.value;
    var t := Complete(s, a, frames, published);
    hide Stale, ClosedScratch, LogAfter, LastAfter;
    assert RootBudget(s.revision, s.active, s.dirty, s.retries, s.started, w.root);
    assert ChancesOf(t) <= ChancesOf(s);
  }

  /** After dispatching, an idle worker leaves the queue empty; and dirty roots are left
      waiting exactly when the empty root was dirty beside others. */
  lemma {:induction false} IdleAfterDispatch(s: State)
    ensures var t := Dispatch(s);
            && (t.active.None? ==> t.pending == [])
            && (t.active.None? && t.dirty != map[] <==>
                  s.active.None? && TakePending(s).active.None? && "" in s.dirty && s.dirty - {""} != map[])
  {
    if s.active.None? {
      TakePendingParts(s);
      hide TakePending, TakeDirty, Least;
      TakeDirtyParts(TakePending(s));
      if s.dirty != map[] { LeastIn(s.dirty.Keys); }
    }
  }
}
