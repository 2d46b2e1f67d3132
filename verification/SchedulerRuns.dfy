/** What every step of the scheduler keeps, and what follows for whole runs. */
module SchedulerRuns {
  import opened Wrappers
  import opened Documents
  import opened Scheduler

  // ------------------------------------------------------------------------ cases ---

  lemma {:induction false} HandleIs(s: State, m: Message, fs: Files, marks: map<Path, Uri>)
    ensures s.isShutdown && !m.Exit? && !m.Shutdown? ==> Handle(s, m, fs, marks) == Refused(s, m.id, -32600)
    ensures Invalidates(s, m) ==> !s.isShutdown && Handle(s, m, fs, marks) == HandleChange(s, m, fs, marks)
    ensures !Invalidates(s, m) && (s.isShutdown ==> m.Exit? || m.Shutdown?) ==> Handle(s, m, fs, marks) == HandleQuietly(s, m)
  {
    hide HandleChange, HandleQuietly, Refused;
  }

  lemma {:induction false} QuietlyIs(s: State, m: Message)
    ensures var t := HandleQuietly(s, m);
            match m
            case Exit(_) => t == s.(exited := true)
            case Initialize(id, inlay, folders) => t == Replies(s.(server := Configure(s.server, inlay, folders)), id)
            case Shutdown(id) => t == CloseDown(s, id)
            case CancelRequest(_, target) => t == Cancel(s, target)
            case DidChange(_, _, _, _, _) => t == s || t == Send(s, Notice)
            case Call(id) =>
              t == if id.None? then s else if |s.pending| >= MAX_PENDING then Refused(s, id, -32000) else Enqueue(s, id.value)
            case _ => t == s
  {
    hide CloseDown, Cancel, Enqueue, Configure, Replies, Refused, Send;
  }

  lemma {:induction false} TakePendingIs(s: State)
    requires s.active.None?
    ensures TakePending(s)
         == if s.pending == [] then s
            else if s.pending[0].cancelled then TakePending(PassOver(s, -32800))
            else if s.pending[0].revision != s.revision then TakePending(PassOver(s, -32801))
            else s.(pending := s.pending[1..],
                    active := Some(Work(Some(s.pending[0].id), "", "", s.revision, false, s.server, s.pending[0].asked)))
  {
    hide PassOver;
  }

  lemma {:induction false} NextIs(s: State, e: Event)
    requires Enabled(s, e)
    ensures e.EDispatch? ==> Next(s, e) == Dispatch(s)
    ensures e.EReceive? ==> s.inputOpen && Next(s, e) == Receive(s, e.input, e.fs, e.marks)
    ensures e.EReceive? && e.input.Received? ==> Receive(s, e.input, e.fs, e.marks) == Handle(s, e.input.message, e.fs, e.marks)
    ensures e.EComplete? ==> s.active.Some? && Fits(s.active.value, e.answer) && Next(s, e) == Complete(s, e.answer, e.frames, e.published)
                             && Written(s, s.active.value, e.answer, e.frames, e.published)
  {
    hide Dispatch, Handle, Complete, Written, Fits, Invalidates, Marks;
  }

  // --------------------------------------------------------------------- accounting ---

  function QueuedIds(pending: seq<Queued>): multiset<Id> {
    if pending == [] then multiset{} else multiset{pending[0].id} + QueuedIds(pending[1..])
  }

  function ActiveIds(active: Option<Work>): multiset<Id> {
    if active.Some? && active.value.id.Some? then multiset{active.value.id.value} else multiset{}
  }

  /** Every id owed an answer was answered, waits in the queue, or is being worked on; each
      exactly once. */
  ghost predicate Balanced(owed: multiset<Id>, log: seq<Frame>, pending: seq<Queued>, active: Option<Work>) {
    owed == Answered(log) + QueuedIds(pending) + ActiveIds(active)
  }

  ghost predicate Accounted(s: State) {
    Balanced(s.owed, s.log, s.pending, s.active)
  }

  lemma {:induction false} QueuedAppend(a: seq<Queued>, q: Queued)
    ensures QueuedIds(a + [q]) == QueuedIds(a) + multiset{q.id}
    decreases |a|
  {
    if a == [] {
      assert a + [q] == [q];
    } else {
      assert (a + [q])[1..] == a[1..] + [q];
      QueuedAppend(a[1..], q);
    }
  }

  lemma {:induction false} SameIds(a: seq<Queued>, b: seq<Queued>)
    requires |a| == |b| && forall i | 0 <= i < |a| :: a[i].id == b[i].id
    ensures QueuedIds(a) == QueuedIds(b)
    decreases |a|
  {
    if a != [] {
      SameIds(a[1..], b[1..]);
    }
  }

  lemma {:induction false} ShuttingAnswers(pending: seq<Queued>)
    ensures Answered(Shutting(pending)) == QueuedIds(pending)
    decreases |pending|
  {
    if pending != [] {
      ShuttingAnswers(pending[1..]);
      var first := [Response(Some(pending[0].id), Some(-32800))];
      assert Shutting(pending) == first + Shutting(pending[1..]);
      AnsweredAppend(first, Shutting(pending[1..]));
      assert first[..0] == [];
    }
  }

  lemma {:induction false} AnsweredOne(log: seq<Frame>, f: Frame)
    ensures Answered(log + [f]) == Answered(log) + if f.Response? then OneId(f.id) else multiset{}
  {
    assert (log + [f])[..|log|] == log;
  }

  lemma {:induction false} HeadAnswered(owed: multiset<Id>, log: seq<Frame>, pending: seq<Queued>, code: int)
    requires pending != [] && Balanced(owed, log, pending, None)
    ensures Balanced(owed, log + [Response(Some(pending[0].id), Some(code))], pending[1..], None)
  {
    AnsweredOne(log, Response(Some(pending[0].id), Some(code)));
  }

  lemma {:induction false} HeadTaken(owed: multiset<Id>, log: seq<Frame>, pending: seq<Queued>, w: Work)
    requires pending != [] && Balanced(owed, log, pending, None) && w.id == Some(pending[0].id)
    ensures Balanced(owed, log, pending[1..], Some(w))
  {
  }

  /** An id is owed and answered at once. */
  lemma {:induction false} AnsweredAtOnce(owed: multiset<Id>, log: seq<Frame>, pending: seq<Queued>, active: Option<Work>, id: Option<Id>, code: Option<int>)
    requires Balanced(owed, log, pending, active)
    ensures Balanced(owed + OneId(id), log + [Response(id, code)], pending, active)
  {
    AnsweredOne(log, Response(id, code));
  }

  lemma {:induction false} Told(owed: multiset<Id>, log: seq<Frame>, pending: seq<Queued>, active: Option<Work>, f: Frame)
    requires Balanced(owed, log, pending, active) && (f.Response? ==> f.id.None?)
    ensures Balanced(owed, log + [f], pending, active)
  {
    AnsweredOne(log, f);
  }

  lemma {:induction false} ShutAnswered(owed: multiset<Id>, log: seq<Frame>, pending: seq<Queued>, active: Option<Work>, id: Option<Id>)
    requires Balanced(owed, log, pending, active)
    ensures Balanced(owed + OneId(id), log + Shutting(pending) + [Response(id, None)], [], CancelWork(active))
  {
    AnsweredAppend(log, Shutting(pending));
    ShuttingAnswers(pending);
    AnsweredOne(log + Shutting(pending), Response(id, None));
  }

  lemma {:induction false} JobAnswered(owed: multiset<Id>, log: seq<Frame>, pending: seq<Queued>, w: Work, frames: seq<Frame>, code: Option<int>)
    requires Balanced(owed, log, pending, Some(w)) && Answered(frames) == multiset{}
    ensures Balanced(owed, log + frames + if w.id.Some? then [Response(w.id, code)] else [], pending, None)
  {
    AnsweredAppend(log, frames);
    if w.id.Some? {
      AnsweredOne(log + frames, Response(w.id, code));
    } else {
      assert log + frames + [] == log + frames;
    }
  }

  lemma {:induction false} TakePendingAccounted(s: State)
    requires Accounted(s) && s.active.None?
    ensures Accounted(TakePending(s))
    decreases |s.pending|
  {
    hide Balanced;
    if s.pending != [] {
      var next := s.pending[0];
      if next.cancelled {
        HeadAnswered(s.owed, s.log, s.pending, -32800);
        TakePendingAccounted(PassOver(s, -32800));
      } else if next.revision != s.revision {
        HeadAnswered(s.owed, s.log, s.pending, -32801);
        TakePendingAccounted(PassOver(s, -32801));
      } else {
        HeadTaken(s.owed, s.log, s.pending, TakePending(s).active.value);
      }
    }
  }

  lemma {:induction false} EditedLog(s: State, m: Message)
    ensures var e := Edited(s, m);
            && e == s.(server := e.server, log := e.log)
            && e.log == if m.DidClose? then s.log + [Publish(m.uri, None, [])] else s.log
  {
    hide Opened, Changed, Closed;
  }

  lemma {:induction false} HandleAccounted(s: State, m: Message, fs: Files, marks: map<Path, Uri>)
    requires Accounted(s)
    ensures Accounted(Handle(s, m, fs, marks))
  {
    HandleIs(s, m, fs, marks);
    hide Handle, Balanced, HandleChange, HandleQuietly, Invalidates;
    if s.isShutdown && !m.Exit? && !m.Shutdown? {
      AnsweredAtOnce(s.owed, s.log, s.pending, s.active, m.id, Some(-32600));
    } else if Invalidates(s, m) {
      ChangeParts(s, m, fs, marks);
      if m.DidClose? { Told(s.owed, s.log, s.pending, s.active, Publish(m.uri, None, [])); }
    } else {
      QuietlyAccounted(s, m);
    }
  }

  /** What a change leaves alone. */
  lemma {:induction false} ChangeParts(s: State, m: Message, fs: Files, marks: map<Path, Uri>)
    ensures var s' := HandleChange(s, m, fs, marks);
            && s'.server == Edited(s, m).server && s'.revision == s.revision + 1 && s'.retries == map[] && s'.started == map[]
            && s'.active == s.active && s'.pending == s.pending && s'.owed == s.owed && s'.last == s.last
            && s'.isShutdown == s.isShutdown && s'.exited == s.exited && s'.inputOpen == s.inputOpen
            && s'.log == if m.DidClose? then s.log + [Publish(m.uri, None, [])] else s.log
  {
    hide Edited, RootOf;
    EditedLog(s, m);
  }

  lemma {:induction false} QuietlyAccounted(s: State, m: Message)
    requires Accounted(s)
    ensures Accounted(HandleQuietly(s, m))
  {
    hide Balanced, CancelQueued, Shutting, CancelWork, Configure;
    match m {
      case Initialize(id, _, _) => AnsweredAtOnce(s.owed, s.log, s.pending, s.active, id, None);
      case Shutdown(id) => ShutAnswered(s.owed, s.log, s.pending, s.active, id);
      case CancelRequest(_, target) => CancelAccounted(s.owed, s.log, s.pending, s.active, target);
      case DidChange(_, _, _, _, _) => Told(s.owed, s.log, s.pending, s.active, Notice);
      case Call(id) =>
        AnsweredAtOnce(s.owed, s.log, s.pending, s.active, id, Some(-32000));
        if id.Some? {
          CallAccounted(s.owed, s.log, s.pending, s.active, Queued(id.value, s.revision, false, s.server.docs));
        }
      case _ =>
    }
  }

  lemma {:induction false} CancelAccounted(owed: multiset<Id>, log: seq<Frame>, pending: seq<Queued>, active: Option<Work>, target: Id)
    requires Balanced(owed, log, pending, active)
    ensures Balanced(owed, log, CancelQueued(pending, target), active) && Balanced(owed, log, CancelQueued(pending, target), CancelWork(active))
  {
    SameIds(pending, CancelQueued(pending, target));
  }

  lemma {:induction false} CallAccounted(owed: multiset<Id>, log: seq<Frame>, pending: seq<Queued>, active: Option<Work>, q: Queued)
    requires Balanced(owed, log, pending, active)
    ensures Balanced(owed + multiset{q.id}, log, pending + [q], active)
  {
    QueuedAppend(pending, q);
  }

  lemma {:induction false} CompleteAccounted(s: State, a: Answer, frames: seq<Frame>, published: map<Uri, Path>)
    requires Accounted(s) && s.active.Some? && Answered(frames) == multiset{}
    ensures Accounted(Complete(s, a, frames, published))
  {
    hide Balanced, Answered, Code, RetriesAfter, DirtyAfter, LastAfter;
    var w := s.active.value;
    JobAnswered(s.owed, s.log, s.pending, w, frames, Code(s, w, a));
  }

  lemma {:induction false} WrittenAnswersNothing(s: State, a: Answer, frames: seq<Frame>, published: map<Uri, Path>)
    requires s.active.Some? && Written(s, s.active.value, a, frames, published)
    ensures Answered(frames) == multiset{}
  {
    hide Retried, Accepted, ClosedScratch, DropRoot;
  }

  lemma {:induction false} NextAccounted(s: State, e: Event)
    requires Enabled(s, e) && Accounted(s)
    ensures Accounted(Next(s, e))
  {
    hide Balanced, Handle, Complete, TakePending, Written, Invalidates, Marks;
    match e {
      case EDispatch => if s.active.None? { TakePendingAccounted(s); TakeDirtyAccounted(TakePending(s)); }
      case EReceive(input, fs, marks) =>
        match input {
          case Received(m) => HandleAccounted(s, m, fs, marks);
          case BadBody(code) => Told(s.owed, s.log, s.pending, s.active, Response(None, Some(code)));
          case BadFrame => Told(s.owed, s.log, s.pending, s.active, Response(None, Some(-32600)));
          case EndOfInput =>
        }
      case EComplete(a, frames, published) =>
        WrittenAnswersNothing(s, a, frames, published);
        CompleteAccounted(s, a, frames, published);
    }
  }

  lemma {:induction false} TakeDirtyAccounted(s: State)
    requires Accounted(s)
    ensures Accounted(TakeDirty(s))
  {
    hide Least, Answered, QueuedIds;
  }

  // ---------------------------------------------------------------------- freshness ---

  predicate SameDocuments(a: Editor, b: Editor) {
    a.docs == b.docs && a.overlay == b.overlay && a.published == b.published
  }

  /** The worker's copy is never newer than the documents, and is the live server's as long
      as the revision stands. */
  ghost predicate FreshWork(server: Editor, revision: nat, active: Option<Work>) {
    active.Some? ==>
      && active.value.revision <= revision
      && (active.value.revision == revision ==> SameDocuments(active.value.copy, server) && active.value.asked == server.docs)
  }

  /** A request of the current revision was made on the live documents. */
  ghost predicate FreshQueue(docs: map<Uri, Doc>, revision: nat, pending: seq<Queued>) {
    forall i | 0 <= i < |pending| ::
      pending[i].revision <= revision && (pending[i].revision == revision ==> pending[i].asked == docs)
  }

  ghost predicate Fresh(s: State) {
    && OverlayOk(s.server.docs, s.server.overlay)
    && FreshWork(s.server, s.revision, s.active)
    && FreshQueue(s.server.docs, s.revision, s.pending)
  }

  lemma {:induction false} TakePendingFresh(s: State)
    requires Fresh(s) && s.active.None?
    ensures Fresh(TakePending(s))
    decreases |s.pending|
  {
    hide OverlayOk;
    if s.pending != [] {
      QueueTail(s.server.docs, s.revision, s.pending);
      hide FreshQueue;
      if s.pending[0].cancelled {
        TakePendingFresh(PassOver(s, -32800));
      } else if s.pending[0].revision != s.revision {
        TakePendingFresh(PassOver(s, -32801));
      }
    }
  }

  lemma {:induction false} QueueTail(docs: map<Uri, Doc>, revision: nat, pending: seq<Queued>)
    requires FreshQueue(docs, revision, pending) && pending != []
    ensures FreshQueue(docs, revision, pending[1..])
    ensures pending[0].revision == revision ==> pending[0].asked == docs
  {
  }

  lemma {:induction false} EditedOverlay(s: State, m: Message)
    requires OverlayOk(s.server.docs, s.server.overlay)
    ensures OverlayOk(Edited(s, m).server.docs, Edited(s, m).server.overlay)
  {
    hide OverlayOk, Opened, Changed, Closed;
    match m {
      case DidOpen(_, uri, text, version, path) => OpenedKeeps(s.server, uri, text, version, path);
      case DidChange(_, uri, text, version, _) => ChangedKeeps(s.server, uri, text, version);
      case DidClose(_, uri) => ClosedKeeps(s.server, uri);
      case _ =>
    }
  }

  lemma {:induction false} HandleFresh(s: State, m: Message, fs: Files, marks: map<Path, Uri>)
    requires Fresh(s)
    ensures Fresh(Handle(s, m, fs, marks))
  {
    hide OverlayOk, HandleChange, HandleQuietly, Invalidates, FreshQueue, FreshWork;
    if s.isShutdown && !m.Exit? && !m.Shutdown? {
    } else if Invalidates(s, m) {
      EditedOverlay(s, m);
      ChangeParts(s, m, fs, marks);
      Outdated(s.server, Edited(s, m).server, s.revision, s.active, s.pending);
    } else {
      QuietlyFresh(s, m);
    }
  }

  /** A change outdates everything that was asked for before. */
  lemma {:induction false} Outdated(server: Editor, server': Editor, revision: nat, active: Option<Work>, pending: seq<Queued>)
    requires FreshWork(server, revision, active) && FreshQueue(server.docs, revision, pending)
    ensures FreshWork(server', revision + 1, active) && FreshQueue(server'.docs, revision + 1, pending)
  {
  }

  lemma {:induction false} QuietlyFresh(s: State, m: Message)
    requires Fresh(s)
    ensures Fresh(HandleQuietly(s, m))
  {
    hide OverlayOk, Shutting, Named, FreshQueue, FreshWork, CancelQueued, CancelWork, Configure;
    match m {
      case Initialize(_, inlay, folders) => ConfigureFresh(s.server, s.revision, s.active, inlay, folders);
      case CancelRequest(_, target) =>
        CancelWorkFresh(s.server, s.revision, s.active);
        CancelFresh(s.server.docs, s.revision, s.pending, target);
      case Shutdown(_) =>
        CancelWorkFresh(s.server, s.revision, s.active);
        NoneAsked(s.server.docs, s.revision);
      case Call(id) =>
        if id.Some? { AskedNow(s.server.docs, s.revision, s.pending, Queued(id.value, s.revision, false, s.server.docs)); }
      case _ =>
    }
  }

  lemma {:induction false} ConfigureFresh(server: Editor, revision: nat, active: Option<Work>, inlay: Option<bool>, folders: seq<Folder>)
    requires FreshWork(server, revision, active)
    ensures var c := Configure(server, inlay, folders);
            c.docs == server.docs && c.overlay == server.overlay && FreshWork(c, revision, active)
  {
  }

  lemma {:induction false} CancelWorkFresh(server: Editor, revision: nat, active: Option<Work>)
    requires FreshWork(server, revision, active)
    ensures FreshWork(server, revision, CancelWork(active))
  {
  }

  lemma {:induction false} CancelFresh(docs: map<Uri, Doc>, revision: nat, pending: seq<Queued>, target: Id)
    requires FreshQueue(docs, revision, pending)
    ensures FreshQueue(docs, revision, CancelQueued(pending, target))
  {
  }

  lemma {:induction false} NoneAsked(docs: map<Uri, Doc>, revision: nat)
    ensures FreshQueue(docs, revision, [])
  {
  }

  lemma {:induction false} AskedNow(docs: map<Uri, Doc>, revision: nat, pending: seq<Queued>, q: Queued)
    requires FreshQueue(docs, revision, pending) && q.revision == revision && q.asked == docs
    ensures FreshQueue(docs, revision, pending + [q])
  {
  }

  lemma {:induction false} DispatchFresh(s: State)
    requires Fresh(s)
    ensures Fresh(Dispatch(s))
  {
    hide Fresh, TakePending, TakeDirty;
    if s.active.None? {
      TakePendingFresh(s);
      TakeDirtyFresh(TakePending(s));
    }
  }

  lemma {:induction false} QuietFresh(s: State, input: Input, fs: Files, marks: map<Path, Uri>)
    requires Fresh(s) && !input.Received?
    ensures Fresh(Receive(s, input, fs, marks))
  {
    hide OverlayOk, FreshWork, FreshQueue;
  }

  lemma {:induction false} NextFresh(s: State, e: Event)
    requires Enabled(s, e) && Fresh(s)
    ensures Fresh(Next(s, e))
  {
    NextIs(s, e);
    hide Next, Enabled, Fresh, Handle, Dispatch, Complete, Receive, Written, Fits;
    match e {
      case EDispatch => DispatchFresh(s);
      case EReceive(input, fs, marks) => if input.Received? { HandleFresh(s, input.message, fs, marks); } else { QuietFresh(s, input, fs, marks); }
      case EComplete(a, frames, published) => CompleteFresh(s, a, frames, published);
    }
  }

  /** What a run publishes leaves the documents alone. */
  lemma {:induction false} CompleteFresh(s: State, a: Answer, frames: seq<Frame>, published: map<Uri, Path>)
    requires Fresh(s) && s.active.Some?
    ensures Fresh(Complete(s, a, frames, published))
  {
    hide OverlayOk, LogAfter, RetriesAfter, DirtyAfter, LastAfter, FreshQueue;
  }

  lemma {:induction false} TakeDirtyFresh(s: State)
    requires Fresh(s)
    ensures Fresh(TakeDirty(s))
  {
    hide OverlayOk, FreshQueue, Least;
  }
}
