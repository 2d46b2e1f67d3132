/** The serving loop itself: one session that takes messages in, hands jobs to a worker that
    owns a copy of the server, and runs until nothing is left to do. */
module SchedulerLoop {
  import opened Wrappers
  import opened Documents
  import opened DocumentServer
  import opened Scheduler
  import opened SchedulerRuns
  import opened SchedulerBudget
  import opened SchedulerFindings

  // -------------------------------------------------------------------------- tally ---

  /** What a list of inputs asks for: the ids owed an answer, and whether it shuts the server
      down, exits, or leaves the input open. */
  datatype Tally = Tally(owed: multiset<Id>, isShutdown: bool, inputOpen: bool, exited: bool)

  /** The messages that are answered when they carry an id: initialize, shutdown and requests,
      and after a shutdown everything but exit. A notification's name is never answered. */
  predicate Answers(isShutdown: bool, m: Message) {
    m.Initialize? || m.Shutdown? || m.Call? || (isShutdown && !m.Exit?)
  }

  function Tallied(t: Tally, input: Input): Tally {
    if !t.inputOpen || t.exited then t else
    match input
    case Received(m) =>
      Tally(t.owed + (if Answers(t.isShutdown, m) then OneId(m.id) else multiset{}), t.isShutdown || m.Shutdown?, true, m.Exit?)
    case BadBody(_) => t
    case BadFrame => t.(inputOpen := false)
    case EndOfInput => t.(inputOpen := false)
  }

  function TallyOf(inputs: seq<Input>): Tally {
    if inputs == [] then Tally(multiset{}, false, true, false)
    else Tallied(TallyOf(inputs[..|inputs| - 1]), inputs[|inputs| - 1])
  }

  function StateTally(s: State): Tally {
    Tally(s.owed, s.isShutdown, s.inputOpen, s.exited)
  }

  /** A message with an id is owed an answer exactly when it is one of those answered. */
  lemma {:induction false} HandleOwes(s: State, m: Message, fs: Files, marks: map<Path, Uri>)
    requires s.inputOpen && !s.exited
    ensures StateTally(Handle(s, m, fs, marks)) == Tallied(StateTally(s), Received(m))
  {
    HandleIs(s, m, fs, marks);
    if s.isShutdown && !m.Exit? && !m.Shutdown? {
    } else if Invalidates(s, m) {
      ChangeParts(s, m, fs, marks);
      hide Handle, HandleChange, Edited;
    } else {
      hide Handle, HandleChange;
      QuietlyOwes(s, m);
    }
  }

  lemma {:induction false} QuietlyOwes(s: State, m: Message)
    requires s.inputOpen && !s.exited && !Invalidates(s, m) && (s.isShutdown ==> m.Exit? || m.Shutdown?)
    ensures StateTally(HandleQuietly(s, m)) == Tallied(StateTally(s), Received(m))
  {
    hide Shutting, Configure, CancelQueued, CancelWork, Invalidates;
    assert s.owed + multiset{} == s.owed;
  }

  lemma {:induction false} ReceiveTallied(s: State, input: Input, fs: Files, marks: map<Path, Uri>)
    requires s.inputOpen && !s.exited
    ensures StateTally(Receive(s, input, fs, marks)) == Tallied(StateTally(s), input)
  {
    if input.Received? {
      HandleOwes(s, input.message, fs, marks);
    }
    hide Handle;
  }

  lemma {:induction false} DispatchTally(s: State)
    ensures StateTally(Dispatch(s)) == StateTally(s)
  {
    if s.active.None? {
      TakePendingTally(s);
      TakeDirtyTally(TakePending(s));
      hide TakePending, TakeDirty;
    }
  }

  lemma {:induction false} TakeDirtyTally(s: State)
    ensures StateTally(TakeDirty(s)) == StateTally(s)
  {
    hide Least;
  }

  lemma {:induction false} TakePendingTally(s: State)
    requires s.active.None?
    ensures StateTally(TakePending(s)) == StateTally(s)
    decreases |s.pending|
  {
    TakePendingIs(s);
    if s.pending != [] { PassOverParts(s, if s.pending[0].cancelled then -32800 else -32801); }
    hide TakePending, PassOver;
    if s.pending != [] && (s.pending[0].cancelled || s.pending[0].revision != s.revision) {
      TakePendingTally(PassOver(s, if s.pending[0].cancelled then -32800 else -32801));
    }
  }

  /** Nothing after the end of input or an exit counts. */
  lemma {:induction false} TallyEnds(inputs: seq<Input>, n: nat)
    requires n <= |inputs| && (TallyOf(inputs[..n]).exited || !TallyOf(inputs[..n]).inputOpen)
    ensures TallyOf(inputs) == TallyOf(inputs[..n])
    decreases |inputs|
  {
    if n < |inputs| {
      var shorter := inputs[..|inputs| - 1];
      assert shorter[..n] == inputs[..n];
      TallyEnds(shorter, n);
    } else {
      assert inputs[..n] == inputs;
    }
  }

  lemma {:induction false} TallyNext(inputs: seq<Input>, n: nat)
    requires n < |inputs|
    ensures TallyOf(inputs[..n + 1]) == Tallied(TallyOf(inputs[..n]), inputs[n])
  {
    assert inputs[..n + 1][..n] == inputs[..n];
  }

  // -------------------------------------------------------------------------- marks ---

  /** Marks every root a change touches: roots with published findings, workspace folders with
      a manifest, and the roots of open documents, which win. */
  method MarkRoots(e: Editor, fs: Files) returns (marks: map<Path, Uri>)
    ensures Marks(e, fs, marks)
  {
    marks := map[];
    var uris := e.published.Keys;
    while uris != {}
      invariant uris <= e.published.Keys
      invariant marks.Keys == set u | u in e.published.Keys - uris && e.published[u] != "" :: e.published[u]
      invariant forall r | r in marks :: marks[r] == ""
      decreases |uris|
    {
      var uri :| uri in uris;
      uris := uris - {uri};
      if e.published[uri] != "" {
        marks := marks[e.published[uri] := ""];
      }
    }
    assert marks.Keys == PublishedRoots(e);
    hide PublishedRoots, Manifests, DocRoots, RootOf;
    marks := MarkFolders(e, fs, marks);
    marks := MarkDocuments(e, fs, marks);
  }

  method MarkFolders(e: Editor, fs: Files, before: map<Path, Uri>) returns (marks: map<Path, Uri>)
    requires forall r | r in before :: before[r] == ""
    ensures marks.Keys == before.Keys + Manifests(e, fs) && forall r | r in marks :: marks[r] == ""
  {
    marks := before;
    for i := 0 to |e.workspaces|
      invariant marks.Keys == before.Keys + set w | w in e.workspaces[..i] && fs.manifest(w).Some? :: fs.manifest(w).value
      invariant forall r | r in marks :: marks[r] == ""
    {
      assert e.workspaces[..i + 1] == e.workspaces[..i] + [e.workspaces[i]];
      var root := fs.manifest(e.workspaces[i]);
      if root.Some? {
        marks := marks[root.value := ""];
      }
    }
    assert e.workspaces[..|e.workspaces|] == e.workspaces;
  }

  ghost function RootsOf(e: Editor, fs: Files, uris: set<Uri>): set<Path> {
    set u | u in uris && RootOf(e.docs, fs, u) != "" :: RootOf(e.docs, fs, u)
  }

  ghost predicate MarksDocuments(e: Editor, fs: Files, before: map<Path, Uri>, seen: set<Path>, marks: map<Path, Uri>) {
    && marks.Keys == before.Keys + seen
    && forall r | r in marks :: if r in seen then marks[r] in e.docs && RootOf(e.docs, fs, marks[r]) == r else marks[r] == ""
  }

  lemma {:induction false} RootsNext(e: Editor, fs: Files, left: set<Uri>, uri: Uri)
    requires uri in left && left <= e.docs.Keys
    ensures RootsOf(e, fs, e.docs.Keys - (left - {uri}))
         == RootsOf(e, fs, e.docs.Keys - left) + if RootOf(e.docs, fs, uri) != "" then {RootOf(e.docs, fs, uri)} else {}
  {
    hide RootOf;
    assert e.docs.Keys - (left - {uri}) == e.docs.Keys - left + {uri};
  }

  lemma {:induction false} MarkNext(e: Editor, fs: Files, before: map<Path, Uri>, seen: set<Path>, marks: map<Path, Uri>, uri: Uri)
    requires MarksDocuments(e, fs, before, seen, marks) && uri in e.docs
    ensures var root := RootOf(e.docs, fs, uri); MarksDocuments(e, fs, before, seen + {root}, marks[root := uri])
  {
    hide RootOf;
  }

  method MarkDocuments(e: Editor, fs: Files, before: map<Path, Uri>) returns (marks: map<Path, Uri>)
    requires forall r | r in before :: before[r] == ""
    ensures MarksDocuments(e, fs, before, DocRoots(e, fs), marks)
  {
    hide RootsOf, RootOf, MarksDocuments, DocRoots;
    marks := before;
    var uris := e.docs.Keys;
    ghost var seen := {};
    NoneMarked(e, fs, before);
    while uris != {}
      invariant uris <= e.docs.Keys
      invariant seen == RootsOf(e, fs, e.docs.Keys - uris) && MarksDocuments(e, fs, before, seen, marks)
      decreases |uris|
    {
      var uri :| uri in uris;
      RootsNext(e, fs, uris, uri);
      uris := uris - {uri};
      var root := RootOf(e.docs, fs, uri);
      if root != "" {
        MarkNext(e, fs, before, seen, marks, uri);
        marks := marks[root := uri];
        seen := seen + {root};
      }
    }
    assert e.docs.Keys - uris == e.docs.Keys;
    AllRoots(e, fs);
  }

  lemma {:induction false} NoneMarked(e: Editor, fs: Files, before: map<Path, Uri>)
    requires forall r | r in before :: before[r] == ""
    ensures RootsOf(e, fs, e.docs.Keys - e.docs.Keys) == {} && MarksDocuments(e, fs, before, {}, before)
  {
    hide RootOf;
  }

  lemma {:induction false} AllRoots(e: Editor, fs: Files)
    ensures RootsOf(e, fs, e.docs.Keys) == DocRoots(e, fs)
  {
    hide RootOf;
  }

  method LeastRoot(roots: set<Path>) returns (root: Path)
    requires roots != {}
    ensures root == Least(roots)
  {
    root :| root in roots;
    var left := roots - {root};
    LexTotal(root, root);
    while left != {}
      invariant left <= roots && root in roots && forall r | r in roots - left :: LexLe(root, r)
      decreases |left|
    {
      var next :| next in left;
      left := left - {next};
      LexTotal(root, next);
      LexTotal(next, next);
      if !LexLe(root, next) {
        forall r | r in roots - left ensures LexLe(next, r) {
          if r != next { LexTrans(next, root, r); }
        }
        root := next;
      }
    }
    LeastUnique(roots, root);
  }

  // ----------------------------------------------------------------------- clearing ---

  ghost function OwnedBy(e: Editor, root: Path, uris: set<Uri>): set<Uri> {
    set u | u in uris && u in e.published && e.published[u] == root
  }

  ghost predicate Clearing(e: Editor, cleared: set<Uri>, frames: seq<Frame>) {
    && (forall u :: Latest(frames, u) == if u in cleared then Some([]) else None)
    && Answered(frames) == multiset{}
    && (forall i | 0 <= i < |frames| && frames[i].Publish? :: frames[i].version == VersionOf(e.docs, frames[i].uri))
  }

  lemma {:induction false} ClearNext(e: Editor, root: Path, left: set<Uri>, uri: Uri, frames: seq<Frame>)
    requires uri in left && left <= e.published.Keys && Clearing(e, OwnedBy(e, root, e.published.Keys - left), frames)
    ensures var sent := frames + [Publish(uri, VersionOf(e.docs, uri), [])];
            Clearing(e, OwnedBy(e, root, e.published.Keys - (left - {uri})), if e.published[uri] == root then sent else frames)
  {
    var sent := frames + [Publish(uri, VersionOf(e.docs, uri), [])];
    assert sent[..|frames|] == frames;
    assert e.published.Keys - (left - {uri}) == e.published.Keys - left + {uri};
    assert OwnedBy(e, root, e.published.Keys - (left - {uri}))
        == OwnedBy(e, root, e.published.Keys - left) + if e.published[uri] == root then {uri} else {};
  }

  lemma {:induction false} KeepNext(e: Editor, root: Path, left: set<Uri>, uri: Uri, kept: map<Uri, Path>)
    requires uri in left && left <= e.published.Keys && kept == e.published - OwnedBy(e, root, e.published.Keys - left)
    ensures e.published - OwnedBy(e, root, e.published.Keys - (left - {uri})) == if e.published[uri] == root then kept - {uri} else kept
  {
    assert e.published.Keys - (left - {uri}) == e.published.Keys - left + {uri};
    assert OwnedBy(e, root, e.published.Keys - (left - {uri}))
        == OwnedBy(e, root, e.published.Keys - left) + if e.published[uri] == root then {uri} else {};
  }

  lemma {:induction false} ClearStarts(e: Editor, root: Path)
    ensures OwnedBy(e, root, e.published.Keys - e.published.Keys) == {}
    ensures Clearing(e, {}, []) && e.published - {} == e.published
  {
  }

  lemma {:induction false} ClearEnds(e: Editor, root: Path, frames: seq<Frame>)
    requires Clearing(e, OwnedBy(e, root, e.published.Keys - {}), frames)
    ensures ClearsRoot(e, root, frames + [Notice])
    ensures e.published - OwnedBy(e, root, e.published.Keys - {}) == DropRoot(e, root).published
  {
    assert (frames + [Notice])[..|frames|] == frames;
  }

  /** Clears everything a root published, and announces its failure. */
  method ForgetRoot(e: Editor, root: Path) returns (frames: seq<Frame>, kept: map<Uri, Path>)
    ensures frames != [] && ClearsRoot(e, root, frames) && kept == DropRoot(e, root).published
  {
    hide OwnedBy, Clearing, ClearsRoot, DropRoot, VersionOf;
    frames, kept := [], e.published;
    var left := e.published.Keys;
    ClearStarts(e, root);
    while left != {}
      invariant left <= e.published.Keys && Clearing(e, OwnedBy(e, root, e.published.Keys - left), frames)
      invariant kept == e.published - OwnedBy(e, root, e.published.Keys - left)
      decreases |left|
    {
      var uri :| uri in left;
      ClearNext(e, root, left, uri, frames);
      KeepNext(e, root, left, uri, kept);
      left := left - {uri};
      if e.published[uri] == root {
        frames := frames + [Publish(uri, VersionOf(e.docs, uri), [])];
        kept := kept - {uri};
      }
    }
    assert left == {};
    ClearEnds(e, root, frames);
    frames := frames + [Notice];
  }

  // ------------------------------------------------------------------------ session ---

  /** Everything the session does not decide: how the file system looks, which of a ready
      input and a ready result is taken first, and what the worker comes back with. */
  datatype World = World(files: nat -> Files, takesInput: nat -> bool, analysis: nat -> Analysis,
                         failure: nat -> Option<Failure>, reply: nat -> Option<int>)

  function AnswerOf(world: World, n: nat, w: Work): (a: Answer)
    ensures Fits(w, a)
  {
    if world.failure(n).Some? then Failed(world.failure(n).value)
    else if w.root == "" then Replied(world.reply(n))
    else Analysed(world.files(n), world.analysis(n))
  }

  lemma {:induction false} ChangeIs(s: State, m: Message, fs: Files, marks: map<Path, Uri>)
    ensures var s' := Scheduler.Invalidate(Edited(s, m), marks);
            var root := if m.DidClose? then RootOf(s.server.docs, fs, m.uri) else "";
            HandleChange(s, m, fs, marks) == if root != "" && !("untitled:" <= m.uri) then s'.(dirty := s'.dirty[root := ""]) else s'
  {
    hide Edited, RootOf, Scheduler.Invalidate;
  }

  class Session {
    var server: LspServer
    var worker: LspServer
    var revision: nat
    var active: Option<Work>
    var pending: seq<Queued>
    var dirty: map<Path, Uri>
    var retries: map<Path, nat>
    var inputOpen: bool
    var isShutdown: bool
    var exited: bool
    var log: seq<Frame>
    ghost var owed: multiset<Id>
    ghost var started: map<Path, nat>
    ghost var last: map<Path, Run>

    ghost function View(): State
      reads this, server
    {
      State(server.View(), revision, active, pending, dirty, retries, inputOpen, isShutdown, exited, log, owed, started, last)
    }

    /** The worker's copy is its own object. */
    ghost predicate Valid()
      reads this, server, worker
    {
      server != worker && (active.Some? ==> worker.View() == active.value.copy)
    }

    constructor ()
      ensures Valid() && View() == Start() && fresh(server) && fresh(worker)
    {
      var s := new LspServer();
      var w := new LspServer();
      server, worker := s, w;
      revision, active, pending, dirty, retries := 0, None, [], map[], map[];
      inputOpen, isShutdown, exited, log := true, false, false, [];
      owed, started, last := multiset{}, map[], map[];
    }

    /** Starts a job on a copy of the server. */
    method StartJob(id: Option<Id>, uri: Uri, root: Path, asked: map<Uri, Doc>)
      requires Valid() && active.None?
      modifies this`active, this`worker
      ensures Valid() && View() == old(View()).(active := Some(Work(id, uri, root, revision, false, old(server.View()), asked)))
      ensures fresh(worker)
    {
      worker := server.Clone();
      active := Some(Work(id, uri, root, revision, false, server.View(), asked));
    }

    /** Takes requests off the queue until one is worth working on. */
    method ServePending()
      requires Valid() && active.None?
      modifies this`active, this`worker, this`pending, this`log
      ensures Valid() && View() == TakePending(old(View()))
      ensures worker == old(worker) || fresh(worker)
    {
      hide TakePending;
      ghost var s := View();
      while |pending| > 0
        invariant active.None? && Valid() && server == old(server) && worker == old(worker)
        invariant TakePending(View()) == TakePending(s)
        decreases |pending|
      {
        var next := pending[0];
        TakePendingIs(View());
        if next.cancelled {
          log := log + [Response(Some(next.id), Some(-32800))];
          pending := pending[1..];
        } else if next.revision != revision {
          log := log + [Response(Some(next.id), Some(-32801))];
          pending := pending[1..];
        } else {
          pending := pending[1..];
          StartJob(Some(next.id), "", "", next.asked);
          return;
        }
      }
      NothingPending(View());
    }

    /** Hands over the least dirty root. */
    method ServeDirty()
      requires Valid()
      modifies this`active, this`worker, this`dirty, this`started
      ensures Valid() && View() == TakeDirty(old(View()))
      ensures worker == old(worker) || fresh(worker)
    {
      if active.None? && |dirty.Keys| > 0 {
        LeastIn(dirty.Keys);
        hide Least, IsLeast;
        var root := LeastRoot(dirty.Keys);
        var uri := dirty[root];
        dirty := dirty - {root};
        if root != "" {
          started := started[root := Count(started, root) + 1];
          StartJob(None, uri, root, server.docs);
        }
      }
    }

    method DispatchWork()
      requires Valid()
      modifies this`active, this`worker, this`pending, this`dirty, this`log, this`started
      ensures Valid() && View() == Dispatch(old(View()))
      ensures worker == old(worker) || fresh(worker)
    {
      hide TakePending, TakeDirty;
      if active.None? {
        ServePending();
        ServeDirty();
      }
    }

    // ---------------------------------------------------------------------- intake ---

    method Invalidate(fs: Files) returns (ghost marks: map<Path, Uri>)
      modifies this`revision, this`retries, this`started, this`dirty
      ensures Marks(server.View(), fs, marks) && View() == Scheduler.Invalidate(old(View()), marks)
    {
      hide Marks;
      var roots := MarkRoots(server.View(), fs);
      revision, retries, started, dirty := revision + 1, map[], map[], dirty + roots;
      marks := roots;
    }

    /** The part of a change that edits the server. */
    method Edit(m: Message)
      requires Valid()
      requires m.DidOpen? || m.DidChange? || m.DidClose? || m.DidSave? || m.Configured? || m.Folders?
      modifies this`log, server
      ensures Valid() && View() == Edited(old(View()), m)
    {
      hide Opened, Changed, Closed, Named, Scheduler.Without;
      match m {
        case DidOpen(_, uri, text, version, path) => server.Open(uri, text, version, path);
        case DidChange(_, uri, text, version, _) => server.Change(uri, text, version);
        case DidClose(_, uri) =>
          var frames := server.Close(uri);
          log := log + frames;
        case Configured(_, inlay) => if inlay.Some? { server.inlay := inlay.value; }
        case Folders(_, removed, added) => server.workspaces := Scheduler.Without(server.workspaces, removed) + Named(added);
        case DidSave(_) =>
      }
    }

    method ReceiveChange(m: Message, fs: Files) returns (ghost marks: map<Path, Uri>)
      requires Valid() && Invalidates(View(), m)
      modifies this, server
      ensures Valid() && server == old(server) && worker == old(worker)
      ensures Marks(Edited(old(View()), m).server, fs, marks) && View() == HandleChange(old(View()), m, fs, marks)
    {
      ghost var s := View();
      var root := if m.DidClose? then RootOf(server.docs, fs, m.uri) else "";
      hide Marks, Edited, RootOf, Outdates, HandleChange, Scheduler.Invalidate;
      Edit(m);
      marks := Invalidate(fs);
      ChangeIs(s, m, fs, marks);
      hide LspServer.View;
      if root != "" && !("untitled:" <= m.uri) {
        dirty := dirty[root := ""];
      }
    }

    method ReceiveQuietly(m: Message)
      requires Valid() && !Invalidates(View(), m)
      modifies this, server
      ensures Valid() && server == old(server) && worker == old(worker)
      ensures View() == HandleQuietly(old(View()), m)
    {
      QuietlyIs(View(), m);
      CloseDownParts(View(), m.id);
      CancelKeepsCopy(active);
      hide CancelWork, HandleQuietly, CloseDown, Cancel, Enqueue, Configure, Replies, Refused, Invalidates;
      match m {
        case Exit(_) => exited := true;
        case Initialize(id, inlay, folders) => InitializeServer(id, inlay, folders);
        case Shutdown(id) => ShutDown(id);
        case CancelRequest(_, target) => CancelById(target);
        case DidChange(_, _, _, _, _) => RejectIncremental(m);
        case Call(id) => if id.Some? { Submit(id.value); }
        case _ =>
      }
    }

    method RejectIncremental(m: Message)
      requires Valid() && m.DidChange?
      modifies this`log
      ensures View() == HandleQuietly(old(View()), m)
    {
      if m.uri in server.docs && m.version > server.docs[m.uri].version {
        log := log + [Notice];
      }
    }

    method InitializeServer(id: Option<Id>, inlay: Option<bool>, folders: seq<Folder>)
      requires Valid()
      modifies this`owed, this`log, server
      ensures Valid()
      ensures View() == Replies(old(View()).(server := Configure(old(server.View()), inlay, folders)), id)
    {
      if inlay.Some? {
        server.inlay := inlay.value;
      }
      server.workspaces := server.workspaces + Named(folders);
      owed := owed + OneId(id);
      log := log + [Response(id, None)];
    }

    /** Queues a request, or refuses it when the queue is full. */
    method Submit(id: Id)
      requires Valid()
      modifies this`owed, this`log, this`pending
      ensures Valid()
      ensures View() == if old(|pending|) >= MAX_PENDING then Refused(old(View()), Some(id), -32000) else Enqueue(old(View()), id)
    {
      owed := owed + multiset{id};
      if |pending| >= MAX_PENDING {
        log := log + [Response(Some(id), Some(-32000))];
      } else {
        pending := pending + [Queued(id, revision, false, server.docs)];
      }
    }

    method ShutDown(id: Option<Id>)
      modifies this`isShutdown, this`active, this`pending, this`dirty, this`log, this`owed
      ensures View() == CloseDown(old(View()), id)
    {
      ghost var shut := CloseDown(View(), id);
      var frames := AnswerShutting(pending);
      hide Shutting, OneId, CancelWork, LspServer.View;
      isShutdown, active, pending, dirty, log, owed :=
        true, CancelWork(active), [], map[], log + frames + [Response(id, None)], owed + OneId(id);
      assert View() == shut;
    }

    method CancelById(target: Id)
      requires Valid()
      modifies this`active, this`pending
      ensures Valid() && View() == Cancel(old(View()), target)
      ensures |pending| == |old(pending)|
      ensures forall i | 0 <= i < |pending| :: pending[i] == old(pending)[i].(cancelled := old(pending)[i].cancelled || old(pending)[i].id == target)
      ensures active.Some? <==> old(active).Some?
      ensures active.Some? ==> active.value == old(active).value.(cancelled := old(active).value.cancelled || old(active).value.id == Some(target))
    {
      if active.Some? && active.value.id == Some(target) {
        active := CancelWork(active);
      }
      pending := MarkCancelled(pending, target);
    }

    method ReceiveMessage(m: Message, fs: Files) returns (ghost marks: map<Path, Uri>)
      requires Valid()
      modifies this, server
      ensures Valid() && server == old(server) && worker == old(worker)
      ensures Invalidates(old(View()), m) ==> Marks(Edited(old(View()), m).server, fs, marks)
      ensures View() == Handle(old(View()), m, fs, marks)
    {
      ghost var s := View();
      marks := map[];
      if isShutdown && !m.Exit? && !m.Shutdown? {
        HandleIs(s, m, fs, marks);
        Refuse(m.id);
      } else if Outdates(server.docs, isShutdown, m) {
        hide Marks, HandleChange, Edited, Handle;
        marks := ReceiveChange(m, fs);
        HandleIs(s, m, fs, marks);
      } else {
        HandleIs(s, m, fs, marks);
        hide HandleQuietly, Handle, HandleChange;
        ReceiveQuietly(m);
      }
    }

    method Refuse(id: Option<Id>)
      modifies this`owed, this`log
      ensures View() == Refused(old(View()), id, -32600)
    {
      if id.Some? {
        owed := owed + multiset{id.value};
        log := log + [Response(id, Some(-32600))];
      }
    }

    method ReceiveInput(input: Input, fs: Files) returns (ghost marks: map<Path, Uri>)
      requires Valid() && inputOpen && !exited
      modifies this, server
      ensures Valid() && server == old(server) && worker == old(worker)
      ensures Enabled(old(View()), EReceive(input, fs, marks)) && View() == Receive(old(View()), input, fs, marks)
    {
      hide Marks, Handle, Edited, Invalidates;
      marks := map[];
      match input {
        case Received(m) => marks := ReceiveMessage(m, fs);
        case BadBody(code) => log := log + [Response(None, Some(code))];
        case BadFrame =>
          log := log + [Response(None, Some(-32600))];
          inputOpen := false;
        case EndOfInput => inputOpen := false;
      }
    }

    // ------------------------------------------------------------------ completion ---

    /** The job in flight comes back. Its run works on the copy; what it found is only taken
        over when nothing changed meanwhile. */
    method CompleteJob(a: Answer) returns (ghost frames: seq<Frame>, ghost published: map<Uri, Path>)
      requires Valid() && active.Some? && Fits(active.value, a) && Settled(View())
      modifies this, server, worker
      ensures Valid() && server == old(server) && worker == old(worker)
      ensures Written(old(View()), old(active).value, a, frames, published)
      ensures View() == Complete(old(View()), a, frames, published)
    {
      var w := active.value;
      if w.cancelled {
        log := log + if w.id.Some? then [Response(w.id, Some(-32800))] else [];
        active := None;
        frames, published := [], server.published;
        assert log == old(log) + frames + if w.id.Some? then [Response(w.id, Some(-32800))] else [];
      } else if w.revision != revision || a.Failed? {
        frames := DiscardJob(w, a);
      } else {
        frames := AcceptJob(w, a);
      }
      published := server.published;
    }

    /** A result that is out of date or failed: the request is told, and a root is tried again
        or given up. */
    method DiscardJob(w: Work, a: Answer) returns (ghost frames: seq<Frame>)
      requires Valid() && active == Some(w) && Fits(w, a) && Settled(View())
      requires !w.cancelled && (w.revision != revision || a.Failed?)
      modifies this`active, this`log, this`retries, this`dirty, server`published
      ensures Valid() && Written(old(View()), w, a, frames, server.published)
      ensures View() == Complete(old(View()), a, frames, server.published)
    {
      ghost var s := View();
      DiscardIs(s, w, a);
      var stale := w.revision != revision || a == Failed(Canceled) || a == Failed(InputsChanged);
      var closedScratch := "untitled:" <= w.uri && w.uri !in server.docs;
      hide *;
      frames := [];
      if w.id.Some? {
        EndJob([Response(w.id, Some(if stale then -32801 else CodeOf(a.failure)))]);
      } else if closedScratch {
        EndJob([]);
      } else if stale && (w.revision != revision || Count(retries, w.root) < 2) {
        RetryRoot(w);
      } else {
        frames := GiveUp(w);
        DropIs(s, w, a, frames, server.published);
      }
    }

    method EndJob(sent: seq<Frame>)
      requires Valid()
      modifies this`active, this`log
      ensures Valid() && server.published == old(server.published)
      ensures View() == old(View()).(active := None, log := if sent == [] then old(log) else old(log) + sent)
    {
      active := None;
      if sent != [] {
        log := log + sent;
      }
    }

    method RetryRoot(w: Work)
      requires Valid()
      modifies this`active, this`retries, this`dirty
      ensures Valid() && server.published == old(server.published)
      ensures View() == old(View()).(active := None, retries := old(retries)[w.root := Count(old(retries), w.root) + 1],
                                     dirty := old(dirty)[w.root := w.uri])
    {
      retries := retries[w.root := Count(retries, w.root) + 1];
      dirty := dirty[w.root := w.uri];
      active := None;
    }

    method GiveUp(w: Work) returns (ghost frames: seq<Frame>)
      requires Valid()
      modifies this`active, this`log, server`published
      ensures Valid() && frames != [] && ClearsRoot(old(server.View()), w.root, frames)
      ensures server.published == DropRoot(old(server.View()), w.root).published
      ensures View() == old(View()).(active := None, server := old(server.View()).(published := server.published), log := old(log) + frames)
    {
      hide ClearsRoot, DropRoot;
      var cleared, kept := ForgetRoot(server.View(), w.root);
      server.published := kept;
      log := log + cleared;
      active := None;
      frames := cleared;
    }

    /** A result on the live documents is written, and a root's publications are taken over. */
    method AcceptJob(w: Work, a: Answer) returns (ghost frames: seq<Frame>)
      requires Valid() && active == Some(w) && Fits(w, a) && Settled(View())
      requires !w.cancelled && w.revision == revision && !a.Failed?
      modifies this`active, this`log, this`retries, this`last, server`published, worker
      ensures Valid() && Written(old(View()), w, a, frames, server.published)
      ensures View() == Complete(old(View()), a, frames, server.published)
    {
      ghost var s := View();
      if w.id.Some? {
        AcceptReplyIs(s, w, a);
        hide Complete, Written, Settled, Accepted;
        active := None;
        log := log + [Response(w.id, a.code)];
        frames := [];
      } else {
        frames := AcceptRun(w, a);
      }
    }

    method AcceptRun(w: Work, a: Answer) returns (ghost frames: seq<Frame>)
      requires Valid() && active == Some(w) && Fits(w, a) && Settled(View()) && w.id.None?
      requires !w.cancelled && w.revision == revision && !a.Failed?
      modifies this`active, this`log, this`retries, this`last, server`published, worker
      ensures Valid() && Written(old(View()), w, a, frames, server.published)
      ensures View() == Complete(old(View()), a, frames, server.published)
    {
      ghost var s := View();
      assert w.root != "" && a.Analysed?;
      hide Complete, Written, Settled, Accepted, Diagnosed, Fits;
      var sent := worker.DiagnoseRoot(w.root, a.fs, a.analysis);
      AcceptRunIs(s, w, a, sent, worker.published);
      active := None;
      log := log + sent;
      retries := retries - {w.root};
      server.published := worker.published;
      last := last[w.root := Run(w.copy.docs, a.analysis.diagnostics)];
      frames := sent;
    }
  }

  lemma {:induction false} CancelKeepsCopy(active: Option<Work>)
    ensures CancelWork(active).Some? <==> active.Some?
    ensures active.Some? ==> CancelWork(active).value.copy == active.value.copy
  {
  }

  // ------------------------------------------------------------ completion, by cases ---

  lemma {:induction false} DiscardIs(s: State, w: Work, a: Answer)
    requires s.active == Some(w) && Fits(w, a) && Settled(s) && !w.cancelled && (w.revision != s.revision || a.Failed?)
    ensures var code := if Stale(s, w, a) then -32801 else CodeOf(a.failure);
            w.id.Some? ==> && Written(s, w, a, [], s.server.published)
                           && Complete(s, a, [], s.server.published) == s.(active := None, log := s.log + [Response(w.id, Some(code))])
    ensures w.id.None? && ClosedScratch(s, w) ==>
              Written(s, w, a, [], s.server.published) && Complete(s, a, [], s.server.published) == s.(active := None)
    ensures w.id.None? && Retried(s, w, a) ==>
              && Written(s, w, a, [], s.server.published)
              && Complete(s, a, [], s.server.published)
              == s.(active := None, retries := s.retries[w.root := Count(s.retries, w.root) + 1], dirty := s.dirty[w.root := w.uri])
    ensures w.id.None? && !ClosedScratch(s, w) ==>
              (Retried(s, w, a) <==> Stale(s, w, a) && (w.revision != s.revision || Count(s.retries, w.root) < 2))
    ensures Stale(s, w, a) <==> w.revision != s.revision || a == Failed(Canceled) || a == Failed(InputsChanged)
    ensures ClosedScratch(s, w) <==> "untitled:" <= w.uri && w.uri !in s.server.docs
    ensures !Stale(s, w, a) ==> a.Failed?
  {
    assert s.log + [] == s.log;
    if w.id.Some? {
      assert s.log + [] + [Response(w.id, Code(s, w, a))] == s.log + [Response(w.id, Code(s, w, a))];
    } else {
      assert s.log + [] + [] == s.log;
    }
  }

  lemma {:induction false} DropIs(s: State, w: Work, a: Answer, frames: seq<Frame>, kept: map<Uri, Path>)
    requires s.active == Some(w) && Settled(s) && !w.cancelled && (w.revision != s.revision || a.Failed?) && w.id.None?
    requires frames != [] && !ClosedScratch(s, w) && !Retried(s, w, a) && ClearsRoot(s.server, w.root, frames) && kept == DropRoot(s.server, w.root).published
    ensures frames != [] && Written(s, w, a, frames, kept)
    ensures Complete(s, a, frames, kept) == s.(active := None, server := s.server.(published := kept), log := s.log + frames)
  {
    assert s.log + frames + [] == s.log + frames;
  }

  lemma {:induction false} AcceptReplyIs(s: State, w: Work, a: Answer)
    requires s.active == Some(w) && Fits(w, a) && Settled(s) && !w.cancelled && w.revision == s.revision && !a.Failed? && w.id.Some?
    ensures a.Replied? && Written(s, w, a, [], s.server.published)
    ensures Complete(s, a, [], s.server.published) == s.(active := None, log := s.log + [Response(w.id, a.code)])
  {
    assert s.log + [] + [Response(w.id, a.code)] == s.log + [Response(w.id, a.code)];
  }

  lemma {:induction false} AcceptRunIs(s: State, w: Work, a: Answer, frames: seq<Frame>, published: map<Uri, Path>)
    requires s.active == Some(w) && Settled(s) && !w.cancelled && w.revision == s.revision && a.Analysed? && w.id.None?
    requires Diagnosed(w.copy, a.fs, w.root, a.analysis, frames, published)
    ensures Written(s, w, a, frames, published)
    ensures Complete(s, a, frames, published)
         == s.(active := None, server := s.server.(published := published), log := s.log + frames, retries := s.retries - {w.root},
               last := s.last[w.root := Run(w.copy.docs, a.analysis.diagnostics)])
  {
    assert s.log + frames + [] == s.log + frames;
  }

  method AnswerShutting(pending: seq<Queued>) returns (frames: seq<Frame>)
    ensures frames == Shutting(pending)
  {
    frames := [];
    for i := 0 to |pending|
      invariant |frames| == i && forall j | 0 <= j < i :: frames[j] == Response(Some(pending[j].id), Some(-32800))
    {
      frames := frames + [Response(Some(pending[i].id), Some(-32800))];
    }
  }

  method MarkCancelled(pending: seq<Queued>, target: Id) returns (marked: seq<Queued>)
    ensures marked == CancelQueued(pending, target) && |marked| == |pending|
    ensures forall i | 0 <= i < |pending| :: marked[i] == pending[i].(cancelled := pending[i].cancelled || pending[i].id == target)
  {
    marked := pending;
    for i := 0 to |pending|
      invariant |marked| == |pending|
      invariant forall j | 0 <= j < |pending| :: marked[j] == if j < i then CancelQueued(pending, target)[j] else pending[j]
    {
      if marked[i].id == target {
        marked := marked[i := marked[i].(cancelled := true)];
      }
    }
  }

  // ------------------------------------------------------------------------ serving ---

  /** What the serving loop relies on between iterations. */
  ghost predicate Serving(s: State, inputs: seq<Input>, taken: nat) {
    && Inv(s) && Rooted(s)
    && taken <= |inputs| + 1
    && StateTally(s) == TallyAfter(inputs, taken)
    && (s.inputOpen ==> taken <= |inputs|)
  }

  /** The tally of the inputs taken; the end of input comes after the last one. */
  function TallyAfter(inputs: seq<Input>, taken: nat): Tally {
    if taken <= |inputs| then TallyOf(inputs[..taken]) else Tallied(TallyOf(inputs), EndOfInput)
  }

  function InputAt(inputs: seq<Input>, taken: nat): Input {
    if taken < |inputs| then inputs[taken] else EndOfInput
  }

  lemma {:induction false} ServingStarts(inputs: seq<Input>)
    ensures Serving(Start(), inputs, 0)
  {
    StartInv();
    hide Inv;
  }

  lemma {:induction false} ServingDispatches(s: State, inputs: seq<Input>, taken: nat)
    requires Serving(s, inputs, taken) && !s.exited
    ensures Serving(Dispatch(s), inputs, taken) && !Dispatch(s).exited && Settled(Dispatch(s))
    ensures Lower(Dispatch(s), s) || Dispatch(s) == s
    ensures Dispatch(s).active.None? ==> Dispatch(s).pending == [] && Dispatch(s).dirty == map[]
  {
    NextInv(s, EDispatch);
    NextRooted(s, EDispatch);
    DispatchTally(s);
    DispatchLowers(s);
    IdleAfterDispatch(s);
    hide Accounted, Fresh, Budgeted, Settled, Owned, TallyAfter, TakePending, TakeDirty, Lower;
  }

  lemma {:induction false} ServingReceives(s: State, inputs: seq<Input>, taken: nat, fs: Files, marks: map<Path, Uri>)
    requires Serving(s, inputs, taken) && s.inputOpen && !s.exited
    requires Enabled(s, EReceive(InputAt(inputs, taken), fs, marks))
    ensures taken <= |inputs| && Serving(Receive(s, InputAt(inputs, taken), fs, marks), inputs, taken + 1)
  {
    var e := EReceive(InputAt(inputs, taken), fs, marks);
    NextIs(s, e);
    NextInv(s, e);
    NextRooted(s, e);
    ReceiveTallied(s, e.input, fs, marks);
    if taken < |inputs| {
      TallyNext(inputs, taken);
    } else {
      assert inputs[..taken] == inputs;
    }
    hide Inv, Rooted, Receive, Enabled, TallyOf;
  }

  lemma {:induction false} ServingCompletes(s: State, inputs: seq<Input>, taken: nat, a: Answer, frames: seq<Frame>, published: map<Uri, Path>)
    requires Serving(s, inputs, taken) && !s.exited && s.active.Some? && Fits(s.active.value, a)
    requires Written(s, s.active.value, a, frames, published)
    ensures Serving(Complete(s, a, frames, published), inputs, taken)
    ensures Lower(Complete(s, a, frames, published), s)
  {
    var e := EComplete(a, frames, published);
    assert Enabled(s, e) by { hide Written, Fits; }
    NextIs(s, e);
    NextInv(s, e);
    NextRooted(s, e);
    CompleteLowers(s, a, frames, published);
    hide Accounted, Fresh, Budgeted, Settled, Owned, Rooted, TallyAfter, Lower, Written, Fits, LogAfter, RetriesAfter, DirtyAfter, LastAfter;
  }

  lemma {:induction false} LowerTrans(a: State, b: State, c: State)
    requires Lower(a, b) && (Lower(b, c) || b == c)
    ensures Lower(a, c)
  {
    hide ChancesOf;
  }

  /** When the loop ends, everything asked for was answered. */
  lemma {:induction false} ServingEnds(s: State, inputs: seq<Input>, taken: nat)
    requires Serving(s, inputs, taken) && Finished(s)
    ensures s.exited == TallyOf(inputs).exited
    ensures !s.exited ==> Answered(s.log) == TallyOf(inputs).owed
    ensures forall u | Shown(s.log, u) != [] :: u in s.server.published
  {
    if taken <= |inputs| { TallyEnds(inputs, taken); }
    forall u | Shown(s.log, u) != [] ensures u in s.server.published {
      assert OwnedAt(s.server.published, s.last, s.log, u);
    }
    hide Fresh, Budgeted, Settled, OwnedAll, Answered;
  }

  /** The inputs a run took in, in order. */
  function Inputs(events: seq<Event>): seq<Input> {
    if events == [] then []
    else
      var last := events[|events| - 1];
      Inputs(events[..|events| - 1]) + if last.EReceive? then [last.input] else []
  }

  /** A run so far, and how it ends. */
  ghost predicate RunTo(states: seq<State>, events: seq<Event>, s: State, taken: seq<Input>) {
    IsRun(states, events) && states[|states| - 1] == s && Inputs(events) == taken
  }

  function TakenInputs(inputs: seq<Input>, taken: nat): seq<Input> {
    if taken <= |inputs| then inputs[..taken] else inputs + [EndOfInput]
  }

  lemma {:induction false} RunStarts(inputs: seq<Input>)
    ensures RunTo([Start()], [], Start(), TakenInputs(inputs, 0))
  {
  }

  lemma {:induction false} RunGoesOn(states: seq<State>, events: seq<Event>, s: State, taken: seq<Input>, e: Event)
    requires RunTo(states, events, s, taken) && Enabled(s, e)
    ensures RunTo(states + [Next(s, e)], events + [e], Next(s, e), taken + if e.EReceive? then [e.input] else [])
  {
    var all, steps := states + [Next(s, e)], events + [e];
    assert steps[..|events|] == events;
    assert taken + [] == taken;
    hide Enabled, Next;
    forall i | 0 <= i < |steps| ensures Enabled(all[i], steps[i]) && all[i + 1] == Next(all[i], steps[i]) {
      if i < |events| {
        assert all[i] == states[i] && all[i + 1] == states[i + 1] && steps[i] == events[i];
      }
    }
  }

  lemma {:induction false} RunDispatches(states: seq<State>, events: seq<Event>, s: State, taken: seq<Input>)
    requires RunTo(states, events, s, taken) && !s.exited
    ensures RunTo(states + [Dispatch(s)], events + [EDispatch], Dispatch(s), taken)
  {
    RunGoesOn(states, events, s, taken, EDispatch);
    assert taken + [] == taken;
    hide RunTo, Dispatch;
  }

  lemma {:induction false} RunReceives(states: seq<State>, events: seq<Event>, s: State, inputs: seq<Input>, taken: nat, fs: Files, marks: map<Path, Uri>)
    requires RunTo(states, events, s, TakenInputs(inputs, taken)) && taken <= |inputs|
    requires Enabled(s, EReceive(InputAt(inputs, taken), fs, marks))
    ensures var e, s' := EReceive(InputAt(inputs, taken), fs, marks), Receive(s, InputAt(inputs, taken), fs, marks);
            RunTo(states + [s'], events + [e], s', TakenInputs(inputs, taken + 1))
  {
    var e := EReceive(InputAt(inputs, taken), fs, marks);
    RunGoesOn(states, events, s, TakenInputs(inputs, taken), e);
    NextIs(s, e);
    if taken == |inputs| { assert inputs[..taken] == inputs; }
    assert TakenInputs(inputs, taken) + [e.input] == TakenInputs(inputs, taken + 1);
    hide RunTo, Receive, Enabled, TakenInputs, Next;
  }

  lemma {:induction false} RunCompletes(states: seq<State>, events: seq<Event>, s: State, taken: seq<Input>, a: Answer, frames: seq<Frame>, published: map<Uri, Path>)
    requires RunTo(states, events, s, taken) && !s.exited && s.active.Some? && Fits(s.active.value, a) && Written(s, s.active.value, a, frames, published)
    ensures RunTo(states + [Complete(s, a, frames, published)], events + [EComplete(a, frames, published)], Complete(s, a, frames, published), taken)
  {
    var e := EComplete(a, frames, published);
    assert Enabled(s, e) by { hide Written, Fits; }
    RunGoesOn(states, events, s, taken, e);
    assert taken + [] == taken;
    hide RunTo, Complete, Enabled, Written, Fits;
  }

  lemma {:induction false} RunEnds(states: seq<State>, events: seq<Event>, s: State, inputs: seq<Input>, taken: nat)
    requires RunTo(states, events, s, TakenInputs(inputs, taken)) && taken <= |inputs| + 1
    ensures IsRun(states, events) && states[|states| - 1] == s && Inputs(events) <= inputs + [EndOfInput]
  {
    hide IsRun, Inputs;
  }

  /** Serves a list of inputs to the end, whatever the file system holds, however intake and
      worker race, and whatever the worker answers. It always ends: the loop is never left
      waiting with closed input and no job. Unless the client said exit, every id that is owed
      an answer is answered exactly once and no other id is answered; and the client shows
      findings only where the server still knows that it published some. What it does is a run of
      the scheduler on these inputs, carried to its end. */
  method Serve(inputs: seq<Input>, world: World)
    returns (log: seq<Frame>, published: map<Uri, Path>, exited: bool, ghost states: seq<State>, ghost events: seq<Event>)
    ensures exited == TallyOf(inputs).exited
    ensures !exited ==> Answered(log) == TallyOf(inputs).owed
    ensures forall u | Shown(log, u) != [] :: u in published
    ensures IsRun(states, events) && Inputs(events) <= inputs + [EndOfInput]
    ensures var last := states[|states| - 1]; Finished(last) && last.log == log && last.server.published == published && last.exited == exited
  {
    var session := new Session();
    var taken, n := 0, 0;
    ServingStarts(inputs);
    RunStarts(inputs);
    states, events := [Start()], [];
    hide RunTo, TakenInputs, Serving, Settled, TallyOf, Answered, Shown, ChancesOf, Enabled, Receive, Complete, Dispatch, Written, Fits, AnswerOf,
         InputAt, Session.Valid, Start;
    while !session.exited
      invariant fresh(session) && fresh(session.server) && fresh(session.worker) && session.Valid()
      invariant taken <= |inputs| + 1 && Serving(session.View(), inputs, taken)
      invariant RunTo(states, events, session.View(), TakenInputs(inputs, taken))
      decreases |inputs| + 1 - taken, ChancesOf(session.View()), |session.pending|, Busy(session.View())
    {
      ghost var s := session.View();
      ServingDispatches(s, inputs, taken);
      RunDispatches(states, events, s, TakenInputs(inputs, taken));
      states, events := states + [Dispatch(s)], events + [EDispatch];
      session.DispatchWork();
      ghost var d := session.View();
      if !session.inputOpen && session.active.None? && session.pending == [] && session.dirty == map[] {
        break;
      }
      if session.inputOpen && (session.active.None? || world.takesInput(n)) {
        var fs := world.files(n);
        ghost var marks := session.ReceiveInput(InputAt(inputs, taken), fs);
        ServingReceives(d, inputs, taken, fs, marks);
        RunReceives(states, events, d, inputs, taken, fs, marks);
        states, events := states + [session.View()], events + [EReceive(InputAt(inputs, taken), fs, marks)];
        taken := taken + 1;
      } else {
        var answer := AnswerOf(world, n, session.active.value);
        ghost var frames, now := session.CompleteJob(answer);
        ServingCompletes(d, inputs, taken, answer, frames, now);
        RunCompletes(states, events, d, TakenInputs(inputs, taken), answer, frames, now);
        states, events := states + [session.View()], events + [EComplete(answer, frames, now)];
        LowerTrans(session.View(), d, s);
      }
      n := n + 1;
    }
    ServingEnds(session.View(), inputs, taken);
    RunEnds(states, events, session.View(), inputs, taken);
    log, published, exited := session.log, session.server.published, session.exited;
  }
}
