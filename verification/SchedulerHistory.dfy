/** What the messages of a run make of documents, settings and roots. */
module SchedulerHistory {
  import opened Wrappers
  import opened Documents
  import opened Scheduler
  import opened SchedulerRuns
  import opened SchedulerBudget
  import opened SchedulerFindings
  import opened SchedulerSettings
  import opened SchedulerFate

  // ---------------------------------------------------------------- documents and settings ---

  /** The open documents after a message. */
  function DocsAfter(docs: map<Uri, Doc>, m: Message): map<Uri, Doc> {
    match m
    case DidOpen(_, uri, text, version, path) => if uri == "" then docs else docs[uri := Doc(path, text, version)]
    case DidChange(_, uri, text, version, full) =>
      if full && uri in docs && docs[uri].version < version then docs[uri := Doc(docs[uri].path, text, version)] else docs
    case DidClose(_, uri) => docs - {uri}
    case _ => docs
  }

  function InlayAfter(inlay: bool, m: Message): bool {
    match m
    case Initialize(_, Some(value), _) => value
    case Configured(_, Some(value)) => value
    case _ => inlay
  }

  /** The folders after a message, as a set: those removed go, those added stay. */
  ghost predicate FoldersAfter(before: seq<AbsolutePath>, m: Message, after: seq<AbsolutePath>) {
    match m
    case Initialize(_, _, folders) => forall w: AbsolutePath :: w in after <==> w in before || w in folders
    case Folders(_, removed, added) => forall w: AbsolutePath :: w in after <==> (w in before && w !in removed) || w in added
    case _ => after == before
  }

  lemma {:induction false} NamedMembers(folders: seq<Folder>)
    ensures forall w: AbsolutePath :: w in Named(folders) <==> w in folders
    decreases |folders|
  {
    if folders != [] {
      NamedMembers(folders[1..]);
      assert folders == [folders[0]] + folders[1..];
    }
  }

  lemma {:induction false} WithoutMembers(workspaces: seq<AbsolutePath>, removed: seq<Folder>)
    ensures forall w: AbsolutePath :: w in Without(workspaces, removed) <==> w in workspaces && w !in removed
    decreases |workspaces|
  {
    if workspaces != [] {
      WithoutMembers(workspaces[1..], removed);
      assert workspaces == [workspaces[0]] + workspaces[1..];
    }
  }

  ghost predicate Follows(e: Editor, m: Message, e': Editor) {
    e'.docs == DocsAfter(e.docs, m) && e'.inlay == InlayAfter(e.inlay, m) && FoldersAfter(e.workspaces, m, e'.workspaces)
  }

  lemma {:induction false} EditFollows(s: State, m: Message)
    requires Invalidates(s, m)
    ensures Follows(s.server, m, Edited(s, m).server)
  {
    hide Sync;
    match m {
      case Folders(_, removed, added) =>
        WithoutMembers(s.server.workspaces, removed);
        NamedMembers(added);
        hide Without, Named;
      case DidOpen(_, _, _, _, _) =>
      case DidChange(_, _, _, _, _) =>
      case DidClose(_, _) =>
      case _ =>
    }
  }

  lemma {:induction false} QuietlyFollows(s: State, m: Message)
    requires !Invalidates(s, m) && !TurnedAway(s, m)
    ensures Follows(s.server, m, HandleQuietly(s, m).server)
  {
    QuietlyHeard(s, m);
    hide HandleQuietly;
    match m {
      case Initialize(_, _, folders) =>
        NamedMembers(folders);
        hide Named;
      case _ =>
    }
  }

  lemma {:induction false} MessageFollows(s: State, m: Message, fs: Files, marks: map<Path, Uri>)
    ensures if TurnedAway(s, m) then Handle(s, m, fs, marks).server == s.server else Follows(s.server, m, Handle(s, m, fs, marks).server)
  {
    HandleIs(s, m, fs, marks);
    hide Handle, HandleChange, HandleQuietly, Invalidates, Follows, Edited;
    if TurnedAway(s, m) {
    } else if Invalidates(s, m) {
      ChangeParts(s, m, fs, marks);
      EditFollows(s, m);
    } else {
      QuietlyFollows(s, m);
    }
  }

  /** In every run documents and settings change by messages alone, each as it says: text moves
      forward with its version only, and a server that is shut down changes nothing. */
  lemma {:induction false} ServerFollowsMessages(states: seq<State>, events: seq<Event>, k: nat)
    requires IsRun(states, events) && k < |events|
    ensures var e, e' := states[k].server, states[k + 1].server;
            if Hears(events[k]) && !TurnedAway(states[k], events[k].input.message) then Follows(e, events[k].input.message, e')
            else e'.docs == e.docs && e'.inlay == e.inlay && e'.workspaces == e.workspaces
  {
    RunTook(states, events, k);
    hide IsRun, Settled, Follows, Took;
    TookFollows(states[k], events[k], states[k + 1]);
  }

  lemma {:induction false} TookFollows(s: State, e: Event, s': State)
    requires Took(s, e, s')
    ensures if Hears(e) && !TurnedAway(s, e.input.message) then Follows(s.server, e.input.message, s'.server)
            else s'.server.docs == s.server.docs && s'.server.inlay == s.server.inlay && s'.server.workspaces == s.server.workspaces
  {
    TookServer(s, e, s');
    if Hears(e) {
      TookMessage(s, e, s');
      hide *;
      MessageFollows(s, e.input.message, e.fs, e.marks);
    }
  }

  /** Without a message documents and settings stand. */
  lemma {:induction false} TookServer(s: State, e: Event, s': State)
    requires Took(s, e, s')
    ensures !Hears(e) ==> s'.server.docs == s.server.docs && s'.server.inlay == s.server.inlay && s'.server.workspaces == s.server.workspaces
  {
    match e {
      case EDispatch =>
        if s.active.None? { DispatchServer(s); }
        hide Dispatch;
      case EReceive(input, fs, marks) =>
        if !input.Received? { QuietServer(s, input, fs, marks); }
        hide Receive, Handle;
      case EComplete(_, _, _) =>
        hide Written, Fits, LogAfter, RetriesAfter, DirtyAfter, LastAfter;
    }
  }

  lemma {:induction false} QuietServer(s: State, input: Input, fs: Files, marks: map<Path, Uri>)
    requires !input.Received?
    ensures Receive(s, input, fs, marks).server == s.server
  {
  }

  lemma {:induction false} TookMessage(s: State, e: Event, s': State)
    requires Took(s, e, s') && Hears(e)
    ensures s' == Handle(s, e.input.message, e.fs, e.marks)
  {
    hide Handle;
  }

  lemma {:induction false} DispatchServer(s: State)
    requires s.active.None?
    ensures Dispatch(s).server == s.server
  {
    TakePendingParts(s);
    TakeDirtyParts(TakePending(s));
    hide TakePending, TakeDirty, Least;
  }

  // ----------------------------------------------------------------------------- dispatching ---

  /** A root is diagnosed only when every request in the queue is cancelled or out of date, and it
      is the least dirty root. */
  lemma {:induction false} RequestsFirst(states: seq<State>, events: seq<Event>, k: nat)
    requires IsRun(states, events) && k < |events| && states[k].active.None? && states[k + 1].active.Some? && states[k + 1].active.value.id.None?
    ensures forall i | 0 <= i < |states[k].pending| :: states[k].pending[i].cancelled || states[k].pending[i].revision != states[k].revision
    ensures IsLeast(states[k].dirty.Keys, states[k + 1].active.value.root)
  {
    RunTook(states, events, k);
    hide IsRun, Settled;
    match events[k] {
      case EDispatch => DispatchesRoot(states[k]);
      case EReceive(input, fs, marks) =>
        if input.Received? { HandleParts(states[k], input.message, fs, marks); }
        hide Handle, Receive;
      case EComplete(_, _, _) =>
    }
  }

  lemma {:induction false} DispatchesRoot(s: State)
    requires s.active.None? && Dispatch(s).active.Some? && Dispatch(s).active.value.id.None?
    ensures forall i | 0 <= i < |s.pending| :: s.pending[i].cancelled || s.pending[i].revision != s.revision
    ensures IsLeast(s.dirty.Keys, Dispatch(s).active.value.root)
  {
    var p := TakePending(s);
    TakePendingParts(s);
    TakePendingTakes(s);
    TakeDirtyParts(p);
    hide TakePending, TakeDirty, IsLeast;
  }

  // --------------------------------------------------------------------------------- coverage ---

  /** Every root of the set waits to be diagnosed or was started since the last change. */
  ghost predicate Attended(dirty: map<Path, Uri>, started: map<Path, nat>, roots: set<Path>) {
    forall r | r in roots && r != "" :: r in dirty || Count(started, r) > 0
  }

  /** The roots a change touches: those with published findings, with a manifest in a workspace
      folder, or with an open document, all as they are after the change. */
  ghost function Touched(s: State, e: Event): set<Path>
    requires Hears(e)
  {
    var server := Edited(s, e.input.message).server;
    PublishedRoots(server) + Manifests(server, e.fs) + DocRoots(server, e.fs)
  }

  lemma {:induction false} ChangeCovers(s: State, e: Event)
    requires Enabled(s, e) && Hears(e) && Invalidates(s, e.input.message)
    ensures Attended(Handle(s, e.input.message, e.fs, e.marks).dirty, Handle(s, e.input.message, e.fs, e.marks).started, Touched(s, e))
  {
    var m := e.input.message;
    HandleIs(s, m, e.fs, e.marks);
    EditedLog(s, m);
    hide Handle, Edited, PublishedRoots, Manifests, DocRoots, RootOf;
  }

  /** A message that changes nothing leaves the dirty roots, unless it shuts the server down. */
  lemma {:induction false} QuietRoots(s: State, m: Message, fs: Files, marks: map<Path, Uri>)
    requires !Invalidates(s, m)
    ensures var t := Handle(s, m, fs, marks); (!t.isShutdown ==> t.dirty == s.dirty) && t.started == s.started && (s.isShutdown ==> t.isShutdown)
  {
    HandleIs(s, m, fs, marks);
    hide Handle, HandleQuietly, Invalidates;
    if TurnedAway(s, m) {
      RefusedParts(s, m.id, -32600);
    } else {
      QuietlyParts(s, m);
    }
  }

  lemma {:induction false} DispatchCovers(s: State, roots: set<Path>)
    requires s.active.None? && Attended(s.dirty, s.started, roots)
    ensures Attended(Dispatch(s).dirty, Dispatch(s).started, roots) && Dispatch(s).isShutdown == s.isShutdown
  {
    var p := TakePending(s);
    TakePendingParts(s);
    TakeDirtyParts(p);
    hide TakePending, TakeDirty, Least;
  }

  lemma {:induction false} StepCovers(s: State, e: Event, s': State, roots: set<Path>)
    requires Took(s, e, s') && Attended(s.dirty, s.started, roots) && !s'.isShutdown
    requires Hears(e) ==> !Invalidates(s, e.input.message)
    ensures Attended(s'.dirty, s'.started, roots)
  {
    match e {
      case EDispatch =>
        if s.active.None? { DispatchCovers(s, roots); }
        hide Dispatch;
      case EReceive(input, fs, marks) =>
        if input.Received? { QuietRoots(s, input.message, fs, marks); }
        hide Handle, Invalidates;
      case EComplete(a, _, _) =>
        hide Written, Fits, LogAfter, RetriesAfter, LastAfter, Retried;
    }
  }

  lemma {:induction false} ShutStays(s: State, e: Event, s': State)
    requires Took(s, e, s') && s.isShutdown
    ensures s'.isShutdown
  {
    match e {
      case EDispatch => if s.active.None? { DispatchCovers(s, {}); }
      case EReceive(input, fs, marks) =>
        if input.Received? { QuietRoots(s, input.message, fs, marks); }
        hide Handle;
      case EComplete(_, _, _) =>
    }
    hide Dispatch;
  }

  lemma {:induction false} RunEnabled(states: seq<State>, events: seq<Event>, k: nat)
    requires IsRun(states, events) && k < |events|
    ensures k < |states| && Enabled(states[k], events[k])
  {
    hide Enabled, Next;
  }

  lemma {:induction false} StillCovered(states: seq<State>, events: seq<Event>, j: nat, k: nat, roots: set<Path>)
    requires IsRun(states, events) && j <= k < |states| && !states[k].isShutdown
    requires Attended(states[j].dirty, states[j].started, roots) && forall i | j <= i < k :: !ChangeAt(states, events, i)
    ensures Attended(states[k].dirty, states[k].started, roots)
    decreases k
  {
    hide *;
    if j < k {
      RunLength(states, events);
      RunTook(states, events, k - 1);
      assert !ChangeAt(states, events, k - 1);
      OneStepCovered(states, events, k - 1);
      StillCovered(states, events, j, k - 1, roots);
      StepCovers(states[k - 1], events[k - 1], states[k], roots);
    }
  }

  lemma {:induction false} OneStepCovered(states: seq<State>, events: seq<Event>, k: nat)
    requires k < |events| < |states| && Took(states[k], events[k], states[k + 1]) && !states[k + 1].isShutdown && !ChangeAt(states, events, k)
    ensures !states[k].isShutdown && (Hears(events[k]) ==> !Invalidates(states[k], events[k].input.message))
  {
    hide Took, Invalidates;
    if states[k].isShutdown { ShutStays(states[k], events[k], states[k + 1]); }
  }

  /** From a change on, until the next one and while the server runs, every root the change touched
      waits to be diagnosed or was started since. */
  lemma {:induction false} TouchedCovered(states: seq<State>, events: seq<Event>, j: nat, k: nat)
    requires IsRun(states, events) && j < k < |states| && ChangeAt(states, events, j) && !states[k].isShutdown
    requires forall i | j < i < k :: !ChangeAt(states, events, i)
    ensures Attended(states[k].dirty, states[k].started, Touched(states[j], events[j]))
  {
    RunLength(states, events);
    FirstCovered(states, events, j);
    var roots := Touched(states[j], events[j]);
    hide *;
    assert forall i | j + 1 <= i < k :: !ChangeAt(states, events, i);
    StillCovered(states, events, j + 1, k, roots);
  }

  lemma {:induction false} FirstCovered(states: seq<State>, events: seq<Event>, j: nat)
    requires IsRun(states, events) && j < |events| && ChangeAt(states, events, j)
    ensures j + 1 < |states| && Attended(states[j + 1].dirty, states[j + 1].started, Touched(states[j], events[j]))
  {
    RunTook(states, events, j);
    RunEnabled(states, events, j);
    TookMessage(states[j], events[j], states[j + 1]);
    hide IsRun, Enabled, Invalidates, Touched, Attended, Took, Settled;
    ChangeCovers(states[j], events[j]);
  }

  /** So when nothing is left to do, every root the last change touched has been started since. */
  lemma {:induction false} TouchedDiagnosed(states: seq<State>, events: seq<Event>, j: nat, k: nat, r: Path)
    requires IsRun(states, events) && j < k < |states| && ChangeAt(states, events, j) && !states[k].isShutdown
    requires (forall i | j < i < k :: !ChangeAt(states, events, i)) && Finished(states[k]) && !states[k].exited
    requires r in Touched(states[j], events[j]) && r != ""
    ensures Count(states[k].started, r) > 0
  {
    TouchedCovered(states, events, j, k);
    hide IsRun, Touched, ChangeAt;
  }

  // ---------------------------------------------------------------------------------- a root's job ---

  /** What becomes of a root's job that comes back: nothing when it was cancelled or its scratch
      buffer is gone; its findings when it ran on the live documents without failing; another try
      when it is out of date, or was interrupted and was not tried again twice already; and else
      the root shows nothing any more. */
  ghost predicate RootFate(s: State, w: Work, a: Answer, s': State) {
    var changed := w.revision != s.revision;
    var interrupted := a == Failed(Canceled) || a == Failed(InputsChanged);
    var gone := "untitled:" <= w.uri && w.uri !in s.server.docs;
    if w.cancelled || ((changed || a.Failed?) && gone) then
      s'.dirty == s.dirty && s'.retries == s.retries && s'.server.published == s.server.published && s'.log == s.log
    else if !changed && !a.Failed? then
      && s'.dirty == s.dirty && s'.retries == s.retries - {w.root} && a.Analysed? && w.root in s'.last
      && s'.last[w.root] == Run(w.copy.docs, a.analysis.diagnostics)
    else if changed || (interrupted && Count(s.retries, w.root) < 2) then
      && s'.dirty == s.dirty[w.root := w.uri] && s'.retries == s.retries[w.root := Count(s.retries, w.root) + 1]
      && s'.server.published == s.server.published && s'.log == s.log
    else
      && s'.dirty == s.dirty && s'.retries == s.retries
      && (forall u :: u in s'.server.published <==> u in s.server.published && s.server.published[u] != w.root)
      && (forall u | u in s.server.published && s.server.published[u] == w.root :: Shown(s'.log, u) == [])
  }

  lemma {:induction false} RootJobFate(states: seq<State>, events: seq<Event>, k: nat)
    requires IsRun(states, events) && k < |events| && events[k].EComplete?
    requires states[k].active.Some? && states[k].active.value.id.None?
    ensures RootFate(states[k], states[k].active.value, events[k].answer, states[k + 1])
  {
    RunTook(states, events, k);
    hide IsRun;
    var s, w, e := states[k], states[k].active.value, events[k];
    CompleteFate(s, w, e.answer, e.frames, e.published);
  }

  lemma {:induction false} CompleteFate(s: State, w: Work, a: Answer, frames: seq<Frame>, published: map<Uri, Path>)
    requires s.active == Some(w) && w.id.None? && w.root != "" && Fits(w, a) && Written(s, w, a, frames, published)
    ensures RootFate(s, w, a, Complete(s, a, frames, published))
  {
    hide Diagnosed;
    assert s.log + [] + [] == s.log;
    assert s.log + frames + [] == s.log + frames;
    forall u ensures Shown(s.log + frames, u) == if Latest(frames, u).Some? then Latest(frames, u).value else Shown(s.log, u) {
      LatestAppend(s.log, frames, u);
    }
  }
}
