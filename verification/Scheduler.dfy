/** The language server's scheduler: intake of messages, one worker, a revision counter, a
    queue of requests and a set of dirty roots. Intake and worker interleave freely. */
module Scheduler {
  import opened Wrappers
  import opened Documents

  const MAX_PENDING := 128

  datatype Message =
    | Initialize(id: Option<Id>, inlayHints: Option<bool>, folders: seq<Folder>)
    | Initialized(id: Option<Id>)
    | Shutdown(id: Option<Id>)
    | Exit(id: Option<Id>)
    | CancelRequest(id: Option<Id>, target: Id)
    | DidOpen(id: Option<Id>, uri: Uri, text: string, version: int, path: Path)
    | DidChange(id: Option<Id>, uri: Uri, text: string, version: int, full: bool)
    | DidClose(id: Option<Id>, uri: Uri)
    | DidSave(id: Option<Id>)
    | Configured(id: Option<Id>, inlayHints: Option<bool>)
    | Folders(id: Option<Id>, removed: seq<Folder>, added: seq<Folder>)
    /** A known notification whose parameters do not decode, or decode to nothing to do. */
    | Undecoded(id: Option<Id>)
    | Call(id: Option<Id>)

  datatype Input = Received(message: Message) | BadBody(code: int) | BadFrame | EndOfInput

  /** A queued request; `asked` is the document state it was made on. */
  datatype Queued = Queued(id: Id, revision: nat, cancelled: bool, asked: map<Uri, Doc>)

  /** The job in flight: a root to diagnose, or a request when the root is empty. It works on
      its own copy of the server. */
  datatype Work = Work(id: Option<Id>, uri: Uri, root: Path, revision: nat, cancelled: bool, copy: Editor, asked: map<Uri, Doc>)

  datatype Failure = Canceled | InputsChanged | Coded(code: int) | Internal

  /** What the worker comes back with. */
  datatype Answer = Failed(failure: Failure) | Replied(code: Option<int>) | Analysed(fs: Files, analysis: Analysis)

  /** An accepted run of a root. */
  datatype Run = Run(docs: map<Uri, Doc>, diagnostics: seq<Diagnostic>)

  /** The last four fields are history: ids owed an answer, runs started per root since the
      last change, the last accepted run per root, and the answered requests' document states. */
  datatype State = State(
    server: Editor, revision: nat, active: Option<Work>, pending: seq<Queued>, dirty: map<Path, Uri>, retries: map<Path, nat>,
    inputOpen: bool, isShutdown: bool, exited: bool, log: seq<Frame>,
    owed: multiset<Id>, started: map<Path, nat>, last: map<Path, Run>)

  function Start(): State {
    State(Editor(map[], map[], map[], [], true), 0, None, [], map[], map[], true, false, false, [], multiset{}, map[], map[])
  }

  function Send(s: State, f: Frame): State {
    s.(log := s.log + [f])
  }

  function Count(m: map<Path, nat>, r: Path): nat {
    if r in m then m[r] else 0
  }

  // ------------------------------------------------------------------- invalidation ---

  function DocRoots(e: Editor, fs: Files): set<Path> {
    (set u | u in e.docs && RootOf(e.docs, fs, u) != "" :: RootOf(e.docs, fs, u))
  }

  function Manifests(e: Editor, fs: Files): set<Path> {
    (set w | w in e.workspaces && fs.manifest(w).Some? :: fs.manifest(w).value)
  }

  function PublishedRoots(e: Editor): set<Path> {
    (set u | u in e.published && e.published[u] != "" :: e.published[u])
  }

  /** The roots a change makes dirty, each with a document of its own when it has one open. */
  ghost predicate Marks(e: Editor, fs: Files, marks: map<Path, Uri>) {
    && marks.Keys == PublishedRoots(e) + Manifests(e, fs) + DocRoots(e, fs)
    && forall r | r in marks ::
         if r in DocRoots(e, fs) then marks[r] in e.docs && RootOf(e.docs, fs, marks[r]) == r else marks[r] == ""
  }

  function Invalidate(s: State, marks: map<Path, Uri>): State {
    s.(revision := s.revision + 1, retries := map[], started := map[], dirty := s.dirty + marks)
  }

  // ----------------------------------------------------------------------- dispatch ---

  /** The head of the queue is answered instead of being worked on. */
  function PassOver(s: State, code: int): State
    requires s.pending != []
  {
    s.(pending := s.pending[1..], log := s.log + [Response(Some(s.pending[0].id), Some(code))])
  }

  /** Hands the worker the first request that is neither cancelled nor out of date, answering
      those passed over. */
  function TakePending(s: State): State
    requires s.active.None?
    decreases |s.pending|
  {
    if s.pending == [] then s else
    var next := s.pending[0];
    if next.cancelled then TakePending(PassOver(s, -32800))
    else if next.revision != s.revision then TakePending(PassOver(s, -32801))
    else s.(pending := s.pending[1..], active := Some(Work(Some(next.id), "", "", s.revision, false, s.server, next.asked)))
  }

  /** Hands the worker the least dirty root; the empty root is only dropped. */
  ghost function TakeDirty(s: State): State {
    if s.active.Some? || s.dirty.Keys == {} then s else
    var root := Least(s.dirty.Keys);
    var rest := s.(dirty := s.dirty - {root});
    if root == "" then rest
    else rest.(active := Some(Work(None, s.dirty[root], root, s.revision, false, s.server, s.server.docs)),
               started := s.started[root := Count(s.started, root) + 1])
  }

  ghost function Dispatch(s: State): State {
    if s.active.Some? then s else TakeDirty(TakePending(s))
  }

  /** Nothing is left to do and nothing more can arrive. */
  predicate Finished(s: State) {
    s.exited || (!s.inputOpen && s.active.None? && s.pending == [] && s.dirty == map[])
  }

  // ------------------------------------------------------------------------- intake ---

  function Refused(s: State, id: Option<Id>, code: int): State {
    if id.None? then s else Send(s.(owed := s.owed + multiset{id.value}), Response(id, Some(code)))
  }

  function OneId(id: Option<Id>): multiset<Id> {
    if id.Some? then multiset{id.value} else multiset{}
  }

  function Replies(s: State, id: Option<Id>): State {
    s.(owed := s.owed + OneId(id), log := s.log + [Response(id, None)])
  }

  function Shutting(pending: seq<Queued>): seq<Frame> {
    seq(|pending|, i requires 0 <= i < |pending| => Response(Some(pending[i].id), Some(-32800)))
  }

  function CancelQueued(pending: seq<Queued>, target: Id): seq<Queued> {
    seq(|pending|, i requires 0 <= i < |pending| =>
      if pending[i].id == target then pending[i].(cancelled := true) else pending[i])
  }

  function CancelWork(active: Option<Work>): Option<Work> {
    if active.Some? then Some(active.value.(cancelled := true)) else None
  }

  function Without(workspaces: seq<AbsolutePath>, removed: seq<Folder>): seq<AbsolutePath> {
    if workspaces == [] then []
    else (if workspaces[0] in removed then [] else [workspaces[0]]) + Without(workspaces[1..], removed)
  }

  /** Whether handling the message changes what analyses depend on. */
  predicate Outdates(docs: map<Uri, Doc>, isShutdown: bool, m: Message) {
    if isShutdown then false else
    match m
    case DidOpen(_, uri, _, _, _) => uri != ""
    case DidChange(_, uri, _, version, full) => uri in docs && version > docs[uri].version && full
    case DidClose(_, _) => true
    case DidSave(_) => true
    case Configured(_, _) => true
    case Folders(_, _, _) => true
    case _ => false
  }

  predicate Invalidates(s: State, m: Message) {
    Outdates(s.server.docs, s.isShutdown, m)
  }

  /** The server after the part of a message that comes before invalidation. */
  ghost function Edited(s: State, m: Message): State {
    match m
    case DidOpen(_, uri, text, version, path) => s.(server := Opened(s.server, uri, text, version, path))
    case DidChange(_, uri, text, version, _) => s.(server := Changed(s.server, uri, text, version))
    case DidClose(_, uri) => Send(s.(server := Closed(s.server, uri)), Publish(uri, None, []))
    case Configured(_, inlay) => s.(server := s.server.(inlay := inlay.GetOr(s.server.inlay)))
    case Folders(_, removed, added) => s.(server := s.server.(workspaces := Without(s.server.workspaces, removed) + Named(added)))
    case _ => s
  }

  /** Folder URIs that name no local path are dropped. */
  function Named(folders: seq<Folder>): seq<AbsolutePath> {
    if folders == [] then [] else (if folders[0] == "" then [] else [folders[0]]) + Named(folders[1..])
  }

  /** A change: the server is edited, every root it touches becomes dirty, and the work in
      flight is out of date. A closed file's root is diagnosed once more. */
  ghost function HandleChange(s: State, m: Message, fs: Files, marks: map<Path, Uri>): State {
    var s' := Invalidate(Edited(s, m), marks);
    if m.DidClose? && RootOf(s.server.docs, fs, m.uri) != "" && !("untitled:" <= m.uri)
    then s'.(dirty := s'.dirty[RootOf(s.server.docs, fs, m.uri) := ""]) else s'
  }

  function Configure(e: Editor, inlay: Option<bool>, folders: seq<Folder>): Editor {
    e.(inlay := inlay.GetOr(e.inlay), workspaces := e.workspaces + Named(folders))
  }

  /** Shutting down answers the queue, cancels the work in flight and forgets dirty roots. */
  function CloseDown(s: State, id: Option<Id>): State {
    s.(isShutdown := true, active := CancelWork(s.active), pending := [], dirty := map[], owed := s.owed + OneId(id),
       log := s.log + Shutting(s.pending) + [Response(id, None)])
  }

  function Cancel(s: State, target: Id): State {
    s.(active := if s.active.Some? && s.active.value.id == Some(target) then CancelWork(s.active) else s.active,
       pending := CancelQueued(s.pending, target))
  }

  function Enqueue(s: State, id: Id): State {
    s.(owed := s.owed + multiset{id}, pending := s.pending + [Queued(id, s.revision, false, s.server.docs)])
  }

  /** Every other message. */
  function HandleQuietly(s: State, m: Message): State {
    match m
    case Exit(_) => s.(exited := true)
    case Initialize(id, inlay, folders) => Replies(s.(server := Configure(s.server, inlay, folders)), id)
    case Shutdown(id) => CloseDown(s, id)
    case CancelRequest(_, target) => Cancel(s, target)
    case DidChange(_, uri, _, version, full) =>
      if uri in s.server.docs && version > s.server.docs[uri].version then Send(s, Notice) else s
    case Call(id) =>
      if id.None? then s else if |s.pending| >= MAX_PENDING then Refused(s, id, -32000) else Enqueue(s, id.value)
    case _ => s
  }

  /** Handles one message. `marks` are the roots an invalidation makes dirty. */
  ghost function Handle(s: State, m: Message, fs: Files, marks: map<Path, Uri>): State {
    if s.isShutdown && !m.Exit? && !m.Shutdown? then Refused(s, m.id, -32600)
    else if Invalidates(s, m) then HandleChange(s, m, fs, marks)
    else HandleQuietly(s, m)
  }

  ghost function Receive(s: State, input: Input, fs: Files, marks: map<Path, Uri>): State {
    match input
    case Received(m) => Handle(s, m, fs, marks)
    case BadBody(code) => Send(s, Response(None, Some(code)))
    case BadFrame => Send(s, Response(None, Some(-32600))).(inputOpen := false)
    case EndOfInput => s.(inputOpen := false)
  }

  // --------------------------------------------------------------------- completion ---

  /** What kind of answer a job can come back with. */
  predicate Fits(w: Work, a: Answer) {
    match a
    case Failed(_) => true
    case Replied(_) => w.root == ""
    case Analysed(_, _) => w.root != ""
  }

  function CodeOf(f: Failure): int {
    if f.Coded? then f.code else -32603
  }

  predicate Stale(s: State, w: Work, a: Answer) {
    w.revision != s.revision || a == Failed(Canceled) || a == Failed(InputsChanged)
  }

  /** A scratch buffer that was closed while its analysis ran. */
  predicate ClosedScratch(s: State, w: Work) {
    "untitled:" <= w.uri && w.uri !in s.server.docs
  }

  predicate Retried(s: State, w: Work, a: Answer) {
    && !w.cancelled && (w.revision != s.revision || a.Failed?)
    && w.root != "" && !ClosedScratch(s, w)
    && Stale(s, w, a) && (w.revision != s.revision || Count(s.retries, w.root) < 2)
  }

  predicate Accepted(s: State, w: Work, a: Answer) {
    !w.cancelled && w.revision == s.revision && !a.Failed?
  }

  /** Giving up on a root clears what it published. */
  ghost predicate ClearsRoot(e: Editor, root: Path, frames: seq<Frame>) {
    && (forall u :: Latest(frames, u) == if u in e.published && e.published[u] == root then Some([]) else None)
    && Answered(frames) == multiset{}
    && (forall i | 0 <= i < |frames| && frames[i].Publish? :: frames[i].version == VersionOf(e.docs, frames[i].uri))
  }

  function DropRoot(e: Editor, root: Path): Editor {
    e.(published := map u | u in e.published && e.published[u] != root :: e.published[u])
  }

  /** The frames a completed job makes the server write, besides a response. */
  ghost predicate Written(s: State, w: Work, a: Answer, frames: seq<Frame>, published: map<Uri, Path>) {
    if Accepted(s, w, a) && a.Analysed? then Diagnosed(w.copy, a.fs, w.root, a.analysis, frames, published)
    else if !w.cancelled && !Accepted(s, w, a) && w.root != "" && !ClosedScratch(s, w) && !Retried(s, w, a) then
      ClearsRoot(s.server, w.root, frames) && published == DropRoot(s.server, w.root).published
    else frames == [] && published == s.server.published
  }

  function Code(s: State, w: Work, a: Answer): Option<int> {
    if w.cancelled then Some(-32800)
    else if Accepted(s, w, a) then (if a.Replied? then a.code else None)
    else if Stale(s, w, a) then Some(-32801)
    else if a.Failed? then Some(CodeOf(a.failure)) else None
  }

  function RetriesAfter(s: State, w: Work, a: Answer): map<Path, nat> {
    if Accepted(s, w, a) && w.root != "" then s.retries - {w.root}
    else if Retried(s, w, a) then s.retries[w.root := Count(s.retries, w.root) + 1]
    else s.retries
  }

  function DirtyAfter(s: State, w: Work, a: Answer): map<Path, Uri> {
    if Retried(s, w, a) then s.dirty[w.root := w.uri] else s.dirty
  }

  function LastAfter(s: State, w: Work, a: Answer): map<Path, Run> {
    if Accepted(s, w, a) && a.Analysed? then s.last[w.root := Run(w.copy.docs, a.analysis.diagnostics)] else s.last
  }

  function LogAfter(s: State, w: Work, a: Answer, frames: seq<Frame>): seq<Frame> {
    s.log + frames + if w.id.Some? then [Response(w.id, Code(s, w, a))] else []
  }

  /** The worker comes back. */
  function Complete(s: State, a: Answer, frames: seq<Frame>, published: map<Uri, Path>): State
    requires s.active.Some?
  {
    var w := s.active.value;
    s.(active := None, server := s.server.(published := published), log := LogAfter(s, w, a, frames),
       retries := RetriesAfter(s, w, a), dirty := DirtyAfter(s, w, a), last := LastAfter(s, w, a))
  }

  // ------------------------------------------------------------------------- events ---

  datatype Event =
    | EDispatch
    | EReceive(input: Input, fs: Files, marks: map<Path, Uri>)
    | EComplete(answer: Answer, frames: seq<Frame>, published: map<Uri, Path>)

  ghost predicate Enabled(s: State, e: Event) {
    && !s.exited
    && match e
       case EDispatch => true
       case EReceive(input, fs, marks) =>
         && s.inputOpen
         && (input.Received? && Invalidates(s, input.message) ==> Marks(Edited(s, input.message).server, fs, marks))
       case EComplete(a, frames, published) =>
         s.active.Some? && Fits(s.active.value, a) && Written(s, s.active.value, a, frames, published)
  }

  ghost function Next(s: State, e: Event): State
    requires Enabled(s, e)
  {
    match e
    case EDispatch => Dispatch(s)
    case EReceive(input, fs, marks) => Receive(s, input, fs, marks)
    case EComplete(a, frames, published) => Complete(s, a, frames, published)
  }
}
