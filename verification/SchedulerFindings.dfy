/** Ownership of what the client shows, and the theorems over whole runs of the scheduler. */
module SchedulerFindings {
  import opened Wrappers
  import opened Documents
  import opened Scheduler
  import opened SchedulerRuns
  import opened SchedulerBudget

  /** A published URI shows exactly what its owner's last accepted run found there; every
      other URI shows nothing. */
  ghost predicate OwnedAt(published: map<Uri, Path>, last: map<Path, Run>, log: seq<Frame>, u: Uri) {
    if u in published then
      published[u] in last && Shown(log, u) == Findings(last[published[u]].docs, last[published[u]].diagnostics, u)
    else Shown(log, u) == []
  }

  ghost predicate OwnedAll(published: map<Uri, Path>, last: map<Path, Run>, log: seq<Frame>) {
    forall u :: OwnedAt(published, last, log, u)
  }

  ghost predicate Owned(s: State) {
    OwnedAll(s.server.published, s.last, s.log)
  }

  /** Nothing in the frames publishes. */
  ghost predicate Silent(frames: seq<Frame>) {
    forall i | 0 <= i < |frames| :: !frames[i].Publish?
  }

  lemma {:induction false} SilentLatest(frames: seq<Frame>, u: Uri)
    requires Silent(frames)
    ensures Latest(frames, u) == None
    decreases |frames|
  {
    if frames != [] {
      SilentLatest(frames[..|frames| - 1], u);
    }
  }

  lemma {:induction false} SilentKeeps(published: map<Uri, Path>, last: map<Path, Run>, log: seq<Frame>, frames: seq<Frame>)
    requires OwnedAll(published, last, log) && Silent(frames)
    ensures OwnedAll(published, last, log + frames)
  {
    forall u ensures OwnedAt(published, last, log + frames, u) {
      assert OwnedAt(published, last, log, u);
      SilentLatest(frames, u);
      LatestAppend(log, frames, u);
    }
  }

  lemma {:induction false} SilentOne(published: map<Uri, Path>, last: map<Path, Run>, log: seq<Frame>, f: Frame)
    requires OwnedAll(published, last, log) && !f.Publish?
    ensures OwnedAll(published, last, log + [f])
  {
    SilentKeeps(published, last, log, [f]);
  }

  lemma {:induction false} ClosedOwned(published: map<Uri, Path>, last: map<Path, Run>, log: seq<Frame>, uri: Uri)
    requires OwnedAll(published, last, log)
    ensures OwnedAll(published - {uri}, last, log + [Publish(uri, None, [])])
  {
    var sent := log + [Publish(uri, None, [])];
    assert sent[..|log|] == log;
    forall u ensures OwnedAt(published - {uri}, last, sent, u) {
      assert OwnedAt(published, last, log, u);
    }
  }

  lemma {:induction false} TakePendingOwned(s: State)
    requires Owned(s) && s.active.None?
    ensures Owned(TakePending(s))
    decreases |s.pending|
  {
    TakePendingIs(s);
    hide TakePending, OwnedAll;
    if s.pending != [] && (s.pending[0].cancelled || s.pending[0].revision != s.revision) {
      var code := if s.pending[0].cancelled then -32800 else -32801;
      SilentOne(s.server.published, s.last, s.log, Response(Some(s.pending[0].id), Some(code)));
      TakePendingOwned(PassOver(s, code));
    }
  }

  lemma {:induction false} DispatchOwned(s: State)
    requires Owned(s)
    ensures Owned(Dispatch(s))
  {
    if s.active.None? {
      TakePendingOwned(s);
      TakeDirtyParts(TakePending(s));
      hide TakePending, TakeDirty, OwnedAll, Least;
    }
  }

  /** What an edit does to the published map. */
  lemma {:induction false} EditedPublished(s: State, m: Message)
    ensures Edited(s, m).server.published == if m.DidClose? then s.server.published - {m.uri} else s.server.published
  {
    hide Sync;
  }

  lemma {:induction false} HandleOwned(s: State, m: Message, fs: Files, marks: map<Path, Uri>)
    requires Owned(s)
    ensures Owned(Handle(s, m, fs, marks))
  {
    HandleIs(s, m, fs, marks);
    hide Handle, HandleChange, HandleQuietly, Invalidates, OwnedAll, Edited;
    if s.isShutdown && !m.Exit? && !m.Shutdown? {
      SilentOne(s.server.published, s.last, s.log, Response(m.id, Some(-32600)));
    } else if Invalidates(s, m) {
      ChangeParts(s, m, fs, marks);
      EditedPublished(s, m);
      if m.DidClose? { ClosedOwned(s.server.published, s.last, s.log, m.uri); }
    } else {
      QuietlyOwned(s, m);
    }
  }

  /** The frames a message that changes no document is met with. */
  function Said(s: State, m: Message): seq<Frame> {
    match m
    case Initialize(id, _, _) => [Response(id, None)]
    case Shutdown(id) => Shutting(s.pending) + [Response(id, None)]
    case DidChange(_, uri, _, version, _) => if uri in s.server.docs && version > s.server.docs[uri].version then [Notice] else []
    case Call(id) => if id.Some? && |s.pending| >= MAX_PENDING then [Response(id, Some(-32000))] else []
    case _ => []
  }

  lemma {:induction false} QuietlySaid(s: State, m: Message)
    ensures HandleQuietly(s, m).log == s.log + Said(s, m) && Silent(Said(s, m))
  {
    hide Shutting, Configure, CancelQueued, CancelWork;
    match m {
      case Shutdown(id) =>
        assert s.log + Shutting(s.pending) + [Response(id, None)] == s.log + Said(s, m);
        ShuttingSilent(s.pending);
      case Initialize(_, _, _) =>
      case DidChange(_, _, _, _, _) =>
      case Call(_) =>
      case _ => assert s.log + Said(s, m) == s.log;
    }
  }

  lemma {:induction false} ShuttingSilent(pending: seq<Queued>)
    ensures Silent(Shutting(pending))
  {
  }

  lemma {:induction false} QuietlyOwned(s: State, m: Message)
    requires Owned(s) && (s.isShutdown ==> m.Exit? || m.Shutdown?)
    ensures Owned(HandleQuietly(s, m))
  {
    QuietlyParts(s, m);
    QuietlySaid(s, m);
    hide HandleQuietly, OwnedAll, Said;
    SilentKeeps(s.server.published, s.last, s.log, Said(s, m));
  }

  // --------------------------------------------------------------------- completion ---

  lemma {:induction false} DiagnosedOwned(e: Editor, fs: Files, root: Path, a: Analysis, frames: seq<Frame>, published: map<Uri, Path>,
                                          last: map<Path, Run>, log: seq<Frame>)
    requires OwnedAll(e.published, last, log) && Diagnosed(e, fs, root, a, frames, published)
    ensures OwnedAll(published, last[root := Run(e.docs, a.diagnostics)], log + frames)
  {
    hide Findings, Reports;
    var latest, sent := last[root := Run(e.docs, a.diagnostics)], log + frames;
    forall u ensures OwnedAt(published, latest, sent, u) {
      assert OwnedAt(e.published, last, log, u);
      assert DiagnosedAt(e, fs, root, a, frames, published, u);
      LatestAppend(log, frames, u);
      if !Reports(e, fs, root, a, u) { NotReported(e, fs, root, a, u); }
    }
  }

  lemma {:induction false} NotReported(e: Editor, fs: Files, root: Path, a: Analysis, u: Uri)
    requires !Reports(e, fs, root, a, u)
    ensures Findings(e.docs, a.diagnostics, u) == []
  {
  }

  lemma {:induction false} ClearsOwned(e: Editor, root: Path, frames: seq<Frame>, last: map<Path, Run>, log: seq<Frame>)
    requires OwnedAll(e.published, last, log) && ClearsRoot(e, root, frames)
    ensures OwnedAll(DropRoot(e, root).published, last, log + frames)
  {
    var kept, sent := DropRoot(e, root).published, log + frames;
    forall u ensures OwnedAt(kept, last, sent, u) {
      assert OwnedAt(e.published, last, log, u);
      LatestAppend(log, frames, u);
    }
  }

  /** The published map and the client after a completed job, its response aside. */
  lemma {:induction false} WrittenOwned(s: State, a: Answer, frames: seq<Frame>, published: map<Uri, Path>)
    requires Owned(s) && s.active.Some? && FreshWork(s.server, s.revision, s.active)
    requires Fits(s.active.value, a) && Written(s, s.active.value, a, frames, published)
    ensures OwnedAll(published, LastAfter(s, s.active.value, a), s.log + frames)
  {
    var w := s.active.value;
    hide OwnedAll, Diagnosed, ClearsRoot, DropRoot, ClosedScratch, Stale, Retried;
    if Accepted(s, w, a) && a.Analysed? {
      DiagnosedOwned(w.copy, a.fs, w.root, a.analysis, frames, published, s.last, s.log);
    } else if frames == [] {
      assert s.log + frames == s.log;
      if published != s.server.published {
        ClearsOwned(s.server, w.root, frames, s.last, s.log);
      }
    } else {
      ClearsOwned(s.server, w.root, frames, s.last, s.log);
    }
  }

  lemma {:induction false} CompleteOwned(s: State, a: Answer, frames: seq<Frame>, published: map<Uri, Path>)
    requires Owned(s) && s.active.Some? && FreshWork(s.server, s.revision, s.active)
    requires Fits(s.active.value, a) && Written(s, s.active.value, a, frames, published)
    ensures Owned(Complete(s, a, frames, published))
  {
    WrittenOwned(s, a, frames, published);
    var w := s.active.value;
    hide OwnedAll, Written, RetriesAfter, DirtyAfter, LastAfter, Code, FreshWork, Fits;
    if w.id.Some? {
      SilentOne(published, LastAfter(s, w, a), s.log + frames, Response(w.id, Code(s, w, a)));
    } else {
      assert s.log + frames + [] == s.log + frames;
    }
  }

  lemma {:induction false} NextOwned(s: State, e: Event)
    requires Enabled(s, e) && Fresh(s) && Owned(s)
    ensures Owned(Next(s, e))
  {
    NextIs(s, e);
    hide Next, Enabled, Owned, Handle, Dispatch, Complete, Receive, Written, Fits, OverlayOk, FreshQueue, FreshWork;
    match e {
      case EDispatch => DispatchOwned(s);
      case EReceive(input, fs, marks) => if input.Received? { HandleOwned(s, input.message, fs, marks); } else { QuietOwned(s, input, fs, marks); }
      case EComplete(a, frames, published) => CompleteOwned(s, a, frames, published);
    }
  }

  lemma {:induction false} QuietOwned(s: State, input: Input, fs: Files, marks: map<Path, Uri>)
    requires Owned(s) && !input.Received?
    ensures Owned(Receive(s, input, fs, marks))
  {
    hide OwnedAll;
    if input.BadBody? { SilentOne(s.server.published, s.last, s.log, Response(None, Some(input.code))); }
    if input.BadFrame? { SilentOne(s.server.published, s.last, s.log, Response(None, Some(-32600))); }
  }

  // ----------------------------------------------------------------------- theorems ---

  ghost predicate Inv(s: State) {
    Accounted(s) && Fresh(s) && Budgeted(s) && Settled(s) && Owned(s)
  }

  lemma {:induction false} StartInv()
    ensures Inv(Start())
  {
  }

  /** Every step keeps every invariant, whatever the interleaving and the worker's answers. */
  lemma {:induction false} NextInv(s: State, e: Event)
    requires Enabled(s, e) && Inv(s)
    ensures Inv(Next(s, e))
  {
    hide Enabled, Next, Accounted, Fresh, Budgeted, Settled, Owned;
    NextAccounted(s, e);
    NextFresh(s, e);
    NextBudgeted(s, e);
    NextSettled(s, e);
    NextOwned(s, e);
  }

  /** A run is a list of states, each the next of the one before. */
  ghost predicate IsRun(states: seq<State>, events: seq<Event>) {
    && |states| == |events| + 1 && states[0] == Start()
    && forall i | 0 <= i < |events| :: Enabled(states[i], events[i]) && states[i + 1] == Next(states[i], events[i])
  }

  lemma {:induction false} RunInv(states: seq<State>, events: seq<Event>, k: nat)
    requires IsRun(states, events) && k < |states|
    ensures Inv(states[k])
    decreases k
  {
    hide Inv, Next, Enabled;
    if k == 0 {
      StartInv();
    } else {
      RunInv(states, events, k - 1);
      NextInv(states[k - 1], events[k - 1]);
    }
  }

  /** No finding is orphaned: what the client shows anything for is a key of `published`. */
  lemma {:induction false} NothingOrphaned(states: seq<State>, events: seq<Event>, k: nat, u: Uri)
    requires IsRun(states, events) && k < |states| && Shown(states[k].log, u) != []
    ensures u in states[k].server.published
  {
    RunInv(states, events, k);
    assert OwnedAt(states[k].server.published, states[k].last, states[k].log, u);
  }

  /** Right after an accepted run of a root, every URI the root owns shows exactly that run's
      findings, every URI the run reports is owned by the root, and the run was made on the
      live documents and overlay. */
  lemma {:induction false} AcceptedRunShows(states: seq<State>, events: seq<Event>, k: nat, u: Uri)
    requires IsRun(states, events) && k < |events| && events[k].EComplete? && events[k].answer.Analysed?
    requires states[k].active.Some? && Accepted(states[k], states[k].active.value, events[k].answer)
    ensures var s, w, a, t := states[k], states[k].active.value, events[k].answer, states[k + 1];
            && w.copy.docs == s.server.docs == t.server.docs && w.copy.overlay == s.server.overlay == t.server.overlay
            && (u in t.server.published && t.server.published[u] == w.root ==>
                  Shown(t.log, u) == Findings(s.server.docs, a.analysis.diagnostics, u))
            && (Reports(w.copy, a.fs, w.root, a.analysis, u) ==> u in t.server.published && t.server.published[u] == w.root)
  {
    var s, w, a, t := states[k], states[k].active.value, events[k].answer, states[k + 1];
    RunInv(states, events, k);
    RunInv(states, events, k + 1);
    NextIs(s, events[k]);
    assert Enabled(s, events[k]) && t == Next(s, events[k]);
    assert OwnedAt(t.server.published, t.last, t.log, u);
    hide Accounted, Budgeted, Settled, Owned, OverlayOk, FreshQueue, Findings, Reports, LogAfter, RetriesAfter, DirtyAfter;
    assert DiagnosedAt(w.copy, a.fs, w.root, a.analysis, events[k].frames, events[k].published, u);
  }

  /** A request's result was computed on the very documents the request was made on, which
      are still the live ones; otherwise the answer is an error. */
  lemma {:induction false} ResultsAreCurrent(states: seq<State>, events: seq<Event>, k: nat)
    requires IsRun(states, events) && k < |events| && events[k].EComplete?
    requires states[k].active.Some? && states[k].active.value.id.Some?
    ensures var s, w := states[k], states[k].active.value;
            Code(s, w, events[k].answer).None? ==> w.asked == w.copy.docs == s.server.docs && w.copy.overlay == s.server.overlay
  {
    var s, w := states[k], states[k].active.value;
    RunInv(states, events, k);
    assert Enabled(s, events[k]);
    hide Accounted, Budgeted, Settled, Owned, OverlayOk, FreshQueue, Written;
  }

  /** Whenever nothing is left to do, every id owed an answer has exactly one; and in between,
      exactly the queued ids and the one in flight are still missing. */
  lemma {:induction false} EachAnsweredOnce(states: seq<State>, events: seq<Event>, k: nat)
    requires IsRun(states, events) && k < |states|
    ensures states[k].owed == Answered(states[k].log) + QueuedIds(states[k].pending) + ActiveIds(states[k].active)
    ensures Finished(states[k]) && !states[k].exited ==> Answered(states[k].log) == states[k].owed
  {
    RunInv(states, events, k);
  }

  /** At any moment a root was retried at most twice and started at most three times since the
      last change. */
  lemma {:induction false} RunsAreBounded(states: seq<State>, events: seq<Event>, k: nat, r: Path)
    requires IsRun(states, events) && k < |states|
    ensures Count(states[k].retries, r) <= 2 && Count(states[k].started, r) <= 3
    ensures |states[k].pending| <= MAX_PENDING
  {
    RunInv(states, events, k);
    var s := states[k];
    assert RootBudget(s.revision, s.active, s.dirty, s.retries, s.started, r);
  }

  /** After any run the overlay is what the open documents say it is. */
  lemma {:induction false} OverlayFollowsDocuments(states: seq<State>, events: seq<Event>, k: nat, p: Path)
    requires IsRun(states, events) && k < |states|
    ensures OverlayAt(states[k].server.docs, states[k].server.overlay, p)
  {
    RunInv(states, events, k);
  }

  /** The copy's settings may be out of date even at an equal revision: initializing again
      while a request is worked on switches inlay hints off without outdating the work. */
  lemma {:induction false} SettingsCanLag(id: Id) returns (states: seq<State>, events: seq<Event>)
    ensures IsRun(states, events) && |states| == 4
    ensures var s := states[3];
            && s.active.Some? && s.active.value.revision == s.revision && s.active.value.copy.inlay != s.server.inlay
            && Accepted(s, s.active.value, Replied(None))
  {
    var fs := Files(p => p, w => None);
    events := [EReceive(Received(Call(Some(id))), fs, map[]), EDispatch, EReceive(Received(Initialize(None, Some(false), [])), fs, map[])];
    var s0 := Start();
    var s1 := Next(s0, events[0]);
    var s2 := Next(s1, events[1]);
    assert s1.pending == [Queued(id, 0, false, map[])];
    assert s2.active.Some? && s2.active.value.copy == s1.server;
    var s3 := Next(s2, events[2]);
    states := [s0, s1, s2, s3];
  }
}
