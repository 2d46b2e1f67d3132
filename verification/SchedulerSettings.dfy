/** Which settings accepted work has seen: the ones its copy was given, changed since only by
    the initialize messages that came in meanwhile. */
module SchedulerSettings {
  import opened Wrappers
  import opened Documents
  import opened Scheduler
  import opened SchedulerRuns
  import opened SchedulerBudget
  import opened SchedulerFindings

  // ----------------------------------------------------------------------- messages ---

  predicate Hears(e: Event) {
    e.EReceive? && e.input.Received?
  }

  predicate Shuts(e: Event) {
    Hears(e) && e.input.message.Shutdown?
  }

  /** What initialize messages ask for before a shutdown: the last inlay setting given, and the
      folders added, in order. */
  datatype Asked = Asked(isShutdown: bool, inlay: Option<bool>, folders: seq<AbsolutePath>)

  function Hear(a: Asked, e: Event): Asked {
    if a.isShutdown || !Hears(e) then a else
    match e.input.message
    case Initialize(_, inlay, folders) => a.(inlay := if inlay.Some? then inlay else a.inlay, folders := a.folders + Named(folders))
    case Shutdown(_) => a.(isShutdown := true)
    case _ => a
  }

  function AskedIn(events: seq<Event>): Asked {
    if events == [] then Asked(false, None, []) else Hear(AskedIn(events[..|events| - 1]), events[|events| - 1])
  }

  /** The i-th event is an initialize that still counts: no shutdown came before it. */
  ghost predicate Initializes(events: seq<Event>, i: nat) {
    i < |events| && Hears(events[i]) && events[i].input.message.Initialize? && forall j | 0 <= j < i :: !Shuts(events[j])
  }

  ghost predicate SetsInlay(events: seq<Event>, i: nat) {
    Initializes(events, i) && events[i].input.message.inlayHints.Some?
  }

  /** The last initialize that carries an inlay setting. */
  ghost predicate LastInlay(events: seq<Event>, i: nat) {
    SetsInlay(events, i) && forall j | i < j < |events| :: !SetsInlay(events, j)
  }

  /** No initialize that counts names a folder. */
  ghost predicate NoFolders(events: seq<Event>) {
    forall i | 0 <= i < |events| && Initializes(events, i) :: Named(events[i].input.message.folders) == []
  }

  lemma {:induction false} ShorterInitializes(events: seq<Event>)
    requires events != []
    ensures forall i | 0 <= i < |events| - 1 :: Initializes(events[..|events| - 1], i) <==> Initializes(events, i)
    ensures forall i | 0 <= i < |events| - 1 :: SetsInlay(events[..|events| - 1], i) <==> SetsInlay(events, i)
  {
    var shorter := events[..|events| - 1];
    forall i | 0 <= i < |events| - 1 ensures Initializes(shorter, i) <==> Initializes(events, i) {
      assert shorter[i] == events[i];
      assert forall j | 0 <= j < i :: shorter[j] == events[j];
    }
  }

  /** What was asked for, read off the messages one by one. */
  lemma {:induction false} AskedMeans(events: seq<Event>)
    ensures AskedIn(events).isShutdown <==> exists i :: 0 <= i < |events| && Shuts(events[i])
    ensures AskedIn(events).inlay.None? <==> forall i | 0 <= i < |events| :: !SetsInlay(events, i)
    ensures forall i | 0 <= i < |events| && LastInlay(events, i) :: AskedIn(events).inlay == events[i].input.message.inlayHints
    ensures AskedIn(events).folders == [] <==> NoFolders(events)
    decreases |events|
  {
    if events != [] {
      var n := |events| - 1;
      var shorter := events[..n];
      AskedMeans(shorter);
      ShorterInitializes(events);
      assert forall i | 0 <= i < n :: shorter[i] == events[i];
      assert Initializes(events, n) <==> Hears(events[n]) && events[n].input.message.Initialize? && !AskedIn(shorter).isShutdown;
      hide Named, Initializes;
      assert SetsInlay(events, n) ==> AskedIn(events).inlay == events[n].input.message.inlayHints;
      assert !SetsInlay(events, n) ==> AskedIn(events).inlay == AskedIn(shorter).inlay;
      if i :| 0 <= i < n && SetsInlay(events, i) {
        assert SetsInlay(shorter, i);
      }
      if i :| 0 <= i < n && SetsInlay(shorter, i) {
        assert SetsInlay(events, i);
      }
      forall i | 0 <= i < |events| && LastInlay(events, i)
        ensures AskedIn(events).inlay == events[i].input.message.inlayHints
      {
        if i < n {
          assert !SetsInlay(events, n);
          forall j | i < j < |shorter| ensures !SetsInlay(shorter, j) {
            assert !SetsInlay(events, j);
          }
          assert LastInlay(shorter, i);
        }
      }
    }
  }

  // ---------------------------------------------------------------------------- steps ---

  /** The server's settings, and the copy's brought up to date with what was asked since. */
  ghost predicate Settings(s: State, copy: Editor, a: Asked) {
    && s.server.inlay == a.inlay.GetOr(copy.inlay)
    && s.server.workspaces == copy.workspaces + a.folders
    && s.isShutdown == a.isShutdown
  }

  /** Work that a step leaves in flight: the same copy, and cancelled if it was. */
  ghost predicate StillWorks(s: State, t: State) {
    && s.active.Some? && t.active.Some?
    && t.active.value.copy == s.active.value.copy && t.active.value.revision == s.active.value.revision
    && (s.active.value.cancelled ==> t.active.value.cancelled)
  }

  /** Where each step leaves the work, the settings and the revision. */
  lemma {:induction false} StepParts(s: State, e: Event)
    requires Enabled(s, e)
    ensures e.EComplete? ==> Next(s, e).active.None?
    ensures e.EDispatch? ==> Next(s, e) == Dispatch(s) && (s.active.Some? ==> Next(s, e) == s)
    ensures e.EReceive? && !Hears(e) ==>
      Next(s, e).active == s.active && Next(s, e).server == s.server && Next(s, e).revision == s.revision && Next(s, e).isShutdown == s.isShutdown
    ensures Hears(e) ==> Next(s, e) == Handle(s, e.input.message, e.fs, e.marks)
  {
    NextIs(s, e);
    hide Next, Enabled, Handle, Written, Fits, TakePending, TakeDirty, LogAfter, RetriesAfter, DirtyAfter, LastAfter;
  }

  /** Work only comes into flight by a dispatch, on a copy of the server as it stands. */
  lemma {:induction false} OnlyDispatchStarts(s: State, e: Event)
    requires Enabled(s, e) && s.active.None? && Next(s, e).active.Some?
    ensures e.EDispatch? && Next(s, e).server == s.server && Next(s, e).active.value.copy == s.server
    ensures Next(s, e).isShutdown == s.isShutdown && !Next(s, e).active.value.cancelled
    ensures Settled(s) ==> !s.isShutdown
  {
    StepParts(s, e);
    hide Next, Enabled, Handle, Dispatch;
    if Hears(e) { MessageKeepsWork(s, e.input.message, e.fs, e.marks); }
    DispatchStarts(s);
  }

  lemma {:induction false} DispatchStarts(s: State)
    requires s.active.None? && Dispatch(s).active.Some?
    ensures var t := Dispatch(s); t.server == s.server && t.isShutdown == s.isShutdown && t.active.value.copy == s.server && !t.active.value.cancelled
    ensures Settled(s) ==> !s.isShutdown
  {
    TakePendingParts(s);
    TakeDirtyParts(TakePending(s));
    TakePendingIs(s);
    hide TakePending, TakeDirty, Least;
  }

  lemma {:induction false} MessageKeepsWork(s: State, m: Message, fs: Files, marks: map<Path, Uri>)
    ensures s.active.None? ==> Handle(s, m, fs, marks).active.None?
    ensures s.active.Some? ==> StillWorks(s, Handle(s, m, fs, marks))
    ensures Handle(s, m, fs, marks).revision == if Invalidates(s, m) then s.revision + 1 else s.revision
  {
    HandleIs(s, m, fs, marks);
    hide Handle, HandleChange, HandleQuietly, Invalidates;
    if s.isShutdown && !m.Exit? && !m.Shutdown? {
      assert Invalidates(s, m) ==> !s.isShutdown;
    } else if Invalidates(s, m) {
      ChangeParts(s, m, fs, marks);
    } else {
      QuietlyKeepsWork(s, m);
    }
  }

  lemma {:induction false} QuietlyKeepsWork(s: State, m: Message)
    requires s.isShutdown ==> m.Exit? || m.Shutdown?
    ensures var t := HandleQuietly(s, m);
            && (s.active.None? ==> t.active.None?)
            && (s.active.Some? ==> StillWorks(s, t))
            && t.revision == s.revision && t.isShutdown == (s.isShutdown || m.Shutdown?)
            && (m.Shutdown? && s.active.Some? ==> t.active.value.cancelled)
  {
    QuietlyParts(s, m);
    hide HandleQuietly;
  }

  lemma {:induction false} QuietlyHeard(s: State, m: Message)
    ensures HandleQuietly(s, m).server == if m.Initialize? then Configure(s.server, m.inlayHints, m.folders) else s.server
  {
    hide Shutting, CancelQueued, CancelWork, Configure;
    match m {
      case Initialize(_, _, _) =>
      case _ =>
    }
  }

  /** A message that outdates no work changes the settings only as it is heard. */
  lemma {:induction false} MessageHeard(s: State, m: Message, fs: Files, marks: map<Path, Uri>, copy: Editor, a: Asked)
    requires Settings(s, copy, a) && !Invalidates(s, m)
    ensures Settings(Handle(s, m, fs, marks), copy, Hear(a, EReceive(Received(m), fs, marks)))
    ensures m.Shutdown? && s.active.Some? ==> Handle(s, m, fs, marks).active.Some? && Handle(s, m, fs, marks).active.value.cancelled
  {
    HandleIs(s, m, fs, marks);
    hide Handle, HandleQuietly, HandleChange, Named, Invalidates;
    if !s.isShutdown || m.Exit? || m.Shutdown? {
      QuietlyHeard(s, m);
      QuietlyKeepsWork(s, m);
      if m.Initialize? {
        assert copy.workspaces + a.folders + Named(m.folders) == copy.workspaces + (a.folders + Named(m.folders));
      }
    }
  }

  lemma {:induction false} HeardBy(s: State, e: Event, copy: Editor, a: Asked)
    requires Enabled(s, e) && Settings(s, copy, a) && s.active.Some? && Next(s, e).active.Some?
    requires Next(s, e).revision == s.revision
    ensures Settings(Next(s, e), copy, Hear(a, e)) && StillWorks(s, Next(s, e))
    ensures Shuts(e) ==> Next(s, e).active.value.cancelled
  {
    StepParts(s, e);
    hide Next, Enabled, Handle, Dispatch, Invalidates;
    if Hears(e) {
      MessageKeepsWork(s, e.input.message, e.fs, e.marks);
      MessageHeard(s, e.input.message, e.fs, e.marks, copy, a);
      assert e == EReceive(Received(e.input.message), e.fs, e.marks);
    }
  }

  // ------------------------------------------------------------------------- theorem ---

  /** The step that put the work in flight into flight. */
  ghost predicate DispatchedAt(states: seq<State>, events: seq<Event>, d: nat, k: nat) {
    && d < k < |states| && |states| == |events| + 1
    && events[d].EDispatch? && states[d].active.None?
    && (forall i | d < i <= k :: states[i].active.Some?)
  }

  /** In every run, the live settings are those of the copy in flight at an unchanged revision,
      changed by the initialize messages since its dispatch and by nothing else. No shutdown
      came in meanwhile unless the work is cancelled. */
  lemma {:induction false} SettingsSince(states: seq<State>, events: seq<Event>, k: nat) returns (d: nat)
    requires IsRun(states, events) && k < |states|
    requires states[k].active.Some? && states[k].active.value.revision == states[k].revision
    ensures DispatchedAt(states, events, d, k) && states[k].active.value.copy == states[d].server
    ensures Settings(states[k], states[k].active.value.copy, AskedIn(events[d + 1..k]))
    ensures !states[k].active.value.cancelled ==> !AskedIn(events[d + 1..k]).isShutdown
    decreases k
  {
    hide Inv, Next, Enabled, Settings, AskedIn;
    assert k > 0;
    var s, e := states[k - 1], events[k - 1];
    assert Enabled(s, e) && states[k] == Next(s, e);
    RunInv(states, events, k - 1);
    if s.active.None? {
      OnlyDispatchStarts(s, e);
      d := k - 1;
      assert events[d + 1..k] == [];
      StartsUnasked(s, e);
    } else {
      RevisionsGrow(s, e);
      d := SettingsSince(states, events, k - 1);
      HeardBy(s, e, s.active.value.copy, AskedIn(events[d + 1..k - 1]));
      assert events[d + 1..k][..k - d - 2] == events[d + 1..k - 1];
      HearNext(events[d + 1..k]);
    }
  }

  lemma {:induction false} HearNext(events: seq<Event>)
    requires events != []
    ensures AskedIn(events) == Hear(AskedIn(events[..|events| - 1]), events[|events| - 1])
  {
  }

  lemma {:induction false} StartsUnasked(s: State, e: Event)
    requires Enabled(s, e) && s.active.None? && Next(s, e).active.Some? && Inv(s)
    ensures Settings(Next(s, e), s.server, AskedIn([])) && !AskedIn([]).isShutdown
  {
    OnlyDispatchStarts(s, e);
    hide Next, Enabled;
    assert s.server.workspaces + [] == s.server.workspaces;
  }

  /** Work still at the current revision after a step was at the current one before it. */
  lemma {:induction false} RevisionsGrow(s: State, e: Event)
    requires Enabled(s, e) && Inv(s) && s.active.Some? && Next(s, e).active.Some?
    requires Next(s, e).active.value.revision == Next(s, e).revision
    ensures s.active.value.revision == s.revision == Next(s, e).revision
  {
    StepParts(s, e);
    hide Next, Enabled, Handle, Dispatch, Invalidates, Accounted, Budgeted, Settled, Owned, FreshQueue, OverlayOk;
    if Hears(e) {
      MessageKeepsWork(s, e.input.message, e.fs, e.marks);
    }
  }

  /** When the settings a job saw are the live ones, read off the messages since its dispatch. */
  lemma {:induction false} SettingsLiveExactly(states: seq<State>, events: seq<Event>, k: nat) returns (d: nat)
    requires IsRun(states, events) && k < |states|
    requires states[k].active.Some? && states[k].active.value.revision == states[k].revision
    ensures DispatchedAt(states, events, d, k)
    ensures var s, copy, since := states[k], states[k].active.value.copy, events[d + 1..k];
            && (copy.inlay == s.server.inlay
                <==> forall i | 0 <= i < |since| && LastInlay(since, i) :: since[i].input.message.inlayHints == Some(copy.inlay))
            && (copy.workspaces == s.server.workspaces <==> NoFolders(since))
  {
    d := SettingsSince(states, events, k);
    var s, copy, since := states[k], states[k].active.value.copy, events[d + 1..k];
    AskedMeans(since);
    hide IsRun, AskedIn, NoFolders;
    var a := AskedIn(since);
    assert copy.workspaces == copy.workspaces + a.folders <==> a.folders == [] by {
      assert |copy.workspaces + a.folders| == |copy.workspaces| + |a.folders|;
      if a.folders == [] { assert copy.workspaces + a.folders == copy.workspaces; }
    }
    if a.inlay.Some? {
      var i := FindLastInlay(since);
      hide LastInlay;
    }
  }

  lemma {:induction false} FindLastInlay(events: seq<Event>) returns (i: nat)
    requires exists j :: 0 <= j < |events| && SetsInlay(events, j)
    ensures i < |events| && LastInlay(events, i)
  {
    var j :| 0 <= j < |events| && SetsInlay(events, j);
    i := j;
    var n := j + 1;
    while n < |events|
      invariant i < n <= |events| && SetsInlay(events, i)
      invariant forall j | i < j < n :: !SetsInlay(events, j)
    {
      if SetsInlay(events, n) { i := n; }
      n := n + 1;
    }
  }
}
