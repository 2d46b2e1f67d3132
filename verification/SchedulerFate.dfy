/** What becomes of each request, told from the messages alone: which answer it gets, and why. */
module SchedulerFate {
  import opened Wrappers
  import opened Documents
  import opened Scheduler
  import opened SchedulerRuns
  import opened SchedulerBudget
  import opened SchedulerFindings
  import opened SchedulerSettings

  // -------------------------------------------------------------------------- tickets ---

  /** A request is known by the step it arrived at: those in the queue, in order, and the one
      being worked on. */
  datatype Tickets = Tickets(queue: seq<nat>, active: Option<nat>)

  predicate Waiting(t: Tickets, a: nat) {
    a in t.queue || t.active == Some(a)
  }

  /** Bookkeeping only: a longer queue got the present step, a shorter one lost its head, or all
      of it when nothing was dispatched. */
  function Follow(t: Tickets, s: State, e: Event, s': State, k: nat): Tickets {
    match e
    case EReceive(_, _, _) =>
      if |s'.pending| > |s.pending| then t.(queue := t.queue + [k])
      else if |s'.pending| < |s.pending| then t.(queue := [])
      else t
    case EComplete(_, _, _) => t.(active := None)
    case EDispatch =>
      if s.active.Some? || |t.queue| != |s.pending| || |s'.pending| > |s.pending| then t else
      var n := |s.pending| - |s'.pending|;
      Tickets(t.queue[n..], if s'.active.Some? && s'.active.value.id.Some? && n > 0 then Some(t.queue[n - 1]) else None)
  }

  function TicketsAt(states: seq<State>, events: seq<Event>, k: nat): Tickets
    requires k <= |events| < |states|
  {
    if k == 0 then Tickets([], None) else Follow(TicketsAt(states, events, k - 1), states[k - 1], events[k - 1], states[k], k - 1)
  }

  // -------------------------------------------------------------------------- history ---

  predicate IsRequest(events: seq<Event>, a: nat, id: Id) {
    a < |events| && Hears(events[a]) && events[a].input.message == Call(Some(id))
  }

  /** A message that cancels requests of this id. */
  predicate Cancels(e: Event, id: Id) {
    Hears(e) && (e.input.message.Shutdown? || (e.input.message.CancelRequest? && e.input.message.target == id))
  }

  /** Such a message came in after step a and before step k. */
  ghost predicate CancelledSince(events: seq<Event>, a: nat, k: nat, id: Id) {
    exists j :: a < j < k && j < |events| && Cancels(events[j], id)
  }

  /** A change came in after step a and before step k. */
  ghost predicate ChangedSince(states: seq<State>, events: seq<Event>, a: nat, k: nat) {
    exists j :: a < j < k && j < |events| && j < |states| && ChangeAt(states, events, j)
  }

  predicate ChangeAt(states: seq<State>, events: seq<Event>, j: nat)
    requires j < |events| && j < |states|
  {
    Hears(events[j]) && Invalidates(states[j], events[j].input.message)
  }

  lemma {:induction false} CancelledNext(events: seq<Event>, a: nat, k: nat, id: Id)
    requires a < k < |events|
    ensures CancelledSince(events, a, k + 1, id) <==> CancelledSince(events, a, k, id) || Cancels(events[k], id)
  {
    if CancelledSince(events, a, k + 1, id) && !Cancels(events[k], id) {
      var j :| a < j < k + 1 && j < |events| && Cancels(events[j], id);
      assert j < k;
    }
    if Cancels(events[k], id) { assert a < k < k + 1; }
    if CancelledSince(events, a, k, id) {
      var j :| a < j < k && j < |events| && Cancels(events[j], id);
    }
  }

  lemma {:induction false} ChangedNext(states: seq<State>, events: seq<Event>, a: nat, k: nat)
    requires a < k < |events| < |states|
    ensures ChangedSince(states, events, a, k + 1) <==> ChangedSince(states, events, a, k) || ChangeAt(states, events, k)
  {
    hide Invalidates;
    if ChangedSince(states, events, a, k + 1) && !ChangeAt(states, events, k) {
      var j :| a < j < k + 1 && j < |events| && j < |states| && ChangeAt(states, events, j);
      assert j < k;
    }
    if ChangeAt(states, events, k) { assert a < k < k + 1; }
    if ChangedSince(states, events, a, k) {
      var j :| a < j < k && j < |events| && j < |states| && ChangeAt(states, events, j);
    }
  }

  // ------------------------------------------------------------------------- what is known ---

  /** A waiting request's record says what the messages since its arrival say. */
  ghost predicate Known(states: seq<State>, events: seq<Event>, k: nat, a: nat, id: Id, cancelled: bool, revision: nat)
    requires k < |states|
  {
    && a < k && IsRequest(events, a, id)
    && (cancelled <==> CancelledSince(events, a, k, id))
    && revision <= states[k].revision
    && (revision != states[k].revision <==> ChangedSince(states, events, a, k))
  }

  ghost predicate QueueKnown(states: seq<State>, events: seq<Event>, k: nat, queue: seq<nat>)
    requires k < |states|
  {
    var pending := states[k].pending;
    && |queue| == |pending|
    && (forall i | 0 <= i < |queue| :: Known(states, events, k, queue[i], pending[i].id, pending[i].cancelled, pending[i].revision))
  }

  /** Requests came in one after the other, all before step k. */
  ghost predicate Ordered(t: Tickets, k: nat) {
    && (forall i | 0 <= i < |t.queue| :: t.queue[i] < k)
    && (forall i, j | 0 <= i < j < |t.queue| :: t.queue[i] < t.queue[j])
    && (t.active.Some? ==> t.active.value < k && forall i | 0 <= i < |t.queue| :: t.active.value < t.queue[i])
  }

  lemma {:induction false} OrderedNext(t: Tickets, k: nat, s: State, e: Event, s': State)
    requires Ordered(t, k) && |t.queue| == |s.pending|
    ensures Ordered(Follow(t, s, e, s', k), k + 1)
  {
    hide Ordered;
    OrderedLonger(t, k);
    OrderedShorter(t, k);
    if e.EDispatch? && s.active.None? && |s'.pending| <= |s.pending| {
      OrderedTail(t, k, |s.pending| - |s'.pending|);
    }
  }

  lemma {:induction false} OrderedLonger(t: Tickets, k: nat)
    requires Ordered(t, k)
    ensures Ordered(t, k + 1) && Ordered(t.(queue := t.queue + [k]), k + 1)
  {
  }

  lemma {:induction false} OrderedShorter(t: Tickets, k: nat)
    requires Ordered(t, k)
    ensures Ordered(t.(queue := []), k + 1) && Ordered(t.(active := None), k + 1)
  {
  }

  lemma {:induction false} OrderedTail(t: Tickets, k: nat, n: nat)
    requires Ordered(t, k) && n <= |t.queue|
    ensures Ordered(Tickets(t.queue[n..], None), k + 1)
    ensures n > 0 ==> Ordered(Tickets(t.queue[n..], Some(t.queue[n - 1])), k + 1)
  {
    var tail := t.queue[n..];
    forall i | 0 <= i < |tail| ensures tail[i] < k && (n > 0 ==> t.queue[n - 1] < tail[i]) {
      assert tail[i] == t.queue[n + i];
    }
    forall i, j | 0 <= i < j < |tail| ensures tail[i] < tail[j] {
      assert tail[i] == t.queue[n + i] && tail[j] == t.queue[n + j];
    }
  }

  ghost predicate ActiveKnown(states: seq<State>, events: seq<Event>, k: nat, active: Option<nat>)
    requires k < |states|
  {
    var w := states[k].active;
    && (active.Some? <==> w.Some? && w.value.id.Some?)
    && (active.Some? ==> Known(states, events, k, active.value, w.value.id.value, w.value.cancelled, w.value.revision))
  }

  ghost predicate AllKnown(states: seq<State>, events: seq<Event>, k: nat, t: Tickets)
    requires k < |states|
  {
    QueueKnown(states, events, k, t.queue) && ActiveKnown(states, events, k, t.active) && Ordered(t, k)
  }

  /** One step further, for a request that stays. */
  lemma {:induction false} StaysKnown(states: seq<State>, events: seq<Event>, k: nat, a: nat, id: Id, cancelled: bool, cancelled': bool, revision: nat)
    requires k < |events| < |states| && Known(states, events, k, a, id, cancelled, revision)
    requires cancelled' <==> cancelled || Cancels(events[k], id)
    requires states[k + 1].revision == states[k].revision + if ChangeAt(states, events, k) then 1 else 0
    ensures Known(states, events, k + 1, a, id, cancelled', revision)
  {
    hide ChangeAt, Cancels, CancelledSince, ChangedSince;
    CancelledNext(events, a, k, id);
    ChangedNext(states, events, a, k);
  }

  /** A request that has just arrived. */
  lemma {:induction false} ArrivesKnown(states: seq<State>, events: seq<Event>, k: nat, id: Id)
    requires k < |events| < |states| && IsRequest(events, k, id)
    ensures Known(states, events, k + 1, k, id, false, states[k + 1].revision)
  {
  }

  // ---------------------------------------------------------------------------- receiving ---

  /** The message is refused outright. */
  predicate TurnedAway(s: State, m: Message) {
    s.isShutdown && !m.Exit? && !m.Shutdown?
  }

  /** What a message does to the queue, the work in flight and the revision. */
  lemma {:induction false} HandleParts(s: State, m: Message, fs: Files, marks: map<Path, Uri>)
    ensures var t := Handle(s, m, fs, marks);
            && t.pending == (if TurnedAway(s, m) then s.pending
                             else if m.Shutdown? then []
                             else if m.CancelRequest? then CancelQueued(s.pending, m.target)
                             else if m.Call? && m.id.Some? && |s.pending| < MAX_PENDING then s.pending + [Queued(m.id.value, s.revision, false, s.server.docs)]
                             else s.pending)
            && t.active == (if TurnedAway(s, m) then s.active
                            else if m.Shutdown? then CancelWork(s.active)
                            else if m.CancelRequest? && s.active.Some? && s.active.value.id == Some(m.target) then CancelWork(s.active)
                            else s.active)
            && t.revision == (if Invalidates(s, m) then s.revision + 1 else s.revision)
  {
    HandleIs(s, m, fs, marks);
    hide Handle, HandleChange, HandleQuietly, Invalidates, CancelQueued, CancelWork;
    if TurnedAway(s, m) {
      RefusedParts(s, m.id, -32600);
      assert !Invalidates(s, m);
    } else if Invalidates(s, m) {
      ChangeParts(s, m, fs, marks);
      ChangeKind(s, m);
    } else {
      QuietlyQueue(s, m);
      QuietlyWork(s, m);
    }
  }

  lemma {:induction false} ChangeKind(s: State, m: Message)
    requires Invalidates(s, m)
    ensures !m.Shutdown? && !m.CancelRequest? && !m.Call?
  {
  }

  lemma {:induction false} QuietlyQueue(s: State, m: Message)
    ensures HandleQuietly(s, m).pending
         == if m.Shutdown? then []
            else if m.CancelRequest? then CancelQueued(s.pending, m.target)
            else if m.Call? && m.id.Some? && |s.pending| < MAX_PENDING then s.pending + [Queued(m.id.value, s.revision, false, s.server.docs)]
            else s.pending
  {
    hide CancelQueued, CancelWork, Shutting, Configure;
    match m {
      case Shutdown(_) =>
      case CancelRequest(_, _) =>
      case Call(_) =>
      case _ =>
    }
  }

  lemma {:induction false} QuietlyWork(s: State, m: Message)
    ensures HandleQuietly(s, m).revision == s.revision
    ensures HandleQuietly(s, m).active
         == if m.Shutdown? then CancelWork(s.active)
            else if m.CancelRequest? && s.active.Some? && s.active.value.id == Some(m.target) then CancelWork(s.active)
            else s.active
  {
    hide CancelQueued, CancelWork, Shutting, Configure;
    match m {
      case Shutdown(_) =>
      case CancelRequest(_, _) =>
      case _ =>
    }
  }

  /** Every queued request is kept and told, or the queue is emptied, or one joins it. */
  lemma {:induction false} ReceiveKnown(states: seq<State>, events: seq<Event>, k: nat, t: Tickets)
    requires k < |events| < |states| && AllKnown(states, events, k, t) && Hears(events[k]) && Settled(states[k])
    requires states[k + 1] == Handle(states[k], events[k].input.message, events[k].fs, events[k].marks)
    ensures AllKnown(states, events, k + 1, Follow(t, states[k], events[k], states[k + 1], k))
  {
    var s, m := states[k], events[k].input.message;
    HandleParts(s, m, events[k].fs, events[k].marks);
    var t' := Follow(t, s, events[k], states[k + 1], k);
    OrderedNext(t, k, s, events[k], states[k + 1]);
    assert s.isShutdown ==> s.pending == [];
    hide Handle, Settled, Known, Invalidates, Ordered, ActiveKnown;
    ReceiveActive(states, events, k, t.active);
    ReceiveQueue(states, events, k, t.queue, t'.queue);
  }

  /** The queue after a message. */
  ghost predicate QueueMoves(states: seq<State>, events: seq<Event>, k: nat, queue: seq<nat>, queue': seq<nat>)
    requires k < |events| < |states| && Hears(events[k])
  {
    var s, m, s' := states[k], events[k].input.message, states[k + 1];
    && s'.pending == (if TurnedAway(s, m) then s.pending
                      else if m.Shutdown? then []
                      else if m.CancelRequest? then CancelQueued(s.pending, m.target)
                      else if m.Call? && m.id.Some? && |s.pending| < MAX_PENDING then s.pending + [Queued(m.id.value, s.revision, false, s.server.docs)]
                      else s.pending)
    && s'.revision == (if Invalidates(s, m) then s.revision + 1 else s.revision)
    && (s.isShutdown ==> s.pending == [])
    && queue' == if |s'.pending| > |s.pending| then queue + [k] else if |s'.pending| < |s.pending| then [] else queue
  }

  lemma {:induction false} ReceiveQueue(states: seq<State>, events: seq<Event>, k: nat, queue: seq<nat>, queue': seq<nat>)
    requires k < |events| < |states| && QueueKnown(states, events, k, queue) && Hears(events[k])
    requires QueueMoves(states, events, k, queue, queue')
    ensures QueueKnown(states, events, k + 1, queue')
  {
    var s, m, s' := states[k], events[k].input.message, states[k + 1];
    if !(m.Shutdown? && !TurnedAway(s, m)) {
      forall i | 0 <= i < |queue|
        ensures i < |s'.pending| && Known(states, events, k + 1, queue[i], s'.pending[i].id, s'.pending[i].cancelled, s'.pending[i].revision)
      {
        ElementKnown(states, events, k, queue, queue', i);
      }
      hide Known, Invalidates, CancelQueued;
      if |s'.pending| > |s.pending| {
        RequestKind(s, m);
        ArrivesKnown(states, events, k, m.id.value);
      }
    }
  }

  lemma {:induction false} ElementKnown(states: seq<State>, events: seq<Event>, k: nat, queue: seq<nat>, queue': seq<nat>, i: nat)
    requires k < |events| < |states| && QueueKnown(states, events, k, queue) && Hears(events[k])
    requires QueueMoves(states, events, k, queue, queue') && i < |queue|
    requires !(events[k].input.message.Shutdown? && !TurnedAway(states[k], events[k].input.message))
    ensures i < |states[k + 1].pending|
    ensures var q := states[k + 1].pending[i]; Known(states, events, k + 1, queue[i], q.id, q.cancelled, q.revision)
  {
    var q, q' := states[k].pending[i], states[k + 1].pending[i];
    assert Known(states, events, k, queue[i], q.id, q.cancelled, q.revision);
    hide QueueKnown, Known, Invalidates;
    StaysKnown(states, events, k, queue[i], q.id, q.cancelled, q'.cancelled, q.revision);
  }

  lemma {:induction false} RequestKind(s: State, m: Message)
    requires m.Call?
    ensures !Invalidates(s, m)
  {
  }

  lemma {:induction false} ReceiveActive(states: seq<State>, events: seq<Event>, k: nat, active: Option<nat>)
    requires k < |events| < |states| && ActiveKnown(states, events, k, active) && Hears(events[k]) && Settled(states[k])
    requires var s, m, s' := states[k], events[k].input.message, states[k + 1];
             && s'.active == (if TurnedAway(s, m) then s.active
                              else if m.Shutdown? then CancelWork(s.active)
                              else if m.CancelRequest? && s.active.Some? && s.active.value.id == Some(m.target) then CancelWork(s.active)
                              else s.active)
             && s'.revision == (if Invalidates(s, m) then s.revision + 1 else s.revision)
    ensures ActiveKnown(states, events, k + 1, active)
  {
    hide Known, Invalidates;
    if active.Some? {
      var w, w' := states[k].active.value, states[k + 1].active.value;
      StaysKnown(states, events, k, active.value, w.id.value, w.cancelled, w'.cancelled, w.revision);
    }
  }

  /** Input that is no message, and work that is not dispatched, change none of this. */
  lemma {:induction false} QuietKnown(states: seq<State>, events: seq<Event>, k: nat, t: Tickets, t': Tickets)
    requires k < |events| < |states| && AllKnown(states, events, k, t) && !Hears(events[k])
    requires states[k + 1].pending == states[k].pending && states[k + 1].revision == states[k].revision && t'.queue == t.queue
    requires (states[k + 1].active == states[k].active && t'.active == t.active) || (states[k + 1].active.None? && t'.active.None?)
    ensures AllKnown(states, events, k + 1, t')
  {
    hide Known;
    var pending := states[k].pending;
    forall i | 0 <= i < |t.queue| ensures Known(states, events, k + 1, t.queue[i], pending[i].id, pending[i].cancelled, pending[i].revision) {
      assert Known(states, events, k, t.queue[i], pending[i].id, pending[i].cancelled, pending[i].revision);
      StaysKnown(states, events, k, t.queue[i], pending[i].id, pending[i].cancelled, pending[i].cancelled, pending[i].revision);
    }
    if t'.active.Some? {
      var w := states[k].active.value;
      StaysKnown(states, events, k, t.active.value, w.id.value, w.cancelled, w.cancelled, w.revision);
    }
  }

  // -------------------------------------------------------------------------- dispatching ---

  /** The answer to a request that is taken off the queue without being worked on. */
  function PassedOver(q: Queued): Frame {
    Response(Some(q.id), Some(if q.cancelled then -32800 else -32801))
  }

  /** What dispatching takes off the queue: each request before the last one taken is cancelled or
      out of date and answered so; the last one is too, or is handed to the worker. */
  ghost predicate TakenOff(s: State, t: State, n: nat) {
    && n <= |s.pending| && t.pending == s.pending[n..] && t.revision == s.revision
    && var handed := t.active.Some?;
       var d := if handed && n > 0 then n - 1 else n;
       && (handed ==> n > 0 && !s.pending[d].cancelled && s.pending[d].revision == s.revision
                      && t.active.value.id == Some(s.pending[d].id) && !t.active.value.cancelled && t.active.value.revision == s.revision)
       && (forall i | 0 <= i < d :: s.pending[i].cancelled || s.pending[i].revision != s.revision)
       && |t.log| == |s.log| + d && t.log[..|s.log|] == s.log
       && (forall i | 0 <= i < d :: t.log[|s.log| + i] == PassedOver(s.pending[i]))
  }

  predicate BadHead(s: State) {
    s.pending != [] && (s.pending[0].cancelled || s.pending[0].revision != s.revision)
  }

  function Passed(s: State): State
    requires s.pending != []
  {
    PassOver(s, if s.pending[0].cancelled then -32800 else -32801)
  }

  lemma {:induction false} PassesHead(s: State)
    requires s.active.None? && BadHead(s)
    ensures Passed(s).active.None? && |Passed(s).pending| < |s.pending| && TakePending(s) == TakePending(Passed(s))
  {
    TakePendingIs(s);
    hide TakePending;
  }

  lemma {:induction false} TakePendingTakes(s: State)
    requires s.active.None?
    ensures |TakePending(s).pending| <= |s.pending| && TakenOff(s, TakePending(s), |s.pending| - |TakePending(s).pending|)
    decreases |s.pending|
  {
    if BadHead(s) {
      PassesHead(s);
      hide *;
      TakePendingTakes(Passed(s));
      TakenOne(s, Passed(s), TakePending(Passed(s)));
    } else {
      TakePendingIs(s);
      hide TakePending, TakenOff;
      TakenAtOnce(s, TakePending(s));
    }
  }

  lemma {:induction false} TakenAtOnce(s: State, t: State)
    requires s.active.None?
    requires s.pending == [] ==> t == s
    requires s.pending != [] ==>
      && !s.pending[0].cancelled && s.pending[0].revision == s.revision
      && t == s.(pending := s.pending[1..],
                 active := Some(Work(Some(s.pending[0].id), "", "", s.revision, false, s.server, s.pending[0].asked)))
    ensures |t.pending| <= |s.pending| && TakenOff(s, t, |s.pending| - |t.pending|)
  {
    assert s.log[..|s.log|] == s.log;
  }

  lemma {:induction false} TakenOne(s: State, p: State, t: State)
    requires s.active.None? && BadHead(s) && p == Passed(s)
    requires |t.pending| <= |p.pending| && TakenOff(p, t, |p.pending| - |t.pending|)
    ensures |t.pending| <= |s.pending| && TakenOff(s, t, |s.pending| - |t.pending|)
  {
    var n := |p.pending| - |t.pending|;
    var d := if t.active.Some? && n > 0 then n - 1 else n;
    assert forall i | 0 <= i < |p.pending| :: p.pending[i] == s.pending[i + 1];
    assert s.pending[n + 1..] == p.pending[n..];
    OneMore(s.log, p.log, t.log, PassedOver(s.pending[0]));
    forall i | 0 <= i < d + 1 ensures t.log[|s.log| + i] == PassedOver(s.pending[i]) {
      if i > 0 { assert t.log[|p.log| + (i - 1)] == PassedOver(p.pending[i - 1]); }
    }
  }

  lemma {:induction false} OneMore(a: seq<Frame>, b: seq<Frame>, c: seq<Frame>, f: Frame)
    requires b == a + [f] && |b| <= |c| && c[..|b|] == b
    ensures c[..|a|] == a && c[|a|] == f
  {
    assert c[..|b|][|a|] == f;
    assert c[..|a|] == c[..|b|][..|a|];
  }

  /** A dispatch as a whole. */
  lemma {:induction false} DispatchTakes(s: State)
    requires s.active.None?
    ensures var t := Dispatch(s);
            && |t.pending| <= |s.pending| && t.revision == s.revision
            && if t.active.Some? && t.active.value.id.Some? then TakenOff(s, t, |s.pending| - |t.pending|)
               else TakenOff(s, t.(active := None), |s.pending| - |t.pending|)
  {
    var p := TakePending(s);
    TakePendingTakes(s);
    TakeDirtyParts(p);
    hide TakePending, TakeDirty, Least;
  }

  lemma {:induction false} DispatchParts(s: State, s': State)
    requires s.active.None? && s' == Dispatch(s)
    ensures var n := |s.pending| - |s'.pending|;
            && 0 <= n && s'.revision == s.revision && s'.pending == s.pending[n..]
            && (s'.active.Some? && s'.active.value.id.Some? ==>
                  n > 0 && s'.active.value.id == Some(s.pending[n - 1].id) && s'.active.value.cancelled == s.pending[n - 1].cancelled
                  && s'.active.value.revision == s.pending[n - 1].revision)
  {
    DispatchTakes(s);
    hide Dispatch;
  }

  /** The i-th answer of a dispatch is for the i-th request in the queue. */
  lemma {:induction false} DispatchAnswers(s: State, s': State, i: nat)
    requires s.active.None? && s' == Dispatch(s) && |s.log| + i < |s'.log|
    ensures i < |s.pending| && s'.log[|s.log| + i] == PassedOver(s.pending[i])
    ensures s.pending[i].cancelled || s.pending[i].revision != s.revision
  {
    DispatchTakes(s);
    hide Dispatch, PassedOver;
  }

  lemma {:induction false} DispatchKnown(states: seq<State>, events: seq<Event>, k: nat, t: Tickets)
    requires k < |events| < |states| && AllKnown(states, events, k, t) && events[k].EDispatch? && states[k].active.None?
    requires states[k + 1] == Dispatch(states[k])
    ensures AllKnown(states, events, k + 1, Follow(t, states[k], events[k], states[k + 1], k))
  {
    var s, s' := states[k], states[k + 1];
    DispatchParts(s, s');
    var n := |s.pending| - |s'.pending|;
    hide Dispatch, Known;
    forall i | 0 <= i < |t.queue| ensures Known(states, events, k + 1, t.queue[i], s.pending[i].id, s.pending[i].cancelled, s.pending[i].revision) {
      assert Known(states, events, k, t.queue[i], s.pending[i].id, s.pending[i].cancelled, s.pending[i].revision);
      StaysKnown(states, events, k, t.queue[i], s.pending[i].id, s.pending[i].cancelled, s.pending[i].cancelled, s.pending[i].revision);
    }
    TailKnown(states, events, k, t.queue, n);
    OrderedNext(t, k, s, events[k], s');
    hide Ordered;
  }

  lemma {:induction false} TailKnown(states: seq<State>, events: seq<Event>, k: nat, queue: seq<nat>, n: nat)
    requires k < |events| < |states| && |queue| == |states[k].pending| && n <= |queue| && states[k + 1].pending == states[k].pending[n..]
    requires forall i | 0 <= i < |queue| ::
               var q := states[k].pending[i]; Known(states, events, k + 1, queue[i], q.id, q.cancelled, q.revision)
    ensures QueueKnown(states, events, k + 1, queue[n..])
  {
    hide Known;
    var tail := queue[n..];
    forall i | 0 <= i < |tail| ensures tail[i] == queue[n + i] && states[k + 1].pending[i] == states[k].pending[n + i] {}
  }

  // ------------------------------------------------------------------------- over a run ---

  /** One step, by kinds of event. */
  ghost predicate Took(s: State, e: Event, s': State) {
    match e
    case EDispatch => if s.active.Some? then s' == s else s' == Dispatch(s)
    case EReceive(input, fs, marks) =>
      if input.Received? then s' == Handle(s, input.message, fs, marks)
      else s' == Receive(s, input, fs, marks) && s'.pending == s.pending && s'.active == s.active && s'.revision == s.revision
    case EComplete(a, frames, published) =>
      && s.active.Some? && Fits(s.active.value, a) && Written(s, s.active.value, a, frames, published)
      && s' == Complete(s, a, frames, published) && s'.pending == s.pending && s'.active.None? && s'.revision == s.revision
  }

  lemma {:induction false} NextTook(s: State, e: Event)
    requires Enabled(s, e)
    ensures Took(s, e, Next(s, e))
  {
    NextIs(s, e);
    StepParts(s, e);
    hide Next, Enabled, Handle, Dispatch, Written, Fits, LogAfter, RetriesAfter, DirtyAfter, LastAfter;
  }

  lemma {:induction false} TicketsKnown(states: seq<State>, events: seq<Event>, k: nat)
    requires IsRun(states, events) && k < |states|
    ensures |states| == |events| + 1 && AllKnown(states, events, k, TicketsAt(states, events, k))
  {
    hide AllKnown, Follow;
    if k == 0 {
      FirstKnown(states, events);
    } else {
      RunTook(states, events, k - 1);
      hide IsRun;
      TicketsKnown(states, events, k - 1);
      TicketsNext(states, events, k - 1, TicketsAt(states, events, k - 1));
    }
  }

  lemma {:induction false} FirstKnown(states: seq<State>, events: seq<Event>)
    requires IsRun(states, events)
    ensures |states| == |events| + 1 && AllKnown(states, events, 0, TicketsAt(states, events, 0))
  {
    assert states[0] == Start();
    hide IsRun;
  }

  lemma {:induction false} RunTook(states: seq<State>, events: seq<Event>, k: nat)
    requires IsRun(states, events) && k < |events|
    ensures |states| == |events| + 1 && Took(states[k], events[k], states[k + 1]) && Settled(states[k])
  {
    RunInv(states, events, k);
    InvSettled(states[k]);
    assert Enabled(states[k], events[k]) && states[k + 1] == Next(states[k], events[k]);
    hide Inv, Next, Enabled, Settled, Took;
    NextTook(states[k], events[k]);
  }

  lemma {:induction false} TicketsNext(states: seq<State>, events: seq<Event>, k: nat, t: Tickets)
    requires k < |events| < |states| && AllKnown(states, events, k, t) && Settled(states[k]) && Took(states[k], events[k], states[k + 1])
    ensures AllKnown(states, events, k + 1, Follow(t, states[k], events[k], states[k + 1], k))
  {
    var s, e := states[k], events[k];
    hide Handle, Dispatch, AllKnown, Receive, Complete, Settled, Written, Fits;
    if Hears(e) {
      ReceiveKnown(states, events, k, t);
    } else if e.EDispatch? && s.active.None? {
      DispatchKnown(states, events, k, t);
    } else {
      QuietKnown(states, events, k, t, Follow(t, s, e, states[k + 1], k));
    }
  }

  lemma {:induction false} InvSettled(s: State)
    requires Inv(s)
    ensures Settled(s)
  {
  }

  // ------------------------------------------------------------------------------ answers ---

  /** The code of the answer to the request of step a when it is given at step k: cancelled if a
      cancel or a shutdown came in meanwhile, else out of date if a change did or the worker says
      so, else what the worker says; no code is a result. */
  ghost function FateCode(states: seq<State>, events: seq<Event>, k: nat, a: nat, id: Id): Option<int>
    requires k < |events|
  {
    if CancelledSince(events, a, k + 1, id) then Some(-32800)
    else if ChangedSince(states, events, a, k) then Some(-32801)
    else match events[k]
      case EComplete(Failed(Canceled), _, _) => Some(-32801)
      case EComplete(Failed(InputsChanged), _, _) => Some(-32801)
      case EComplete(Failed(f), _, _) => Some(CodeOf(f))
      case EComplete(Replied(code), _, _) => code
      case _ => None
  }

  /** At step k the frame f, the n-th sent, answers the request of step a, which stops waiting. */
  ghost predicate AnswersAt(states: seq<State>, events: seq<Event>, k: nat, a: nat, n: nat)
    requires k < |events| < |states|
  {
    var t := TicketsAt(states, events, k);
    && |states[k].log| <= n < |states[k + 1].log|
    && Waiting(t, a) && !Waiting(TicketsAt(states, events, k + 1), a)
    && if events[k].EComplete? then t.active == Some(a) && n == |states[k + 1].log| - 1
       else n - |states[k].log| < |t.queue| && t.queue[n - |states[k].log|] == a
  }

  /** The frame is the answer the messages call for. */
  ghost predicate FatedAt(states: seq<State>, events: seq<Event>, k: nat, a: nat, n: nat)
    requires k < |events| < |states| && n < |states[k + 1].log|
  {
    a <= k && exists id :: IsRequest(events, a, id) && states[k + 1].log[n] == Response(Some(id), FateCode(states, events, k, a, id))
  }

  /** Told by the record, told by the messages. */
  lemma {:induction false} QueuedFate(states: seq<State>, events: seq<Event>, k: nat, a: nat, q: Queued)
    requires k < |events| < |states| && Known(states, events, k, a, q.id, q.cancelled, q.revision) && !Hears(events[k]) && !events[k].EComplete?
    requires q.cancelled || q.revision != states[k].revision
    ensures a <= k && IsRequest(events, a, q.id) && PassedOver(q) == Response(Some(q.id), FateCode(states, events, k, a, q.id))
  {
    CancelledNext(events, a, k, q.id);
    hide CancelledSince, ChangedSince;
  }

  lemma {:induction false} ActiveFate(states: seq<State>, events: seq<Event>, k: nat, a: nat, w: Work)
    requires k < |events| < |states| && w.id.Some? && Known(states, events, k, a, w.id.value, w.cancelled, w.revision)
    requires events[k].EComplete? && Fits(w, events[k].answer) && w.root == ""
    ensures a <= k && IsRequest(events, a, w.id.value) && Code(states[k], w, events[k].answer) == FateCode(states, events, k, a, w.id.value)
  {
    CancelledNext(events, a, k, w.id.value);
    hide CancelledSince, ChangedSince;
  }

  lemma {:induction false} ShutFate(states: seq<State>, events: seq<Event>, k: nat, a: nat, id: Id)
    requires k < |events| < |states| && a < k && Hears(events[k]) && events[k].input.message.Shutdown?
    ensures FateCode(states, events, k, a, id) == Some(-32800)
  {
    assert Cancels(events[k], id);
    CancelledNext(events, a, k, id);
  }

  /** What a message makes the server send. */
  function Sent(s: State, m: Message): seq<Frame> {
    if TurnedAway(s, m) then (if m.id.Some? then [Response(m.id, Some(-32600))] else [])
    else if Invalidates(s, m) then (if m.DidClose? then [Publish(m.uri, None, [])] else [])
    else Said(s, m)
  }

  lemma {:induction false} HandleSends(s: State, m: Message, fs: Files, marks: map<Path, Uri>)
    ensures Handle(s, m, fs, marks).log == s.log + Sent(s, m)
  {
    HandleIs(s, m, fs, marks);
    hide Handle, HandleChange, HandleQuietly, Invalidates, Said;
    if TurnedAway(s, m) {
      assert !Invalidates(s, m);
    } else if Invalidates(s, m) {
      ChangeParts(s, m, fs, marks);
    } else {
      QuietlySaid(s, m);
    }
  }

  /** The answer to a message given at once: a result, or a refusal after shutdown or at a full queue. */
  predicate AtOnce(s: State, m: Message, f: Frame) {
    || (m.Initialize? && !s.isShutdown && f == Response(m.id, None))
    || (m.Shutdown? && f == Response(m.id, None))
    || (TurnedAway(s, m) && f == Response(m.id, Some(-32600)))
    || (m.Call? && !s.isShutdown && |s.pending| >= MAX_PENDING && f == Response(m.id, Some(-32000)))
  }

  /** Every response a message makes the server send answers the message at once, or, at a
      shutdown, a request in the queue. */
  lemma {:induction false} SentIs(s: State, m: Message, i: nat)
    requires i < |Sent(s, m)| && Sent(s, m)[i].Response?
    ensures AtOnce(s, m, Sent(s, m)[i])
         || (m.Shutdown? && i < |s.pending| && Sent(s, m)[i] == Response(Some(s.pending[i].id), Some(-32800)))
  {
    hide Invalidates;
    if !TurnedAway(s, m) && !Invalidates(s, m) && m.Shutdown? {
      assert i < |s.pending| ==> Sent(s, m)[i] == Shutting(s.pending)[i];
    }
  }

  lemma {:induction false} ShutSends(s: State, m: Message, i: nat)
    requires m.Shutdown? && i < |s.pending|
    ensures i < |Sent(s, m)| && Sent(s, m)[i] == Response(Some(s.pending[i].id), Some(-32800))
  {
    assert Sent(s, m)[i] == Shutting(s.pending)[i];
  }

  // ------------------------------------------------------------------------------ theorems ---

  /** The facts about one step of a run. */
  lemma {:induction false} RunStep(states: seq<State>, events: seq<Event>, k: nat)
    requires IsRun(states, events) && k < |events|
    ensures k + 1 < |states| && Took(states[k], events[k], states[k + 1]) && Settled(states[k])
    ensures AllKnown(states, events, k, TicketsAt(states, events, k))
    ensures TicketsAt(states, events, k + 1) == Follow(TicketsAt(states, events, k), states[k], events[k], states[k + 1], k)
  {
    RunTook(states, events, k);
    TicketsKnown(states, events, k);
    hide IsRun, Settled, AllKnown, Took, Follow;
  }

  lemma {:induction false} QueueAt(states: seq<State>, events: seq<Event>, k: nat, t: Tickets, i: nat)
    requires k < |states| && AllKnown(states, events, k, t) && i < |states[k].pending|
    ensures i < |t.queue| && var q := states[k].pending[i]; Known(states, events, k, t.queue[i], q.id, q.cancelled, q.revision)
  {
    hide Known;
  }

  lemma {:induction false} AnswersIndex(states: seq<State>, events: seq<Event>, k: nat, a: nat, n: nat)
    requires k < |events| < |states| && AnswersAt(states, events, k, a, n)
    ensures |states[k].log| <= n < |states[k + 1].log|
    ensures Waiting(TicketsAt(states, events, k), a) && !Waiting(TicketsAt(states, events, k + 1), a)
    ensures if events[k].EComplete? then TicketsAt(states, events, k).active == Some(a) && n == |states[k + 1].log| - 1
            else n - |states[k].log| < |TicketsAt(states, events, k).queue| && TicketsAt(states, events, k).queue[n - |states[k].log|] == a
  {
  }

  lemma {:induction false} FatedBy(states: seq<State>, events: seq<Event>, k: nat, a: nat, n: nat, id: Id)
    requires k < |events| < |states| && n < |states[k + 1].log| && a <= k && IsRequest(events, a, id)
    requires states[k + 1].log[n] == Response(Some(id), FateCode(states, events, k, a, id))
    ensures FatedAt(states, events, k, a, n)
  {
  }

  /** Whenever a waiting request is answered, it is answered as the messages since its arrival
      and the worker's answer call for. */
  lemma {:induction false} Fated(states: seq<State>, events: seq<Event>, k: nat, a: nat, n: nat)
    requires IsRun(states, events) && k < |events| && AnswersAt(states, events, k, a, n)
    ensures FatedAt(states, events, k, a, n)
  {
    RunStep(states, events, k);
    hide *;
    match events[k] {
      case EDispatch => FatedDispatch(states, events, k, a, n);
      case EReceive(_, _, _) => FatedReceive(states, events, k, a, n);
      case EComplete(_, _, _) => FatedComplete(states, events, k, a, n);
    }
  }

  lemma {:induction false} FatedDispatch(states: seq<State>, events: seq<Event>, k: nat, a: nat, n: nat)
    requires k < |events| < |states| && events[k].EDispatch? && AnswersAt(states, events, k, a, n) && Settled(states[k])
    requires Took(states[k], events[k], states[k + 1]) && AllKnown(states, events, k, TicketsAt(states, events, k))
    requires TicketsAt(states, events, k + 1) == Follow(TicketsAt(states, events, k), states[k], events[k], states[k + 1], k)
    ensures FatedAt(states, events, k, a, n)
  {
    AnswersIndex(states, events, k, a, n);
    var s, t, i := states[k], TicketsAt(states, events, k), n - |states[k].log|;
    hide AnswersAt, AllKnown, TicketsAt, Waiting, Follow, Dispatch, FatedAt, FateCode, PassedOver, Known, Settled;
    DispatchAnswers(s, states[k + 1], i);
    QueueAt(states, events, k, t, i);
    QueuedFate(states, events, k, a, s.pending[i]);
    FatedBy(states, events, k, a, n, s.pending[i].id);
  }

  lemma {:induction false} FatedReceive(states: seq<State>, events: seq<Event>, k: nat, a: nat, n: nat)
    requires k < |events| < |states| && events[k].EReceive? && AnswersAt(states, events, k, a, n) && Settled(states[k])
    requires Took(states[k], events[k], states[k + 1]) && AllKnown(states, events, k, TicketsAt(states, events, k))
    requires TicketsAt(states, events, k + 1) == Follow(TicketsAt(states, events, k), states[k], events[k], states[k + 1], k)
    ensures FatedAt(states, events, k, a, n)
  {
    AnswersIndex(states, events, k, a, n);
    var s, t, i := states[k], TicketsAt(states, events, k), n - |states[k].log|;
    OnlyShutdown(states, events, k, a);
    hide AnswersAt, AllKnown, TicketsAt, Waiting, Follow, FatedAt, FateCode, Known, Settled, Handle, Took;
    QueueAt(states, events, k, t, i);
    var m := events[k].input.message;
    HandleSends(s, m, events[k].fs, events[k].marks);
    ShutSends(s, m, i);
    hide Sent;
    ShutFate(states, events, k, a, s.pending[i].id);
    KnownRequest(states, events, k, a, s.pending[i]);
    FatedBy(states, events, k, a, n, s.pending[i].id);
  }

  lemma {:induction false} KnownRequest(states: seq<State>, events: seq<Event>, k: nat, a: nat, q: Queued)
    requires k < |states| && Known(states, events, k, a, q.id, q.cancelled, q.revision)
    ensures a < k && IsRequest(events, a, q.id)
  {
  }

  /** The only message that takes requests off the queue is a shutdown. */
  lemma {:induction false} OnlyShutdown(states: seq<State>, events: seq<Event>, k: nat, a: nat)
    requires k < |events| < |states| && events[k].EReceive? && Settled(states[k])
    requires Waiting(TicketsAt(states, events, k), a) && !Waiting(TicketsAt(states, events, k + 1), a)
    requires Took(states[k], events[k], states[k + 1]) && AllKnown(states, events, k, TicketsAt(states, events, k))
    requires TicketsAt(states, events, k + 1) == Follow(TicketsAt(states, events, k), states[k], events[k], states[k + 1], k)
    ensures Hears(events[k]) && events[k].input.message.Shutdown? && |TicketsAt(states, events, k).queue| == |states[k].pending|
    ensures states[k + 1] == Handle(states[k], events[k].input.message, events[k].fs, events[k].marks) && states[k + 1].pending == []
    ensures a in TicketsAt(states, events, k).queue
  {
    var s, t := states[k], TicketsAt(states, events, k);
    if Hears(events[k]) {
      HandleParts(s, events[k].input.message, events[k].fs, events[k].marks);
    }
    hide TicketsAt, Handle, Known, Receive;
    assert a in t.queue ==> a in t.queue + [k];
  }

  lemma {:induction false} FatedComplete(states: seq<State>, events: seq<Event>, k: nat, a: nat, n: nat)
    requires k < |events| < |states| && events[k].EComplete? && AnswersAt(states, events, k, a, n) && Settled(states[k])
    requires Took(states[k], events[k], states[k + 1]) && AllKnown(states, events, k, TicketsAt(states, events, k))
    requires TicketsAt(states, events, k + 1) == Follow(TicketsAt(states, events, k), states[k], events[k], states[k + 1], k)
    ensures FatedAt(states, events, k, a, n)
  {
    AnswersIndex(states, events, k, a, n);
    hide AnswersAt, TicketsAt, Waiting, Follow, FatedAt, FateCode, Known, Written, Code, QueueKnown;
    ActiveFate(states, events, k, a, states[k].active.value);
    FatedBy(states, events, k, a, n, states[k].active.value.id.value);
  }

  /** A request that stops waiting is answered in that very step. */
  lemma {:induction false} StopsAnswered(states: seq<State>, events: seq<Event>, k: nat, a: nat) returns (n: nat)
    requires IsRun(states, events) && k < |events|
    requires Waiting(TicketsAt(states, events, k), a) && !Waiting(TicketsAt(states, events, k + 1), a)
    ensures AnswersAt(states, events, k, a, n)
  {
    RunStep(states, events, k);
    hide *;
    match events[k] {
      case EDispatch => n := StopsDispatch(states, events, k, a);
      case EReceive(_, _, _) => n := StopsReceive(states, events, k, a);
      case EComplete(_, _, _) => n := StopsComplete(states, events, k, a);
    }
  }

  lemma {:induction false} StopsDispatch(states: seq<State>, events: seq<Event>, k: nat, a: nat) returns (n: nat)
    requires k < |events| < |states| && events[k].EDispatch? && Settled(states[k])
    requires Waiting(TicketsAt(states, events, k), a) && !Waiting(TicketsAt(states, events, k + 1), a)
    requires Took(states[k], events[k], states[k + 1]) && AllKnown(states, events, k, TicketsAt(states, events, k))
    requires TicketsAt(states, events, k + 1) == Follow(TicketsAt(states, events, k), states[k], events[k], states[k + 1], k)
    ensures AnswersAt(states, events, k, a, n)
  {
    hide *;
    var s, s', t := states[k], states[k + 1], TicketsAt(states, events, k);
    DispatchCount(t, s, s', k);
    if s.active.None? {
      OnlyQueued(states, events, k, t, a);
      var i := LeftQueue(t, s, s', k, a);
      n := |s.log| + i;
      QueueAnswer(states, events, k, i, n);
    }
  }

  /** A dispatch that finds the worker busy does nothing; else it answers as many as it takes off
      the queue, but for the one it hands over. */
  lemma {:induction false} DispatchCount(t: Tickets, s: State, s': State, k: nat)
    requires Took(s, EDispatch, s')
    ensures s.active.Some? ==> Follow(t, s, EDispatch, s', k) == t
    ensures s.active.None? ==>
      && |s'.pending| <= |s.pending|
      && var d := |s.pending| - |s'.pending|; |s'.log| == |s.log| + if s'.active.Some? && s'.active.value.id.Some? && d > 0 then d - 1 else d
  {
    if s.active.None? {
      DispatchTakes(s);
      LogCount(s, s', |s.pending| - |s'.pending|);
      hide TakenOff, Dispatch;
    }
  }

  /** Where in the queue a request was that a dispatch answered. */
  lemma {:induction false} LeftQueue(t: Tickets, s: State, s': State, k: nat, a: nat) returns (i: nat)
    requires s.active.None? && |t.queue| == |s.pending| && |s'.pending| <= |s.pending| && a in t.queue
    requires !Waiting(Follow(t, s, EDispatch, s', k), a)
    ensures i < |t.queue| && t.queue[i] == a
    ensures var d := |s.pending| - |s'.pending|; i < if s'.active.Some? && s'.active.value.id.Some? && d > 0 then d - 1 else d
  {
    i := InHead(t.queue, |s.pending| - |s'.pending|, a);
  }

  lemma {:induction false} OnlyQueued(states: seq<State>, events: seq<Event>, k: nat, t: Tickets, a: nat)
    requires k < |states| && AllKnown(states, events, k, t) && states[k].active.None? && Waiting(t, a)
    ensures a in t.queue && |t.queue| == |states[k].pending|
  {
  }

  lemma {:induction false} InHead(queue: seq<nat>, d: nat, a: nat) returns (i: nat)
    requires d <= |queue| && a in queue && a !in queue[d..]
    ensures i < d && queue[i] == a
  {
    i :| i < |queue| && queue[i] == a;
    forall j | d <= j < |queue| ensures queue[j] in queue[d..] {
      assert queue[d..][j - d] == queue[j];
    }
  }

  lemma {:induction false} StopsReceive(states: seq<State>, events: seq<Event>, k: nat, a: nat) returns (n: nat)
    requires k < |events| < |states| && events[k].EReceive? && Settled(states[k])
    requires Waiting(TicketsAt(states, events, k), a) && !Waiting(TicketsAt(states, events, k + 1), a)
    requires Took(states[k], events[k], states[k + 1]) && AllKnown(states, events, k, TicketsAt(states, events, k))
    requires TicketsAt(states, events, k + 1) == Follow(TicketsAt(states, events, k), states[k], events[k], states[k + 1], k)
    ensures AnswersAt(states, events, k, a, n)
  {
    OnlyShutdown(states, events, k, a);
    var s, t, m := states[k], TicketsAt(states, events, k), events[k].input.message;
    hide TicketsAt, Handle, AllKnown, Follow, Took, Settled;
    var i :| 0 <= i < |t.queue| && t.queue[i] == a;
    HandleSends(s, m, events[k].fs, events[k].marks);
    ShutSends(s, m, i);
    hide Sent;
    n := |s.log| + i;
  }

  lemma {:induction false} StopsComplete(states: seq<State>, events: seq<Event>, k: nat, a: nat) returns (n: nat)
    requires k < |events| < |states| && events[k].EComplete? && Settled(states[k])
    requires Waiting(TicketsAt(states, events, k), a) && !Waiting(TicketsAt(states, events, k + 1), a)
    requires Took(states[k], events[k], states[k + 1]) && AllKnown(states, events, k, TicketsAt(states, events, k))
    requires TicketsAt(states, events, k + 1) == Follow(TicketsAt(states, events, k), states[k], events[k], states[k + 1], k)
    ensures AnswersAt(states, events, k, a, n)
  {
    hide Written, Code, TicketsAt, Known, Settled;
    n := |states[k + 1].log| - 1;
  }

  /** Every response with an id is the answer to the message just received, given at once, or the
      answer to a request that was waiting. */
  lemma {:induction false} EveryAnswer(states: seq<State>, events: seq<Event>, k: nat, n: nat)
    requires IsRun(states, events) && k < |events| && |states[k].log| <= n < |states[k + 1].log|
    requires states[k + 1].log[n].Response? && states[k + 1].log[n].id.Some?
    ensures (Hears(events[k]) && AtOnce(states[k], events[k].input.message, states[k + 1].log[n]))
         || exists a :: AnswersAt(states, events, k, a, n)
  {
    RunStep(states, events, k);
    hide *;
    match events[k] {
      case EDispatch => AnswerDispatch(states, events, k, n);
      case EReceive(_, _, _) => AnswerReceive(states, events, k, n);
      case EComplete(_, _, _) => AnswerComplete(states, events, k, n);
    }
  }

  lemma {:induction false} QueueAnswer(states: seq<State>, events: seq<Event>, k: nat, i: nat, n: nat)
    requires k < |events| < |states| && !events[k].EComplete? && n == |states[k].log| + i && n < |states[k + 1].log|
    requires i < |TicketsAt(states, events, k).queue|
    requires !Waiting(TicketsAt(states, events, k + 1), TicketsAt(states, events, k).queue[i])
    ensures AnswersAt(states, events, k, TicketsAt(states, events, k).queue[i], n)
  {
    hide TicketsAt;
  }

  lemma {:induction false} DispatchLeaves(states: seq<State>, events: seq<Event>, k: nat, t: Tickets, i: nat)
    requires k < |events| < |states| && AllKnown(states, events, k, t) && events[k].EDispatch? && states[k].active.None?
    requires |states[k + 1].pending| <= |states[k].pending|
    requires var s, s' := states[k], states[k + 1];
             i < |s.pending| - |s'.pending| - if s'.active.Some? && s'.active.value.id.Some? && |s.pending| > |s'.pending| then 1 else 0
    ensures i < |t.queue| && !Waiting(Follow(t, states[k], events[k], states[k + 1], k), t.queue[i])
  {
    hide Known;
    assert Ordered(t, k);
    HeadsLeave(t.queue, |states[k].pending| - |states[k + 1].pending|, i);
  }

  /** What left the head of the queue waits no more, the last one that was handed over aside. */
  lemma {:induction false} HeadsLeave(queue: seq<nat>, d: nat, i: nat)
    requires (forall j, l | 0 <= j < l < |queue| :: queue[j] < queue[l]) && i < d <= |queue|
    ensures queue[i] !in queue[d..] && (i < d - 1 ==> queue[i] != queue[d - 1])
  {
    assert forall j | 0 <= j < |queue[d..]| :: queue[d..][j] == queue[d + j];
  }

  lemma {:induction false} AnswerDispatch(states: seq<State>, events: seq<Event>, k: nat, n: nat)
    requires k < |events| < |states| && events[k].EDispatch? && Settled(states[k]) && |states[k].log| <= n < |states[k + 1].log|
    requires states[k + 1].log[n].Response? && states[k + 1].log[n].id.Some?
    requires Took(states[k], events[k], states[k + 1]) && AllKnown(states, events, k, TicketsAt(states, events, k))
    requires TicketsAt(states, events, k + 1) == Follow(TicketsAt(states, events, k), states[k], events[k], states[k + 1], k)
    ensures exists a :: AnswersAt(states, events, k, a, n)
  {
    hide Dispatch, TicketsAt, AllKnown, TakenOff, Follow, AnswersAt, Waiting;
    var s, s' := states[k], states[k + 1];
    if s.active.None? {
      DispatchTakes(s);
      var i, d := n - |s.log|, |s.pending| - |s'.pending|;
      LogCount(s, s', d);
      DispatchLeaves(states, events, k, TicketsAt(states, events, k), i);
      QueueAnswer(states, events, k, i, n);
      assert AnswersAt(states, events, k, TicketsAt(states, events, k).queue[i], n);
    }
  }

  /** As many answers as requests taken off, but for the one handed over. */
  lemma {:induction false} LogCount(s: State, t: State, d: nat)
    requires if t.active.Some? && t.active.value.id.Some? then TakenOff(s, t, d) else TakenOff(s, t.(active := None), d)
    ensures d <= |s.pending| && |t.log| == |s.log| + if t.active.Some? && t.active.value.id.Some? && d > 0 then d - 1 else d
  {
  }

  lemma {:induction false} AnswerReceive(states: seq<State>, events: seq<Event>, k: nat, n: nat)
    requires k < |events| < |states| && events[k].EReceive? && Settled(states[k]) && |states[k].log| <= n < |states[k + 1].log|
    requires states[k + 1].log[n].Response? && states[k + 1].log[n].id.Some?
    requires Took(states[k], events[k], states[k + 1]) && AllKnown(states, events, k, TicketsAt(states, events, k))
    requires TicketsAt(states, events, k + 1) == Follow(TicketsAt(states, events, k), states[k], events[k], states[k + 1], k)
    ensures (Hears(events[k]) && AtOnce(states[k], events[k].input.message, states[k + 1].log[n]))
         || exists a :: AnswersAt(states, events, k, a, n)
  {
    var s := states[k];
    hide TicketsAt, Handle, AllKnown, AnswersAt, Waiting, Follow, Settled, Receive;
    if Hears(events[k]) {
      var m, i := events[k].input.message, n - |s.log|;
      HandleSends(s, m, events[k].fs, events[k].marks);
      SentIs(s, m, i);
      hide Sent, AtOnce;
      if m.Shutdown? && i < |s.pending| {
        HandleParts(s, m, events[k].fs, events[k].marks);
        QueueLeaves(states, events, k, TicketsAt(states, events, k), i);
        QueueAnswer(states, events, k, i, n);
        assert AnswersAt(states, events, k, TicketsAt(states, events, k).queue[i], n);
      }
    } else {
      QuietSends(s, events[k].input, events[k].fs, events[k].marks);
    }
  }

  lemma {:induction false} QuietSends(s: State, input: Input, fs: Files, marks: map<Path, Uri>)
    requires !input.Received?
    ensures Receive(s, input, fs, marks).log
         == s.log + match input case BadBody(code) => [Response(None, Some(code))] case BadFrame => [Response(None, Some(-32600))] case _ => []
  {
    assert s.log + [] == s.log;
  }

  lemma {:induction false} QueueLeaves(states: seq<State>, events: seq<Event>, k: nat, t: Tickets, i: nat)
    requires k < |events| < |states| && AllKnown(states, events, k, t) && i < |states[k].pending| && events[k].EReceive? && states[k + 1].pending == []
    ensures i < |t.queue| && Waiting(t, t.queue[i]) && !Waiting(Follow(t, states[k], events[k], states[k + 1], k), t.queue[i])
  {
    hide Known;
  }

  lemma {:induction false} AnswerComplete(states: seq<State>, events: seq<Event>, k: nat, n: nat)
    requires k < |events| < |states| && events[k].EComplete? && Settled(states[k]) && |states[k].log| <= n < |states[k + 1].log|
    requires states[k + 1].log[n].Response? && states[k + 1].log[n].id.Some?
    requires Took(states[k], events[k], states[k + 1]) && AllKnown(states, events, k, TicketsAt(states, events, k))
    requires TicketsAt(states, events, k + 1) == Follow(TicketsAt(states, events, k), states[k], events[k], states[k + 1], k)
    ensures exists a :: AnswersAt(states, events, k, a, n)
  {
    var s, e, w, t := states[k], events[k], states[k].active.value, TicketsAt(states, events, k);
    WrittenAnswersNothing(s, e.answer, e.frames, e.published);
    hide Written, Code, TicketsAt, Known, Answered, Settled;
    if n < |s.log| + |e.frames| {
      NoResponse(e.frames, n - |s.log|);
      assert false;
    }
    assert AnswersAt(states, events, k, t.active.value, n);
  }

  lemma {:induction false} NoResponse(frames: seq<Frame>, i: nat)
    requires Answered(frames) == multiset{} && i < |frames|
    ensures !(frames[i].Response? && frames[i].id.Some?)
    decreases |frames|
  {
    if i < |frames| - 1 {
      NoResponse(frames[..|frames| - 1], i);
    }
  }

  // ---------------------------------------------------------------------- the whole log ---

  lemma {:induction false} DispatchGrows(s: State)
    requires s.active.None?
    ensures s.log <= Dispatch(s).log
  {
    DispatchTakes(s);
    hide Dispatch;
  }

  lemma {:induction false} LogGrows(s: State, e: Event, s': State)
    requires Took(s, e, s')
    ensures s.log <= s'.log
  {
    match e {
      case EDispatch =>
        if s.active.None? { DispatchGrows(s); }
        hide Dispatch;
      case EReceive(input, fs, marks) =>
        if input.Received? { HandleSends(s, input.message, fs, marks); } else { QuietSends(s, input, fs, marks); }
        hide Sent, Handle, Receive;
      case EComplete(_, _, _) =>
        hide Written, Fits, Code, RetriesAfter, DirtyAfter, LastAfter;
    }
  }

  /** The step that sent the n-th frame. */
  lemma {:induction false} SentAt(states: seq<State>, events: seq<Event>, k: nat, n: nat) returns (q: nat)
    requires IsRun(states, events) && k < |states| && n < |states[k].log|
    ensures q < k && |states[q].log| <= n < |states[q + 1].log| && states[q + 1].log[n] == states[k].log[n]
    decreases k
  {
    hide Next, Enabled, Took;
    if k > 0 {
      assert Enabled(states[k - 1], events[k - 1]) && states[k] == Next(states[k - 1], events[k - 1]);
      NextTook(states[k - 1], events[k - 1]);
      LogGrows(states[k - 1], events[k - 1], states[k]);
      if n < |states[k - 1].log| {
        q := SentAt(states, events, k - 1, n);
      } else {
        q := k - 1;
      }
    }
  }

  /** Every response with an id that a run has sent: the answer to a message, given at once, or
      the answer to a waiting request, and then the one that the messages call for. */
  lemma {:induction false} EveryResponse(states: seq<State>, events: seq<Event>, k: nat, n: nat) returns (q: nat)
    requires IsRun(states, events) && k < |states| && n < |states[k].log|
    requires states[k].log[n].Response? && states[k].log[n].id.Some?
    ensures q < k && |states[q].log| <= n < |states[q + 1].log| && states[q + 1].log[n] == states[k].log[n]
    ensures (Hears(events[q]) && AtOnce(states[q], events[q].input.message, states[k].log[n]))
         || exists a :: AnswersAt(states, events, q, a, n) && FatedAt(states, events, q, a, n)
  {
    q := SentAt(states, events, k, n);
    EveryAnswer(states, events, q, n);
    hide AtOnce, AnswersAt, FatedAt, IsRun;
    if a :| AnswersAt(states, events, q, a, n) {
      Fated(states, events, q, a, n);
    }
  }

  /** A request that is let in joins the queue. */
  lemma {:induction false} Joins(states: seq<State>, events: seq<Event>, a: nat, id: Id)
    requires IsRun(states, events) && IsRequest(events, a, id) && !states[a].isShutdown && |states[a].pending| < MAX_PENDING
    ensures a + 1 < |states| && Waiting(TicketsAt(states, events, a + 1), a)
  {
    RunStep(states, events, a);
    StepParts(states[a], events[a]);
    HandleParts(states[a], events[a].input.message, events[a].fs, events[a].marks);
    hide Handle, Next, Enabled, IsRun, AllKnown, Settled;
    var t := TicketsAt(states, events, a);
    assert (t.queue + [a])[|t.queue|] == a;
  }

  /** A request that has waited and waits no more was answered in between. */
  lemma {:induction false} WasAnswered(states: seq<State>, events: seq<Event>, a: nat, j: nat, k: nat) returns (q: nat, n: nat)
    requires IsRun(states, events) && j <= k < |states|
    requires Waiting(TicketsAt(states, events, j), a) && !Waiting(TicketsAt(states, events, k), a)
    ensures j <= q < k && AnswersAt(states, events, q, a, n)
    decreases k - j
  {
    RunLength(states, events);
    hide IsRun, AnswersAt, Waiting, TicketsAt;
    assert j < k;
    if Waiting(TicketsAt(states, events, k - 1), a) {
      q := k - 1;
      n := StopsAnswered(states, events, k - 1, a);
    } else {
      q, n := WasAnswered(states, events, a, j, k - 1);
    }
  }

  lemma {:induction false} RunLength(states: seq<State>, events: seq<Event>)
    requires IsRun(states, events)
    ensures |states| == |events| + 1
  {
  }

  /** When nothing is left to do and the client did not exit, no request waits. */
  lemma {:induction false} NoneWaits(states: seq<State>, events: seq<Event>, k: nat, a: nat)
    requires IsRun(states, events) && k < |states| && Finished(states[k]) && !states[k].exited
    ensures !Waiting(TicketsAt(states, events, k), a)
  {
    TicketsKnown(states, events, k);
    hide Known, TicketsAt;
  }

  /** A request is cancelled: whenever a cancel of its id, or a shutdown, comes in while it waits,
      its answer says so. */
  lemma {:induction false} CancelIsAnswered(states: seq<State>, events: seq<Event>, a: nat, id: Id, j: nat, k: nat, n: nat)
    requires IsRun(states, events) && IsRequest(events, a, id) && a < j <= k < |events|
    requires Cancels(events[j], id) && AnswersAt(states, events, k, a, n)
    ensures states[k + 1].log[n] == Response(Some(id), Some(-32800))
  {
    Fated(states, events, k, a, n);
    assert CancelledSince(events, a, k + 1, id);
    hide AnswersAt, IsRun, CancelledSince, ChangedSince;
  }

  /** The worker itself gives this code. */
  predicate WorkerSays(e: Event, code: Option<int>) {
    e.EComplete? && match e.answer
      case Failed(f) => f != Canceled && f != InputsChanged && code == Some(CodeOf(f))
      case Replied(c) => code == c
      case Analysed(_, _) => false
  }

  /** And only then: a waiting request is answered as cancelled only if such a message came in
      since it arrived, or the worker gave that very code; as out of date only if no such message
      did, and a change did or the worker found its inputs changed; with a result or any other code
      only if neither came in, and it is the worker's. */
  lemma {:induction false} AnsweredForAReason(states: seq<State>, events: seq<Event>, a: nat, id: Id, k: nat, n: nat)
    requires IsRun(states, events) && IsRequest(events, a, id) && k < |events| && AnswersAt(states, events, k, a, n)
    ensures var f := states[k + 1].log[n];
            var cancelled, changed := CancelledSince(events, a, k + 1, id), ChangedSince(states, events, a, k);
            var late := events[k].EComplete? && (events[k].answer == Failed(Canceled) || events[k].answer == Failed(InputsChanged));
            && f.Response? && f.id == Some(id)
            && (f.code == Some(-32800) <==> cancelled || (!changed && !late && WorkerSays(events[k], Some(-32800))))
            && (f.code == Some(-32801) <==> !cancelled && (changed || late || WorkerSays(events[k], Some(-32801))))
            && (f.code != Some(-32800) && f.code != Some(-32801) <==>
                  !cancelled && !changed && !late && WorkerSays(events[k], f.code) && !WorkerSays(events[k], Some(-32800)) && !WorkerSays(events[k], Some(-32801)))
  {
    Fated(states, events, k, a, n);
    WorkerAnswers(states, events, k, a, n);
    hide AnswersAt, IsRun, CancelledSince, ChangedSince;
  }

  /** A request that is neither cancelled nor out of date is answered by the worker. */
  lemma {:induction false} WorkerAnswers(states: seq<State>, events: seq<Event>, k: nat, a: nat, n: nat)
    requires IsRun(states, events) && k < |events| && AnswersAt(states, events, k, a, n)
    ensures events[k].EComplete? ==> events[k].answer.Failed? || events[k].answer.Replied?
    ensures forall id | IsRequest(events, a, id) :: events[k].EComplete? || CancelledSince(events, a, k + 1, id) || ChangedSince(states, events, a, k)
  {
    RunStep(states, events, k);
    hide *;
    match events[k] {
      case EDispatch => DispatchReason(states, events, k, a, n);
      case EReceive(_, _, _) => ReceiveReason(states, events, k, a, n);
      case EComplete(_, _, _) => CompleteReason(states, events, k, a, n);
    }
  }

  lemma {:induction false} CompleteReason(states: seq<State>, events: seq<Event>, k: nat, a: nat, n: nat)
    requires k < |events| < |states| && events[k].EComplete? && AnswersAt(states, events, k, a, n) && Settled(states[k])
    requires Took(states[k], events[k], states[k + 1]) && AllKnown(states, events, k, TicketsAt(states, events, k))
    requires TicketsAt(states, events, k + 1) == Follow(TicketsAt(states, events, k), states[k], events[k], states[k + 1], k)
    ensures events[k].answer.Failed? || events[k].answer.Replied?
  {
    AnswersIndex(states, events, k, a, n);
    hide AnswersAt, TicketsAt, Waiting, Follow, Known, Written, Code, QueueKnown;
  }

  lemma {:induction false} DispatchReason(states: seq<State>, events: seq<Event>, k: nat, a: nat, n: nat)
    requires k < |events| < |states| && events[k].EDispatch? && AnswersAt(states, events, k, a, n) && Settled(states[k])
    requires Took(states[k], events[k], states[k + 1]) && AllKnown(states, events, k, TicketsAt(states, events, k))
    requires TicketsAt(states, events, k + 1) == Follow(TicketsAt(states, events, k), states[k], events[k], states[k + 1], k)
    ensures forall id | IsRequest(events, a, id) :: CancelledSince(events, a, k + 1, id) || ChangedSince(states, events, a, k)
  {
    AnswersIndex(states, events, k, a, n);
    var s, t, i := states[k], TicketsAt(states, events, k), n - |states[k].log|;
    hide AnswersAt, AllKnown, TicketsAt, Waiting, Follow, Dispatch, PassedOver, Settled;
    DispatchAnswers(s, states[k + 1], i);
    QueueAt(states, events, k, t, i);
    CancelledNext(events, a, k, s.pending[i].id);
    hide CancelledSince, ChangedSince;
  }

  lemma {:induction false} ReceiveReason(states: seq<State>, events: seq<Event>, k: nat, a: nat, n: nat)
    requires k < |events| < |states| && events[k].EReceive? && AnswersAt(states, events, k, a, n) && Settled(states[k])
    requires Took(states[k], events[k], states[k + 1]) && AllKnown(states, events, k, TicketsAt(states, events, k))
    requires TicketsAt(states, events, k + 1) == Follow(TicketsAt(states, events, k), states[k], events[k], states[k + 1], k)
    ensures forall id | IsRequest(events, a, id) :: CancelledSince(events, a, k + 1, id)
  {
    AnswersIndex(states, events, k, a, n);
    OnlyShutdown(states, events, k, a);
    var s, t, i := states[k], TicketsAt(states, events, k), n - |states[k].log|;
    QueueAt(states, events, k, t, i);
    hide AnswersAt, AllKnown, TicketsAt, Waiting, Follow, Settled, Took;
    assert Cancels(events[k], s.pending[i].id);
    CancelledNext(events, a, k, s.pending[i].id);
  }
}
