/** What every configuration of the connection machine keeps, in the middle of a dispatch and
    between the calls of its users. */
module ConnectionInvariant {
  import opened ConnectionTypes
  import S = ConnectionSpec
  import opened ConnectionTable

  // ----- the events that only make sense in one state -----

  predicate IsToken(kind: EventType) {
    kind == InitializeEvent || kind == ReInitializeEvent || kind == ErrorDisconnectEvent
  }

  function Tokens(es: seq<StmEvent>): seq<EventType> {
    if es == [] then []
    else (if IsToken(es[0].kind) then [es[0].kind] else []) + Tokens(es[1..])
  }

  lemma {:induction false} TokensConcat(a: seq<StmEvent>, b: seq<StmEvent>)
    ensures Tokens(a + b) == Tokens(a) + Tokens(b)
  {
    if a == [] {
      assert a + b == b;
    } else {
      TokensConcat(a[1..], b);
      assert (a + b)[0] == a[0] && (a + b)[1..] == a[1..] + b;
      var head := if IsToken(a[0].kind) then [a[0].kind] else [];
      assert Tokens(a + b) == head + (Tokens(a[1..]) + Tokens(b));
      assert head + (Tokens(a[1..]) + Tokens(b)) == (head + Tokens(a[1..])) + Tokens(b);
    }
  }

  lemma {:induction false} TokensAppend(a: seq<StmEvent>, e: StmEvent)
    ensures Tokens(a + [e]) == Tokens(a) + if IsToken(e.kind) then [e.kind] else []
  {
    assert [e][1..] == [];
    TokensConcat(a, [e]);
  }

  /** Which tokens can be queued in a state. In Initial an Initialize event is always last in line,
      behind at most one leftover of an Error state that a late timer event cut short. */
  predicate TokensFit(s: StateId, initialized: bool, tokens: seq<EventType>) {
    match s
    case InitialState =>
      || tokens == [InitializeEvent]
      || tokens == [ErrorDisconnectEvent, InitializeEvent]
      || tokens == [ReInitializeEvent, InitializeEvent]
    case ErrorState =>
      if initialized then tokens == [ErrorDisconnectEvent] || tokens == [ReInitializeEvent] else tokens == []
    case DeepSleepState => tokens == [] || tokens == [ReInitializeEvent]
    case _ => tokens == []
  }

  predicate HasTimer(es: seq<StmEvent>) {
    exists i :: 0 <= i < |es| && es[i].kind == TimerEvent
  }

  predicate TimerOnlyLast(es: seq<StmEvent>) {
    forall i :: 0 <= i < |es| - 1 ==> es[i].kind != TimerEvent
  }

  /** The states in which the client may rely on an initialized modem. */
  predicate Working(s: StateId) {
    s.DisconnectedState? || s.DisconnectedSleepState? || s.WaitForAttachState? || s.WaitForConnectState?
    || s.ConnectedState? || s.ConnectedSleepState? || s.ConnectedAwakeState?
  }

  /** The states that a timer event leads out of. */
  predicate Waiting(s: StateId, initialized: bool) {
    s.InitialState? || s.WaitForAttachState? || s.WaitForConnectState? || s.ConnectedAwakeState?
    || (s.ErrorState? && !initialized)
  }

  // ----- the history -----

  function Bump(n: nat, s: Step): nat {
    match s
    case Fired(IsAttachedError) => n + 1
    case Fired(IsAttachedIpConnect) => 0
    case Rebooted(ErrorState) => 0
    case _ => n
  }

  /** Attach timeouts since the last successful attach or reboot out of the Error state. */
  function TimeoutsSinceReset(log: seq<Step>): nat {
    if log == [] then 0 else Bump(TimeoutsSinceReset(log[..|log| - 1]), log[|log| - 1])
  }

  predicate GoodStep(before: seq<Step>, s: Step) {
    match s
    case Rebooted(at) => at == ErrorState ==> TimeoutsSinceReset(before) == S.RESTART_MODEM_THRESHOLD
    case EventDone(kind, _, at, initialized, result) =>
      && (result == Handled || result == Ignored)
      && (kind == InitializeEvent ==> at == InitialState)
      && !(kind == ErrorDisconnectEvent && at == ErrorState && !initialized)
    case _ => true
  }

  predicate GoodHistory(log: seq<Step>) {
    log == [] || (GoodHistory(log[..|log| - 1]) && GoodStep(log[..|log| - 1], log[|log| - 1]))
  }

  lemma {:induction false} HistoryGrows(log: seq<Step>, s: Step)
    requires GoodHistory(log) && GoodStep(log, s)
    ensures GoodHistory(log + [s])
    ensures TimeoutsSinceReset(log + [s]) == Bump(TimeoutsSinceReset(log), s)
  {
    assert (log + [s])[..|log|] == log;
  }

  /** Every step of a good history is good after the steps before it. */
  lemma {:induction false} HistoryAt(log: seq<Step>, i: nat)
    requires GoodHistory(log) && i < |log|
    ensures GoodStep(log[..i], log[i])
  {
    if i < |log| - 1 {
      HistoryAt(log[..|log| - 1], i);
      assert log[..|log| - 1][..i] == log[..i];
    }
  }

  predicate Counted(c: S.Config) {
    GoodHistory(c.log) && c.restarts == TimeoutsSinceReset(c.log)
  }

  // ----- the invariant -----

  /** Holds after the start, at every moment. */
  predicate Settled(c: S.Config) {
    && c.state != InvalidState
    && (Working(c.state) ==> c.initialized)
    && (c.timer.Armed() ==> Waiting(c.state, c.initialized))
    && TokensFit(c.state, c.initialized, Tokens(c.events + c.pending))
    && !HasTimer(c.pending)
    && (c.state == DeepSleepState ==> Tokens(c.pending) == [])
    && Counted(c) && c.restarts < S.RESTART_MODEM_THRESHOLD
    && c.eventId <= S.MAX_INT
  }

  /** Ready for a dispatch: no timer event is queued, every token is in line for it. */
  predicate Ready(c: S.Config) {
    Settled(c) && !HasTimer(c.events) && Tokens(c.pending) == []
  }

  /** Between two calls, besides, nothing is queued that wakes a sleeping modem. */
  predicate Stable(c: S.Config) {
    Ready(c) && (c.state == DeepSleepState ==> Tokens(c.events) == [])
  }

  /** While the queue is drained: a timer event is the last one, and where it could be mistaken for
      another state's timeout no token is queued before it. */
  predicate Draining(c: S.Config) {
    Settled(c) && TimerPlaced(c.state, c.events)
  }

  predicate TimerPlaced(s: StateId, events: seq<StmEvent>) {
    && TimerOnlyLast(events)
    && (HasTimer(events) && (s == ErrorState || s == DeepSleepState) ==> Tokens(events) == [])
    && (HasTimer(events) && s == InitialState ==> InitializeEvent in Tokens(events))
  }

  // ----- what the table says about tokens, timeouts and initialization -----

  predicate RowFacts(s: StateId, kind: EventType, initialized: bool, m: Move) {
    match m
    case Stay =>
      && !(s == InitialState && kind == InitializeEvent)
      && !(s == ErrorState && (kind == ErrorDisconnectEvent || kind == ReInitializeEvent || kind == TimerEvent))
      && !(s == DeepSleepState && kind == ReInitializeEvent)
      && !(Waiting(s, initialized) && kind == TimerEvent)
    case Go(path, _, to) =>
      && |path| <= 3
      && (IsAttachedError in path ==> path == [IsAttachedError] && s == WaitForAttachState && to == ErrorState)
      && to != InvalidState
      && (to == InitialState ==>
          || (s == ErrorState && (kind == ReInitializeEvent || kind == TimerEvent))
          || (s == DeepSleepState && kind == ReInitializeEvent))
      && (to == DeepSleepState ==> (s == ConnectedState || s == DisconnectedState) && kind == HibernateEvent)
      && (to == ErrorState ==>
          || (s == InitialState && !initialized && (kind == InitializeEvent || kind == TimerEvent))
          || (Working(s) && !IsToken(kind)))
      && (Working(to) ==>
          || (Working(s) && !IsToken(kind))
          || (s == InitialState && initialized && (kind == InitializeEvent || kind == TimerEvent))
          || (s == ErrorState && kind == ErrorDisconnectEvent))
  }

  lemma {:induction false} NextHasFacts(s: StateId, kind: EventType, initialized: bool, first: bool, second: bool)
    ensures RowFacts(s, kind, initialized, Next(s, kind, initialized, first, second))
  {
  }

  // ----- firing -----

  lemma {:induction false} ActionKeeps(c: S.Config, t: TransitionId)
    requires c.restarts < S.RESTART_MODEM_THRESHOLD
    ensures
      var r := S.TransitionAction(t, c);
      && r.restarts == Bump(c.restarts, Fired(t)) && r == c.(errno := r.errno, restarts := r.restarts)
  {
  }

  lemma {:induction false} FireKeeps(c: S.Config, t: TransitionId)
    requires Counted(c) && c.restarts < S.RESTART_MODEM_THRESHOLD
    ensures
      var r := S.Fire(t, c);
      && Counted(r) && r.restarts <= c.restarts + 1
      && (t != IsAttachedError ==> r.restarts <= c.restarts)
      && r == c.(errno := r.errno, restarts := r.restarts, log := r.log)
  {
    ActionKeeps(c, t);
    HistoryGrows(c.log, Fired(t));
  }

  lemma {:induction false} FireAllKeeps(c: S.Config, path: seq<TransitionId>)
    requires Counted(c) && c.restarts < S.RESTART_MODEM_THRESHOLD
    requires IsAttachedError in path ==> path == [IsAttachedError]
    ensures
      var r := FireAll(c, path);
      && Counted(r) && r.restarts <= S.RESTART_MODEM_THRESHOLD
      && (IsAttachedError !in path ==> r.restarts < S.RESTART_MODEM_THRESHOLD)
      && r == c.(errno := r.errno, restarts := r.restarts, log := r.log)
    decreases |path|
  {
    if path != [] {
      FireKeeps(c, path[0]);
      if path[0] == IsAttachedError {
        FireOne(c, IsAttachedError);
      } else {
        FireAllKeeps(S.Fire(path[0], c), path[1..]);
      }
    }
  }

  // ----- entering -----

  function PostsOf(s: StateId, kind: EventType, c: S.Config): seq<EventType> {
    match s
    case InitialState => if kind == ReInitializeEvent || kind == TimerEvent then [InitializeEvent] else []
    case ErrorState =>
      if !c.initialized then []
      else if S.RESTART_MODEM_THRESHOLD <= c.restarts then [ReInitializeEvent]
      else [ErrorDisconnectEvent]
    case _ => []
  }

  function PendingAfter(pending: seq<StmEvent>, posts: seq<EventType>): seq<StmEvent> {
    if posts == [] then pending else pending + [S.NewEvent(posts[0])]
  }

  lemma {:induction false} ArriveKeeps(w: World, c: S.Config, s: StateId)
    requires Counted(c)
    ensures
      var r := S.Arrive(c, s);
      && Counted(r) && !r.timer.Armed()
      && r == c.(state := s, timer := r.timer, log := r.log)
  {
    HistoryGrows(c.log, Entered(s));
  }

  lemma {:induction false} BringUpRecords(w: World, c: S.Config, again: bool)
    ensures
      var r := S.BringUp(w, c, again).1;
      && r.log == (if again then c.log else c.log + [Rebooted(InitialState)])
      && r == c.(hasLogin := r.hasLogin, asked := r.asked, log := r.log)
  {
  }

  lemma {:induction false} BringUpKeeps(w: World, c: S.Config, again: bool)
    requires Counted(c)
    ensures
      var r := S.BringUp(w, c, again).1;
      Counted(r) && r == c.(hasLogin := r.hasLogin, asked := r.asked, log := r.log)
  {
    BringUpRecords(w, c, again);
    HistoryGrows(c.log, Rebooted(InitialState));
  }

  lemma {:induction false} PostKeeps(c: S.Config, kind: EventType)
    requires Counted(c)
    ensures Counted(S.Post(c, kind))
  {
    HistoryGrows(c.log, Posted(kind));
  }

  lemma {:induction false} RebootKeeps(c: S.Config)
    requires Counted(c) && c.restarts == S.RESTART_MODEM_THRESHOLD
    ensures Counted(S.Record(c.(restarts := 0), Rebooted(ErrorState)))
  {
    HistoryGrows(c.log, Rebooted(ErrorState));
  }

  ghost predicate EntryDone(c: S.Config, s: StateId, kind: EventType, r: S.Config) {
    && Counted(r) && r.restarts < S.RESTART_MODEM_THRESHOLD
    && (r.timer.Armed() ==> Waiting(s, r.initialized))
    && r.pending == PendingAfter(c.pending, PostsOf(s, kind, c))
    && r.state == s && r.events == c.events && r.eventId == c.eventId
    && (s != InitialState && s != DeepSleepState ==> r.initialized == c.initialized)
  }

  lemma {:induction false} InitialEntryDone(w: World, c: S.Config, kind: EventType)
    requires Counted(c) && c.restarts < S.RESTART_MODEM_THRESHOLD
    requires c.state == InitialState && !c.timer.Armed()
    ensures EntryDone(c, InitialState, kind, S.InitialEntry(w, c, kind))
  {
    var again := kind == ReInitializeEvent || kind == TimerEvent;
    BringUpKeeps(w, c, again);
    var (ok, c1) := S.BringUp(w, c, again);
    PostKeeps(c1, InitializeEvent);
    var c2 := (if again then S.Post(c1, InitializeEvent) else c1).(initialized := ok);
  }

  lemma {:induction false} ErrorEntryDone(w: World, c: S.Config, kind: EventType)
    requires Counted(c) && c.restarts <= S.RESTART_MODEM_THRESHOLD
    requires c.restarts == S.RESTART_MODEM_THRESHOLD ==> c.initialized
    requires c.state == ErrorState && !c.timer.Armed()
    ensures EntryDone(c, ErrorState, kind, S.ErrorEntry(w, c))
  {
    if !c.initialized {
    } else if S.RESTART_MODEM_THRESHOLD <= c.restarts {
      RebootKeeps(c);
      var c1 := S.Record(c.(restarts := 0), Rebooted(ErrorState));
      PostKeeps(c1, ReInitializeEvent);
    } else {
      PostKeeps(c, ErrorDisconnectEvent);
    }
  }

  lemma {:induction false} EntryActionDone(w: World, c: S.Config, s: StateId, kind: EventType)
    requires Counted(c) && s != InvalidState && c.state == s && !c.timer.Armed()
    requires c.restarts <= S.RESTART_MODEM_THRESHOLD
    requires c.restarts == S.RESTART_MODEM_THRESHOLD ==> s == ErrorState && c.initialized
    ensures EntryDone(c, s, kind, S.EntryAction(w, c, s, kind))
  {
    match s
    case InitialState => InitialEntryDone(w, c, kind);
    case ErrorState => ErrorEntryDone(w, c, kind);
    case _ =>
  }

  lemma {:induction false} EnterDone(w: World, c: S.Config, s: StateId, kind: EventType)
    requires Counted(c) && s != InvalidState
    requires c.restarts <= S.RESTART_MODEM_THRESHOLD
    requires c.restarts == S.RESTART_MODEM_THRESHOLD ==> s == ErrorState && c.initialized
    ensures EntryDone(c, s, kind, S.Enter(w, c, s, kind))
  {
    ArriveKeeps(w, c, s);
    var c1 := S.Arrive(c, s);
    EntryActionDone(w, c1, s, kind);
    assert PostsOf(s, kind, c) == PostsOf(s, kind, c1);
  }
}
