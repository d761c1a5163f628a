/** Where the connection machine is after its start and after each call of a client: state by state. */
module ConnectionOutcomes {
  import opened ConnectionTypes
  import opened Timers
  import S = ConnectionSpec
  import opened ConnectionTable
  import opened ConnectionInvariant
  import opened ConnectionRuns
  import opened ConnectionSteps

  // ----- the calls of a client, on a machine with nothing queued -----

  /** Awake, the client takes no other event than those that end it; the second may run out meanwhile. */
  predicate StaysAwake(w: World, c: S.Config, looks: nat, r: S.Config) {
    && Quiet(r) && r.initialized == c.initialized && r.asked == c.asked
    && r.state == if exists k :: 0 <= k < looks && LateAt(w, c, k) then ConnectedSleepState else ConnectedAwakeState
  }

  lemma {:induction false} AwakeRow(w: World, c: S.Config, kind: EventType)
    requires c.state == ConnectedAwakeState
    ensures kind != AwakeSleepEvent && kind != AwakeActiveEvent && kind != TimerEvent ==> NextOf(w, c, kind) == Stay
    ensures kind == AwakeSleepEvent ==> NextOf(w, c, kind) == Go([AwakeSleep], 0, ConnectedSleepState)
  {
  }

  lemma {:induction false} AsleepRow(w: World, c: S.Config, kind: EventType)
    requires c.state == ConnectedSleepState
    ensures kind != WakeupEvent && kind != ConnectedAwakeEvent ==> NextOf(w, c, kind) == Stay
    ensures kind == WakeupEvent ==> NextOf(w, c, kind) == Go([Wakeup], 0, ConnectedState)
  {
  }

  lemma {:induction false} AwakeIgnores(w: World, c: S.Config, kind: EventType, r: S.Config)
    requires Acyclic(NBIOT_GRAPH) && Stable(c) && Quiet(c) && c.state == ConnectedAwakeState
    requires kind != AwakeSleepEvent && kind != AwakeActiveEvent && kind != TimerEvent
    requires r == S.Send(NBIOT_GRAPH, w, c, kind)
    ensures StaysAwake(w, c, 1, r) && r.duration == c.duration
    ensures !Late(w, c) ==> r.timer == c.timer && (LateAt(w, r, 0) <==> LateAt(w, c, 1))
  {
    AwakeRow(w, c, kind);
    WaitingIgnores(w, c, kind, r);
    AwakeOnce(w, c, r);
    if !Late(w, c) {
      IgnoredLooks(w, c, kind, r);
      LateLater(w, c, r);
    }
  }

  lemma {:induction false} AwakeOnce(w: World, c: S.Config, r: S.Config)
    requires c.state == ConnectedAwakeState && c.initialized
    requires if Late(w, c) then TimesOut(w, c, r) else Remains(c, r)
    ensures StaysAwake(w, c, 1, r) && r.duration == c.duration
  {
    if Late(w, c) {
      assert LateAt(w, c, 0);
    }
  }

  lemma {:induction false} LateLater(w: World, c: S.Config, r: S.Config)
    requires r.timer == c.timer && r.ticks == c.ticks + if c.timer.Armed() then 1 else 0
    ensures LateAt(w, r, 0) <==> LateAt(w, c, 1)
  {
  }

  /** A second event is ignored too, awake or asleep by now. */
  lemma {:induction false} AwakeIgnoresTwo(w: World, c: S.Config, a: EventType, b: EventType, c1: S.Config, c2: S.Config,
                                           r: S.Config)
    requires Acyclic(NBIOT_GRAPH) && Stable(c) && Quiet(c) && c.state == ConnectedAwakeState
    requires a != AwakeSleepEvent && a != AwakeActiveEvent && a != TimerEvent
    requires b == DisconnectEvent || b == HibernateEvent || b == ConnectEvent
    requires c1 == S.Send(NBIOT_GRAPH, w, c, a) && Stable(c1)
    requires c2 == c1.(duration := c2.duration) && Stable(c2) && r == S.Send(NBIOT_GRAPH, w, c2, b)
    ensures StaysAwake(w, c, 2, r) && r.duration == c2.duration
  {
    AwakeIgnores(w, c, a, c1);
    AwakeOrAsleep(w, c, c1, c2);
    if Late(w, c) {
      AsleepIgnores(w, c2, b, r);
    } else {
      AwakeIgnores(w, c2, b, r);
    }
    AwakeTwice(w, c, c1, c2, r);
  }

  lemma {:induction false} AwakeOrAsleep(w: World, c: S.Config, c1: S.Config, c2: S.Config)
    requires StaysAwake(w, c, 1, c1) && c2 == c1.(duration := c2.duration)
    ensures Quiet(c2) && c2.state == if Late(w, c) then ConnectedSleepState else ConnectedAwakeState
  {
    if Late(w, c) {
      assert LateAt(w, c, 0);
    }
  }

  lemma {:induction false} AwakeTwice(w: World, c: S.Config, c1: S.Config, c2: S.Config, r: S.Config)
    requires StaysAwake(w, c, 1, c1) && c2 == c1.(duration := c2.duration)
    requires Late(w, c) ==> c2.state == ConnectedSleepState && Remains(c2, r)
    requires !Late(w, c) ==> StaysAwake(w, c2, 1, r) && (LateAt(w, c2, 0) <==> LateAt(w, c, 1))
    ensures StaysAwake(w, c, 2, r)
  {
    if Late(w, c) {
      assert LateAt(w, c, 0);
    } else {
      LateOnceMore(w, c, c2);
    }
  }

  lemma {:induction false} LateOnceMore(w: World, c: S.Config, d: S.Config)
    requires !LateAt(w, c, 0) && (LateAt(w, d, 0) <==> LateAt(w, c, 1))
    ensures (exists k :: 0 <= k < 2 && LateAt(w, c, k)) <==> exists k :: 0 <= k < 1 && LateAt(w, d, k)
  {
    if LateAt(w, d, 0) {
      assert LateAt(w, c, 1);
    }
  }

  lemma {:induction false} AsleepIgnores(w: World, c: S.Config, kind: EventType, r: S.Config)
    requires Acyclic(NBIOT_GRAPH) && Stable(c) && Quiet(c) && c.state == ConnectedSleepState
    requires kind != WakeupEvent && kind != ConnectedAwakeEvent && r == S.Send(NBIOT_GRAPH, w, c, kind)
    ensures Remains(c, r)
  {
    RestIsNotLate(w, c);
    AsleepRow(w, c, kind);
    var base, fired := SendsOne(w, c, kind, Stay, r);
  }

  /** Awake, the client goes back to sleep when it is told to, whether or not its second is over. */
  lemma {:induction false} AwakeSleeps(w: World, c: S.Config, r: S.Config)
    requires Acyclic(NBIOT_GRAPH) && Stable(c) && Quiet(c) && c.state == ConnectedAwakeState
    requires r == S.Send(NBIOT_GRAPH, w, c, AwakeSleepEvent)
    ensures Quiet(r) && r.state == ConnectedSleepState && r.initialized == c.initialized && r.asked == c.asked
    ensures r.duration == c.duration
  {
    var m := Go([AwakeSleep], 0, ConnectedSleepState);
    AwakeRow(w, c, AwakeSleepEvent);
    if Late(w, c) {
      AwakeSleepsLate(w, c, m, r);
    } else {
      var base, fired := SendsOne(w, c, AwakeSleepEvent, m, r);
    }
  }

  lemma {:induction false} AwakeSleepsLate(w: World, c: S.Config, m: Move, r: S.Config)
    requires Acyclic(NBIOT_GRAPH) && Quiet(c) && Late(w, c) && c.state == ConnectedAwakeState
    requires m == Go([AwakeSleep], 0, ConnectedSleepState) && r == S.Send(NBIOT_GRAPH, w, c, AwakeSleepEvent)
    ensures Quiet(r) && r.state == ConnectedSleepState && r.initialized == c.initialized && r.asked == c.asked
    ensures r.duration == c.duration
  {
    var c0 := S.Push(c, AwakeSleepEvent);
    assert c0.events == [S.NewEvent(AwakeSleepEvent)];
    var c1, h1, h := DispatchTwo(w, c0);
    AwakeRow(w, c1, AwakeSleepEvent);
    var base, fired := HeadMoves(w, c1, m);
    AsleepRow(w, h1, TimerEvent);
    HeadStays(w, h1);
    StillArrived(w, fired, h1, h);
  }

  lemma {:induction false} StillArrived(w: World, fired: S.Config, h1: S.Config, h: S.Config)
    requires Arrived(w, fired, ConnectedSleepState, h1) && Stays(h1, h)
    ensures h.state == ConnectedSleepState && h.initialized == fired.initialized && h.asked == fired.asked
    ensures h.duration == fired.duration && h.pending == fired.pending
  {
  }

  predicate Asleep(s: StateId) {
    s == ConnectedSleepState || s == DisconnectedSleepState
  }

  /** Disconnecting: a sleeping client is woken first. While it is awake for its ping, it is not disconnected. */
  predicate Disconnects(w: World, c: S.Config, r: S.Config) {
    && Quiet(r) && r.initialized == c.initialized && r.asked == c.asked && r.duration == c.duration
    && (c.state == ConnectedState || Asleep(c.state) ==> r.state == DisconnectedState && r.errno == Success)
    && (c.state == ConnectedAwakeState ==> StaysAwake(w, c, 2, r))
    && (c.state != ConnectedState && !Asleep(c.state) && c.state != ConnectedAwakeState ==> r == c)
  }

  /** Going to sleep, connected or not, and only then. */
  predicate Sleeps(c: S.Config, duration: nat, r: S.Config) {
    && Quiet(r) && r.initialized == c.initialized && r.asked == c.asked
    && (c.state == ConnectedState ==> r.state == ConnectedSleepState && r.duration == duration)
    && (c.state == DisconnectedState ==> r.state == DisconnectedSleepState && r.duration == duration)
    && (c.state != ConnectedState && c.state != DisconnectedState ==> r == c)
  }

  /** Deep sleep: the modem counts as uninitialized from then on. */
  predicate Hibernates(w: World, c: S.Config, duration: nat, r: S.Config) {
    && Quiet(r) && r.asked == c.asked
    && var resting := c.state == ConnectedState || c.state == DisconnectedState || Asleep(c.state);
       && (resting ==> r.state == DeepSleepState && !r.initialized && r.duration == duration)
       && (c.state == ConnectedAwakeState ==> StaysAwake(w, c, 2, r) && r.duration == duration)
       && (!resting && c.state != ConnectedAwakeState ==> r == c)
  }

  /** What a connect event leads to in the Disconnected state: the modem is asked whether it is attached, and if so
      for the network. */
  predicate Connecting(w: World, c: S.Config, r: S.Config) {
    if !w.modem(c.asked) then Reaches(w, c, 1, WaitForAttachState, r) && r.errno == Success
    else if w.modem(c.asked + 1) then Reaches(w, c, 2, WaitForConnectState, r) && r.errno == Success
    else Fails(w, c, 2, IpNotConnected, 0, r)
  }

  /** Connecting: an initialized client that is not connected starts to, and a sleeping one is woken. */
  predicate Connects(w: World, c: S.Config, r: S.Config) {
    && r.initialized == c.initialized && r.duration == c.duration
    && (c.state == DisconnectedState ==> Connecting(w, c, r))
    && (c.state == ConnectedSleepState || c.state == ConnectedState ==> Quiet(r) && r.state == ConnectedState)
    && (c.state == DisconnectedSleepState ==> Quiet(r) && r.state == DisconnectedState)
    && (c.state == ConnectedAwakeState ==> StaysAwake(w, c, 1, r))
    && (c.state == WaitForAttachState || c.state == WaitForConnectState ==>
          if Late(w, c) then TimesOut(w, c, r) else Remains(c, r))
    && (c.state == ErrorState || c.state == DeepSleepState ==> Remains(c, r))
  }

  /** Waking up: from sleep to the state before it, and out of deep sleep to a new start. `again` asks to
      connect at once; then the new start is carried out, unless its minute is over by then. */
  predicate WakesUp(w: World, c: S.Config, again: bool, r: S.Config) {
    && r.duration == 0
    && (c.state == ConnectedSleepState || c.state == ConnectedAwakeState ==>
          Quiet(r) && r.state == ConnectedState && r.initialized)
    && (c.state == DisconnectedSleepState && !again ==> Quiet(r) && r.state == DisconnectedState && r.initialized)
    && (c.state == DisconnectedSleepState && again ==> Connecting(w, c.(duration := 0), r))
    && (c.state == DeepSleepState && !again ==>
          r.state == InitialState && Queued(r, InitializeEvent) && r.initialized == w.modem(c.asked))
    && (c.state == DeepSleepState && again && !MinuteIsOver(w.clock(c.ticks), w.clock(c.ticks + 1)) ==>
          && r.initialized == w.modem(c.asked)
          && (!r.initialized ==> r.state == ErrorState && Quiet(r))
          && (r.initialized && !w.modem(c.asked + 1) ==> r.state == WaitForAttachState && Quiet(r))
          && (r.initialized && w.modem(c.asked + 1) ==>
                r.state == if w.modem(c.asked + 2) then WaitForConnectState else ErrorState))
    && (!again && !Asleep(c.state) && c.state != ConnectedAwakeState && c.state != DeepSleepState ==>
          r == c.(duration := 0))
  }

  // ----- single events of those calls -----

  /** One event that a resting state takes to a calm one. */
  lemma {:induction false} RestMoves(w: World, c: S.Config, kind: EventType, t: TransitionId, r: S.Config)
    requires Acyclic(NBIOT_GRAPH) && Stable(c) && Quiet(c) && !Waiting(c.state, c.initialized)
    requires Target(t).StateNode? && Target(t).state != InitialState && Target(t).state != ErrorState
    requires r == S.Send(NBIOT_GRAPH, w, c, kind)
    requires NextOf(w, c, kind) == Go([t], 0, Target(t).state)
    ensures Reaches(w, c, 0, Target(t).state, r)
  {
    RestIsNotLate(w, c);
    var base, fired := SendsOne(w, c, kind, Go([t], 0, Target(t).state), r);
  }

  lemma {:induction false} RestStays(w: World, c: S.Config, kind: EventType, r: S.Config)
    requires Acyclic(NBIOT_GRAPH) && Stable(c) && Quiet(c) && !Waiting(c.state, c.initialized)
    requires NextOf(w, c, kind) == Stay && r == S.Send(NBIOT_GRAPH, w, c, kind)
    ensures Remains(c, r)
  {
    RestIsNotLate(w, c);
    var base, fired := SendsOne(w, c, kind, Stay, r);
  }

  lemma {:induction false} WakeupMoves(w: World, c: S.Config, r: S.Config)
    requires Acyclic(NBIOT_GRAPH) && Stable(c) && Quiet(c)
    requires c.state == ConnectedSleepState || c.state == DisconnectedSleepState
    requires r == S.Send(NBIOT_GRAPH, w, c, WakeupEvent)
    ensures Reaches(w, c, 0, if c.state == ConnectedSleepState then ConnectedState else DisconnectedState, r)
  {
    var t := if c.state == ConnectedSleepState then Wakeup else DisWakeup;
    RestRow(w, c, WakeupEvent, t);
    RestMoves(w, c, WakeupEvent, t, r);
  }

  /** Disconnecting an awake connection, or none. */
  lemma {:induction false} DisconnectMoves(w: World, c: S.Config, r: S.Config)
    requires Acyclic(NBIOT_GRAPH) && Stable(c) && Quiet(c)
    requires c.state == ConnectedState || (c.state == DisconnectedState && c.errno == Success)
    requires r == S.Send(NBIOT_GRAPH, w, c, DisconnectEvent)
    ensures Reaches(w, c, 0, DisconnectedState, r)
  {
    if c.state == ConnectedState {
      RestRow(w, c, DisconnectEvent, Disconnect);
      RestMoves(w, c, DisconnectEvent, Disconnect, r);
    } else {
      RestStays(w, c, DisconnectEvent, r);
      QuietStates(c);
    }
  }

  lemma {:induction false} SleepMoves(w: World, c: S.Config, r: S.Config)
    requires Acyclic(NBIOT_GRAPH) && Stable(c) && Quiet(c)
    requires c.state == ConnectedState || c.state == DisconnectedState
    requires r == S.Send(NBIOT_GRAPH, w, c, SleepEvent)
    ensures Reaches(w, c, 0, if c.state == ConnectedState then ConnectedSleepState else DisconnectedSleepState, r)
  {
    var t := if c.state == ConnectedState then Sleep else DisSleep;
    RestRow(w, c, SleepEvent, t);
    RestMoves(w, c, SleepEvent, t, r);
  }

  lemma {:induction false} HibernateMoves(w: World, c: S.Config, r: S.Config)
    requires Acyclic(NBIOT_GRAPH) && Stable(c) && Quiet(c)
    requires c.state == ConnectedState || c.state == DisconnectedState
    requires r == S.Send(NBIOT_GRAPH, w, c, HibernateEvent)
    ensures Reaches(w, c, 0, DeepSleepState, r)
  {
    var t := if c.state == ConnectedState then Hibernate else DisHibernate;
    RestRow(w, c, HibernateEvent, t);
    RestMoves(w, c, HibernateEvent, t, r);
  }

  lemma {:induction false} ConnectMoves(w: World, c: S.Config, r: S.Config)
    requires Acyclic(NBIOT_GRAPH) && Stable(c) && Quiet(c) && c.state == DisconnectedState
    requires r == S.Send(NBIOT_GRAPH, w, c, ConnectEvent)
    ensures Connecting(w, c, r)
  {
    RestIsNotLate(w, c);
    QuietStates(c);
    ConnectRow(w, c);
    var base, fired := SendsOne(w, c, ConnectEvent, NextOf(w, c, ConnectEvent), r);
    ConnectingLands(w, c, NextOf(w, c, ConnectEvent), base, fired, r);
  }

  lemma {:induction false} WaitRow(w: World, c: S.Config)
    requires c.state == WaitForAttachState || c.state == WaitForConnectState || c.state == DeepSleepState
    ensures NextOf(w, c, ConnectEvent) == Stay
  {
  }

  lemma {:induction false} ConnectRow(w: World, c: S.Config)
    requires c.state == DisconnectedState
    ensures NextOf(w, c, ConnectEvent) == FromConnect(w.modem(c.asked), w.modem(c.asked + 1))
  {
  }

  lemma {:induction false} ConnectingLands(w: World, c: S.Config, m: Move, base: S.Config, fired: S.Config, r: S.Config)
    requires m == FromConnect(w.modem(c.asked), w.modem(c.asked + 1)) && c.initialized
    requires Lands(w, c, m, fired, r) && fired == FireAll(base, m.path)
    ensures Connecting(w, c, r)
  {
    ConnectingFires(base, w.modem(c.asked), w.modem(c.asked + 1));
  }

  /** The rows of the client's own events. */
  lemma {:induction false} RestRow(w: World, c: S.Config, kind: EventType, t: TransitionId)
    requires
      match t
      case Wakeup => c.state == ConnectedSleepState && kind == WakeupEvent
      case DisWakeup => c.state == DisconnectedSleepState && kind == WakeupEvent
      case Disconnect => c.state == ConnectedState && kind == DisconnectEvent
      case Sleep => c.state == ConnectedState && kind == SleepEvent
      case DisSleep => c.state == DisconnectedState && kind == SleepEvent
      case Hibernate => c.state == ConnectedState && kind == HibernateEvent
      case DisHibernate => c.state == DisconnectedState && kind == HibernateEvent
      case ReInitialize => c.state == DeepSleepState && kind == ReInitializeEvent
      case SleepAwake => c.state == ConnectedSleepState && kind == ConnectedAwakeEvent
      case _ => false
    ensures NextOf(w, c, kind) == Go([t], 0, Target(t).state)
  {
  }

  /** Deep sleep ends in a new start. */
  lemma {:induction false} ReInitializeMoves(w: World, c: S.Config, r: S.Config)
    requires Acyclic(NBIOT_GRAPH) && Stable(c) && Quiet(c) && c.state == DeepSleepState
    requires r == S.Send(NBIOT_GRAPH, w, c, ReInitializeEvent)
    ensures StartsAgain(w, c, r) && r.ticks == c.ticks + 1 && r.timer == Started(w.clock(c.ticks), 60000)
  {
    var m := Go([ReInitialize], 0, InitialState);
    RestIsNotLate(w, c);
    RestRow(w, c, ReInitializeEvent, ReInitialize);
    var base, fired := SendsOne(w, c, ReInitializeEvent, m, r);
    SingleFires(base, ReInitialize);
    ReInitializeLooks(w, c, m, r);
  }

  lemma {:induction false} ReInitializeLooks(w: World, c: S.Config, m: Move, r: S.Config)
    requires Acyclic(NBIOT_GRAPH) && Quiet(c) && !c.timer.Armed() && m == NextOf(w, c, ReInitializeEvent)
    requires m == Go([ReInitialize], 0, InitialState) && r == S.Send(NBIOT_GRAPH, w, c, ReInitializeEvent)
    ensures r.ticks == c.ticks + 1
  {
    var c1 := S.Push(c, ReInitializeEvent);
    assert c1.events == [S.NewEvent(ReInitializeEvent)];
    var c2, h := DispatchOne(w, c1);
    SameRow(w, c, c2, ReInitializeEvent);
    var base, fired := HeadMoves(w, c2, m);
  }

  // ----- the start -----

  /** How many answers the first bring-up takes: none of them is asked for after one that is no. */
  function FirstAnswers(w: World, hasLogin: bool): nat {
    if !w.modem(0) then 1 else if !w.modem(1) || hasLogin then 2 else 3
  }

  lemma {:induction false} FirstEntry(w: World, hasLogin: bool, c: S.Config)
    requires c == S.Enter(w, S.Fresh(hasLogin), InitialState, InvalidEvent)
    ensures c.state == InitialState && Quiet(c) && c.asked == FirstAnswers(w, hasLogin)
    ensures c.initialized == (w.modem(0) && w.modem(1) && (hasLogin || w.modem(2)))
    ensures c.hasLogin == (hasLogin || (w.modem(0) && w.modem(1) && w.modem(2)))
    ensures c.timer == Started(w.clock(0), 60000) && c.ticks == 1 && c.restarts == 0 && c.duration == 0
  {
    assert c == S.InitialEntry(w, S.Arrive(S.Fresh(hasLogin), InitialState), InvalidEvent);
  }

  /** What the event of the Initial state comes to: by the modem, or by a minute that is over. */
  predicate Initializes(w: World, c: S.Config, r: S.Config) {
    if c.initialized then Quiet(r) && r.state == DisconnectedState && r.initialized && r.errno == Success
    else if Late(w, c) then
      && r.state == InitialState && Queued(r, InitializeEvent) && r.initialized == w.modem(c.asked)
      && r.errno == InitializeError && JustStarted(w, r, 60000)
    else Fails(w, c, 0, InitializeError, c.restarts, r)
  }

  lemma {:induction false} InitialRow(w: World, c: S.Config)
    requires c.state == InitialState
    ensures NextOf(w, c, InitializeEvent) == FromInitial(Initialize, c.initialized)
  {
  }

  lemma {:induction false} InitializedHead(w: World, c: S.Config, h: S.Config)
    requires Acyclic(NBIOT_GRAPH) && c.events != [] && c.events[0].kind == InitializeEvent && c.state == InitialState
    requires h == S.HandleFirst(NBIOT_GRAPH, w, c)
    ensures h.state == if c.initialized then DisconnectedState else ErrorState
    ensures h.initialized == c.initialized && h.asked == c.asked && h.pending == c.pending && h.duration == c.duration
    ensures h.errno == if c.initialized then Success else InitializeError
    ensures !c.initialized ==> h.restarts == c.restarts && JustStarted(w, h, 60000)
  {
    InitialRow(w, c);
    var base, fired := HeadMoves(w, c, FromInitial(Initialize, c.initialized));
    InitializedFires(base, Initialize, c.initialized);
    assert c.pending + [] == c.pending;
  }

  lemma {:induction false} InitialDispatches(w: World, c: S.Config, r: S.Config)
    requires Acyclic(NBIOT_GRAPH) && c.state == InitialState && |c.events| == 1 && c.pending == []
    requires c.events[0].kind == InitializeEvent && r == S.Dispatch(NBIOT_GRAPH, w, c)
    ensures Initializes(w, c, r)
  {
    if Late(w, c) {
      var c1, h1, h := DispatchTwo(w, c);
      InitializedHead(w, c1, h1);
      TimeoutHead(w, h1, h);
      InitializesLate(w, c, h1, h, r);
    } else {
      var c1, h := DispatchOne(w, c);
      InitializedHead(w, c1, h);
      InitializesInTime(w, c, h, r);
    }
  }

  lemma {:induction false} InitializesLate(w: World, c: S.Config, h1: S.Config, h: S.Config, r: S.Config)
    requires Late(w, c) && r == h.(events := h.pending, pending := []) && h1.initialized == c.initialized
    requires h1.asked == c.asked && h1.pending == [] && h1.errno == if c.initialized then Success else InitializeError
    requires c.initialized ==> h1.state == DisconnectedState && Stays(h1, h)
    requires !c.initialized ==>
               && h.state == InitialState && h.initialized == w.modem(h1.asked) && h.errno == h1.errno
               && h.pending == [S.NewEvent(InitializeEvent)] && JustStarted(w, h, 60000)
    ensures Initializes(w, c, r)
  {
  }

  lemma {:induction false} InitializesInTime(w: World, c: S.Config, h: S.Config, r: S.Config)
    requires !Late(w, c) && r == h.(events := h.pending, pending := []) && h.initialized == c.initialized
    requires h.asked == c.asked && h.pending == [] && h.errno == if c.initialized then Success else InitializeError
    requires h.duration == c.duration && h.state == if c.initialized then DisconnectedState else ErrorState
    requires !c.initialized ==> h.restarts == c.restarts && JustStarted(w, h, 60000)
    ensures Initializes(w, c, r)
  {
  }

  /** The late timeout behind it: the Disconnected state ignores it, and the Error state starts again. */
  lemma {:induction false} TimeoutHead(w: World, c: S.Config, h: S.Config)
    requires Acyclic(NBIOT_GRAPH) && c.events == [S.NewEvent(TimerEvent)] && c.pending == []
    requires c.state == (if c.initialized then DisconnectedState else ErrorState)
    requires h == S.HandleFirst(NBIOT_GRAPH, w, c)
    ensures c.initialized ==> Stays(c, h)
    ensures !c.initialized ==>
              && h.state == InitialState && h.initialized == w.modem(c.asked) && h.errno == c.errno
              && h.pending == [S.NewEvent(InitializeEvent)] && JustStarted(w, h, 60000)
  {
    if c.initialized {
      TimeoutIgnored(w, c);
      HeadStays(w, c);
    } else {
      var m := TimeoutRow(w, c);
      var base, fired := HeadMoves(w, c, m);
      SingleFires(base, ErrorTimeout);
      Restarted(w, fired, h);
    }
  }

  lemma {:induction false} TimeoutIgnored(w: World, c: S.Config)
    requires c.state == DisconnectedState
    ensures NextOf(w, c, TimerEvent) == Stay
  {
  }

  lemma {:induction false} Restarted(w: World, fired: S.Config, h: S.Config)
    requires Reentered(w, fired, h) && fired.pending == []
    ensures h.state == InitialState && h.initialized == w.modem(fired.asked) && h.errno == fired.errno
    ensures h.pending == [S.NewEvent(InitializeEvent)] && JustStarted(w, h, 60000)
  {
    assert [] + [S.NewEvent(InitializeEvent)] == [S.NewEvent(InitializeEvent)];
  }

  /** Main result: where a start leads, for every modem and every clock. The modem is to be rebooted and initialized, and
      to give a login name unless there is one. If it does, the client is Disconnected; if not, it is in Error, or,
      with the minute over by then, in Initial again with a new answer. */
  predicate Starts(w: World, hasLogin: bool, r: S.Config) {
    if w.modem(0) && w.modem(1) && (hasLogin || w.modem(2)) then
      r.state == DisconnectedState && r.initialized && Quiet(r) && r.errno == Success
    else if MinuteIsOver(w.clock(0), w.clock(1)) then
      && r.state == InitialState && Queued(r, InitializeEvent) && r.errno == InitializeError
      && r.initialized == w.modem(if !w.modem(0) then 1 else if !w.modem(1) then 2 else 3)
    else r.state == ErrorState && !r.initialized && Quiet(r) && r.errno == InitializeError
  }

  lemma {:induction false} StartLeads(w: World, hasLogin: bool)
    requires Acyclic(NBIOT_GRAPH)
    ensures Starts(w, hasLogin, S.Start(NBIOT_GRAPH, w, S.Fresh(hasLogin)))
  {
    var c := S.Enter(w, S.Fresh(hasLogin), InitialState, InvalidEvent);
    FirstEntry(w, hasLogin, c);
    var c1 := S.Push(c, InitializeEvent);
    assert c1.events == [S.NewEvent(InitializeEvent)];
    LateIsMinute(w, c1, 0);
    InitialDispatches(w, c1, S.Dispatch(NBIOT_GRAPH, w, c1));
  }

  lemma {:induction false} LateIsMinute(w: World, c: S.Config, k: nat)
    requires c.timer == Started(w.clock(k), 60000) && c.ticks == k + 1
    ensures Late(w, c) <==> MinuteIsOver(w.clock(k), w.clock(k + 1))
  {
  }

  // ----- a new start that is to connect at once -----

  lemma {:induction false} DispatchPair(w: World, c: S.Config) returns (c1: S.Config, h1: S.Config, h: S.Config)
    requires Acyclic(NBIOT_GRAPH) && |c.events| == 2 && !Late(w, c)
    ensures c1 == c.(ticks := c.ticks + if c.timer.Armed() then 1 else 0)
    ensures h1 == S.HandleFirst(NBIOT_GRAPH, w, c1) && h1.events == [c.events[1]]
    ensures h == S.HandleFirst(NBIOT_GRAPH, w, h1) && h.events == []
    ensures S.Dispatch(NBIOT_GRAPH, w, c) == h.(events := h.pending, pending := [])
  {
    c1 := NotLate(w, c);
    h1 := S.HandleFirst(NBIOT_GRAPH, w, c1);
    assert h1.events == [c.events[1]];
    h := S.HandleFirst(NBIOT_GRAPH, w, h1);
    DrainOne(w, h1, h);
    assert h.events + h.pending == h.pending;
  }

  lemma {:induction false} InitialConnects(w: World, c: S.Config, r: S.Config)
    requires Acyclic(NBIOT_GRAPH) && c.state == InitialState && Queued(c, InitializeEvent) && !Late(w, c)
    requires r == S.Send(NBIOT_GRAPH, w, c, ConnectEvent)
    ensures c.initialized ==> Connecting(w, c, r)
    ensures !c.initialized ==> r.state == ErrorState && Quiet(r) && !r.initialized
    ensures r.duration == c.duration
  {
    var c0 := S.Push(c, ConnectEvent);
    assert c0.events == [S.NewEvent(InitializeEvent), S.NewEvent(ConnectEvent)];
    var c1, h1, h := DispatchPair(w, c0);
    InitializedHead(w, c1, h1);
    if c.initialized {
      HeadConnects(w, h1, h, r);
      SameConnecting(w, c, h1, r);
    } else {
      ErrorIgnoresConnect(w, h1);
      HeadStays(w, h1);
    }
  }

  lemma {:induction false} HeadConnects(w: World, c: S.Config, h: S.Config, r: S.Config)
    requires Acyclic(NBIOT_GRAPH) && c.events == [S.NewEvent(ConnectEvent)] && c.pending == []
    requires c.state == DisconnectedState && c.initialized
    requires h == S.HandleFirst(NBIOT_GRAPH, w, c) && h.events == [] && r == h.(events := h.pending, pending := [])
    ensures Connecting(w, c, r)
  {
    ConnectRow(w, c);
    var m := NextOf(w, c, ConnectEvent);
    var base, fired := HeadLands(w, c, m, h, r);
    ConnectingLands(w, c, m, base, fired, r);
  }

  lemma {:induction false} SameConnecting(w: World, c: S.Config, d: S.Config, r: S.Config)
    requires Connecting(w, d, r) && d.asked == c.asked && d.initialized == c.initialized && d.duration == c.duration
    ensures Connecting(w, c, r)
  {
  }

  lemma {:induction false} ErrorIgnoresConnect(w: World, c: S.Config)
    requires c.state == ErrorState
    ensures NextOf(w, c, ConnectEvent) == Stay
  {
  }

  // ----- a dispatch by the event loop -----

  /** Where the one event that is queued leads, with the timer not late. */
  predicate Hears(w: World, c: S.Config, r: S.Config) {
    && (c.state == ConnectedState && Queued(c, DisconnectEvent) ==> Reaches(w, c, 0, DisconnectedState, r))
    && (c.state == WaitForConnectState && Queued(c, ConnectedEvent) ==> Reaches(w, c, 0, ConnectedState, r))
    && (c.state == WaitForAttachState && Queued(c, AttachedEvent) ==>
          if w.modem(c.asked) then Reaches(w, c, 1, WaitForConnectState, r) else Fails(w, c, 1, IpNotConnected, 0, r))
    && (c.state == ErrorState && Queued(c, ErrorDisconnectEvent) ==> Reaches(w, c, 0, DisconnectedState, r))
    && (c.state == ErrorState && Queued(c, ReInitializeEvent) ==> StartsAgain(w, c, r))
    && (c.state == InitialState && Queued(c, InitializeEvent) ==> Initializes(w, c, r))
  }

  lemma {:induction false} HeardRow(w: World, c: S.Config, kind: EventType, t: TransitionId)
    requires
      match t
      case Disconnect => c.state == ConnectedState && kind == DisconnectEvent
      case IsConnectedConnected => c.state == WaitForConnectState && kind == ConnectedEvent
      case ErrorDisconnect => c.state == ErrorState && kind == ErrorDisconnectEvent
      case ErrorReInitialize => c.state == ErrorState && kind == ReInitializeEvent
      case _ => false
    ensures NextOf(w, c, kind) == Go([t], 0, Target(t).state)
  {
  }

  lemma {:induction false} AttachedRow(w: World, c: S.Config)
    requires c.state == WaitForAttachState
    ensures NextOf(w, c, AttachedEvent) == FromAttached(w.modem(c.asked))
  {
  }

  lemma {:induction false} HearsSingle(w: World, c: S.Config, kind: EventType, s: StateId, m: Move, r: S.Config)
    requires Acyclic(NBIOT_GRAPH) && Queued(c, kind) && !Late(w, c) && r == S.Dispatch(NBIOT_GRAPH, w, c)
    requires m == NextOf(w, c, kind) && m.Go? && m.answers == 0 && m.to == s
    requires s == ConnectedState || s == DisconnectedState
    ensures Reaches(w, c, 0, s, r)
  {
    var base, fired := TakesOne(w, c, m, r);
  }

  lemma {:induction false} HearsReInitialize(w: World, c: S.Config, r: S.Config)
    requires Acyclic(NBIOT_GRAPH) && Queued(c, ReInitializeEvent) && !Late(w, c) && c.state == ErrorState
    requires r == S.Dispatch(NBIOT_GRAPH, w, c)
    ensures StartsAgain(w, c, r)
  {
    HeardRow(w, c, ReInitializeEvent, ErrorReInitialize);
    var base, fired := TakesOne(w, c, Go([ErrorReInitialize], 0, InitialState), r);
    SingleFires(base, ErrorReInitialize);
  }

  lemma {:induction false} HearsAttached(w: World, c: S.Config, r: S.Config)
    requires Acyclic(NBIOT_GRAPH) && c.state == WaitForAttachState && c.initialized && Queued(c, AttachedEvent)
    requires !Late(w, c) && r == S.Dispatch(NBIOT_GRAPH, w, c)
    ensures if w.modem(c.asked) then Reaches(w, c, 1, WaitForConnectState, r) else Fails(w, c, 1, IpNotConnected, 0, r)
  {
    AttachedRow(w, c);
    var base, fired := TakesOne(w, c, FromAttached(w.modem(c.asked)), r);
    AttachedFires(base, w.modem(c.asked));
  }

  lemma {:induction false} DispatchHears(w: World, c: S.Config, r: S.Config)
    requires Acyclic(NBIOT_GRAPH) && Stable(c) && !Late(w, c) && r == S.Dispatch(NBIOT_GRAPH, w, c)
    ensures Hears(w, c, r)
  {
    if c.state == ConnectedState && Queued(c, DisconnectEvent) {
      HeardRow(w, c, DisconnectEvent, Disconnect);
      HearsSingle(w, c, DisconnectEvent, DisconnectedState, Go([Disconnect], 0, DisconnectedState), r);
    } else if c.state == WaitForConnectState && Queued(c, ConnectedEvent) {
      HeardRow(w, c, ConnectedEvent, IsConnectedConnected);
      HearsSingle(w, c, ConnectedEvent, ConnectedState, Go([IsConnectedConnected], 0, ConnectedState), r);
    } else if c.state == WaitForAttachState && Queued(c, AttachedEvent) {
      HearsAttached(w, c, r);
    } else if c.state == ErrorState && Queued(c, ErrorDisconnectEvent) {
      HeardRow(w, c, ErrorDisconnectEvent, ErrorDisconnect);
      HearsSingle(w, c, ErrorDisconnectEvent, DisconnectedState, Go([ErrorDisconnect], 0, DisconnectedState), r);
    } else if c.state == ErrorState && Queued(c, ReInitializeEvent) {
      HearsReInitialize(w, c, r);
    } else if c.state == InitialState && Queued(c, InitializeEvent) {
      InitialDispatches(w, c, r);
    }
  }

  /** A dispatch with nothing queued: a timeout, or nothing. */
  lemma {:induction false} DispatchIdles(w: World, c: S.Config, r: S.Config)
    requires Acyclic(NBIOT_GRAPH) && Stable(c) && Quiet(c) && r == S.Dispatch(NBIOT_GRAPH, w, c)
    ensures if Late(w, c) then TimesOut(w, c, r) else Remains(c, r)
  {
    if Late(w, c) {
      WaitingTimesOut(w, c, r);
    } else {
      DispatchNone(w, c);
    }
  }

  /** Asleep, the client is woken for as many seconds as its sleep duration says. */
  lemma {:induction false} SleepAwakens(w: World, c: S.Config, r: S.Config)
    requires Acyclic(NBIOT_GRAPH) && Stable(c) && Quiet(c) && c.state == ConnectedSleepState
    requires r == S.Send(NBIOT_GRAPH, w, c, ConnectedAwakeEvent)
    ensures Reaches(w, c, 0, ConnectedAwakeState, r)
  {
    RestRow(w, c, ConnectedAwakeEvent, SleepAwake);
    RestMoves(w, c, ConnectedAwakeEvent, SleepAwake, r);
  }
}
