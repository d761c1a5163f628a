/** NbiotMQTT: which operations a client's calls and a cycle of the event loop consist of, and where they lead. */
module ConnectionCalls {
  import opened ConnectionTypes
  import opened Timers
  import S = ConnectionSpec
  import opened ConnectionTable
  import opened ConnectionInvariant
  import opened ConnectionRuns
  import opened ConnectionSteps
  import opened ConnectionOutcomes

  /** What the loop step of an event loop cycle reports before it ends. */
  datatype Notice = GatewayDisconnect | PingResponse | AttachFinished

  /** How the loop step of an event loop cycle ends. */
  datatype LoopOutcome =
    | LoopPending
    | LoopIdle
    | SessionDone(connected: bool)
    | SessionFailed(publish: bool, invalidTopic: bool)

  predicate Sleeping(s: StateId) {
    s == ConnectedSleepState || s == ConnectedAwakeState || s == DisconnectedSleepState
  }

  // ----- the operations of each call -----

  function ConnectOps(c: S.Config): seq<Op> {
    if !c.initialized || c.state == ConnectedState then []
    else [SendOp(if Sleeping(c.state) then WakeupEvent else ConnectEvent)]
  }

  function WakeFirst(c: S.Config): seq<Op> {
    if Sleeping(c.state) then [SendOp(WakeupEvent)] else []
  }

  function DisconnectOps(c: S.Config): seq<Op> {
    if c.state == ConnectedState || Sleeping(c.state) then WakeFirst(c) + [SendOp(DisconnectEvent)] else []
  }

  function SleepOps(c: S.Config, duration: nat): seq<Op> {
    if c.state == ConnectedState || c.state == DisconnectedState
    then [DurationOp(duration), SendOp(SleepEvent)] else []
  }

  function HibernateOps(c: S.Config, duration: nat): seq<Op> {
    if c.state == ConnectedState || c.state == DisconnectedState || Sleeping(c.state)
    then WakeFirst(c) + [DurationOp(duration), SendOp(HibernateEvent)] else []
  }

  function WakeupOps(c: S.Config, autoReconnect: bool): seq<Op> {
    LeaveSleepOps(c) + (if autoReconnect then [SendOp(ConnectEvent)] else []) + [DurationOp(0)]
  }

  function LeaveSleepOps(c: S.Config): seq<Op> {
    if c.state == ConnectedAwakeState then [SendOp(AwakeSleepEvent), SendOp(WakeupEvent)]
    else if Sleeping(c.state) then [SendOp(WakeupEvent)]
    else if c.state == DeepSleepState then [SendOp(ReInitializeEvent)]
    else []
  }

  ghost function NoticeOps(c: S.Config, n: Notice): seq<Op> {
    match n
    case GatewayDisconnect =>
      if c.state == ConnectedSleepState || c.state == ConnectedAwakeState then [] else DisconnectOps(c)
    case PingResponse => if c.state == ConnectedAwakeState then [SendOp(AwakeSleepEvent)] else []
    case AttachFinished => [PostOp(AttachedEvent)]
  }

  function CycleStart(c: S.Config, asleep: bool): seq<Op> {
    if asleep && c.state == ConnectedSleepState then [SendOp(ConnectedAwakeEvent)] else []
  }

  function OutcomeOps(outcome: LoopOutcome): seq<Op> {
    match outcome
    case LoopPending => []
    case LoopIdle => [DispatchOp]
    case SessionDone(connected) => if connected then [PostOp(ConnectedEvent)] else []
    case SessionFailed(publish, invalidTopic) =>
      (if publish && !invalidTopic then [ErrnoOp(ConnectionError), PostOp(DisconnectEvent)] else []) + [DispatchOp]
  }

  // ----- runs in pieces -----

  lemma {:induction false} OneAfterOther(before: seq<Op>, a: seq<Op>, b: seq<Op>)
    ensures before + a + b == before + (a + b) && before + a + [] + b == before + (a + b)
  {
  }

  lemma {:induction false} TwoMore(before: seq<Op>, wake: seq<Op>, a: Op, b: Op)
    ensures before + wake + [a] + [b] == before + (wake + [a, b])
  {
  }

  lemma {:induction false} ThreeMore(before: seq<Op>, a: seq<Op>, b: seq<Op>, c: seq<Op>)
    ensures before + a + b + c == before + (a + b + c)
  {
  }

  lemma {:induction false} RunMore(w: World, c: S.Config, ops: seq<Op>, op: Op)
    requires Acyclic(NBIOT_GRAPH) && Legal(w, c, ops) && Allowed(Run(w, c, ops), op)
    ensures Legal(w, c, ops + [op]) && Run(w, c, ops + [op]) == Apply(w, Run(w, c, ops), op)
    decreases |ops|
  {
    if ops == [] {
      assert [op][1..] == [] && [] + [op] == [op];
    } else {
      assert (ops + [op])[1..] == ops[1..] + [op];
      RunMore(w, Apply(w, c, ops[0]), ops[1..], op);
    }
  }

  lemma {:induction false} RunConcat(w: World, c: S.Config, a: seq<Op>, b: seq<Op>)
    requires Acyclic(NBIOT_GRAPH)
    ensures Run(w, c, a + b) == Run(w, Run(w, c, a), b)
    decreases |a|
  {
    if a == [] {
      assert a + b == b;
    } else {
      assert (a + b)[1..] == a[1..] + b;
      RunConcat(w, Apply(w, c, a[0]), a[1..], b);
    }
  }

  /** The operations of several notices, each in the configuration the ones before it have left. */
  ghost function NoticesOps(w: World, c: S.Config, notices: seq<Notice>): seq<Op>
    requires Acyclic(NBIOT_GRAPH)
    decreases |notices|
  {
    if notices == [] then []
    else
      var first := NoticeOps(c, notices[0]);
      first + NoticesOps(w, Run(w, c, first), notices[1..])
  }

  /** `during` are the operations of the first `i` notices, which lead from `c0` to `c`. */
  ghost predicate NoticedSoFar(w: World, c0: S.Config, c: S.Config, notices: seq<Notice>, i: nat, during: seq<Op>)
    requires Acyclic(NBIOT_GRAPH)
  {
    i <= |notices| && NoticesOps(w, c0, notices) == during + NoticesOps(w, c, notices[i..])
  }

  lemma {:induction false} NoOneNoticed(w: World, c: S.Config, notices: seq<Notice>)
    requires Acyclic(NBIOT_GRAPH)
    ensures NoticedSoFar(w, c, c, notices, 0, [])
  {
    assert notices[0..] == notices;
    assert [] + NoticesOps(w, c, notices) == NoticesOps(w, c, notices);
  }

  lemma {:induction false} OneMoreNoticed(w: World, c0: S.Config, c: S.Config, notices: seq<Notice>, i: nat,
                                          during: seq<Op>, noticed: seq<Op>, moved: S.Config)
    requires Acyclic(NBIOT_GRAPH) && NoticedSoFar(w, c0, c, notices, i, during) && i < |notices|
    requires noticed == NoticeOps(c, notices[i]) && moved == Run(w, c, noticed)
    ensures NoticedSoFar(w, c0, moved, notices, i + 1, during + noticed)
  {
    assert notices[i..][0] == notices[i] && notices[i..][1..] == notices[i + 1..];
    assert during + (noticed + NoticesOps(w, moved, notices[i + 1..])) ==
           during + noticed + NoticesOps(w, moved, notices[i + 1..]);
  }

  lemma {:induction false} AllNoticed(w: World, c0: S.Config, c: S.Config, notices: seq<Notice>, during: seq<Op>)
    requires Acyclic(NBIOT_GRAPH) && NoticedSoFar(w, c0, c, notices, |notices|, during)
    ensures NoticesOps(w, c0, notices) == during
  {
    assert during + [] == during;
  }

  // ----- where the calls lead, with nothing queued before them -----

  lemma {:induction false} RunOne(w: World, c: S.Config, a: Op)
    requires Acyclic(NBIOT_GRAPH)
    ensures Run(w, c, [a]) == Apply(w, c, a)
  {
    assert [a][1..] == [];
  }

  lemma {:induction false} RunTwo(w: World, c: S.Config, a: Op, b: Op)
    requires Acyclic(NBIOT_GRAPH)
    ensures Run(w, c, [a, b]) == Apply(w, Apply(w, c, a), b)
  {
    assert [a, b][1..] == [b];
    RunOne(w, Apply(w, c, a), b);
  }

  lemma {:induction false} RunThree(w: World, c: S.Config, a: Op, b: Op, d: Op)
    requires Acyclic(NBIOT_GRAPH)
    ensures Run(w, c, [a, b, d]) == Apply(w, Apply(w, Apply(w, c, a), b), d)
  {
    assert [a, b, d][1..] == [b, d];
    RunTwo(w, Apply(w, c, a), b, d);
  }

  lemma {:induction false} DisconnectLeads(w: World, c: S.Config)
    requires Acyclic(NBIOT_GRAPH) && Stable(c) && Quiet(c)
    ensures Disconnects(w, c, Run(w, c, DisconnectOps(c)))
  {
    if Sleeping(c.state) {
      assert DisconnectOps(c) == [SendOp(WakeupEvent), SendOp(DisconnectEvent)];
      RunTwo(w, c, SendOp(WakeupEvent), SendOp(DisconnectEvent));
      ApplyIsStable(w, c, SendOp(WakeupEvent));
      var c1 := S.Send(NBIOT_GRAPH, w, c, WakeupEvent);
      SleepingDisconnects(w, c, c1, S.Send(NBIOT_GRAPH, w, c1, DisconnectEvent));
    } else if c.state == ConnectedState {
      assert DisconnectOps(c) == [SendOp(DisconnectEvent)];
      RunOne(w, c, SendOp(DisconnectEvent));
      DisconnectMoves(w, c, S.Send(NBIOT_GRAPH, w, c, DisconnectEvent));
    }
  }

  lemma {:induction false} SleepingDisconnects(w: World, c: S.Config, c1: S.Config, r: S.Config)
    requires Acyclic(NBIOT_GRAPH) && Stable(c) && Quiet(c) && Sleeping(c.state)
    requires c1 == S.Send(NBIOT_GRAPH, w, c, WakeupEvent) && Stable(c1)
    requires r == S.Send(NBIOT_GRAPH, w, c1, DisconnectEvent)
    ensures Disconnects(w, c, r)
  {
    if c.state == ConnectedAwakeState {
      AwakeIgnoresTwo(w, c, WakeupEvent, DisconnectEvent, c1, c1, r);
      AwakeIgnores(w, c, WakeupEvent, c1);
    } else {
      WakeupMoves(w, c, c1);
      DisconnectMoves(w, c1, r);
    }
  }

  lemma {:induction false} SleepLeads(w: World, c: S.Config, duration: nat)
    requires Acyclic(NBIOT_GRAPH) && Stable(c) && Quiet(c)
    ensures Sleeps(c, duration, Run(w, c, SleepOps(c, duration)))
  {
    if c.state == ConnectedState || c.state == DisconnectedState {
      RunTwo(w, c, DurationOp(duration), SendOp(SleepEvent));
      ApplyIsStable(w, c, DurationOp(duration));
      var c1 := c.(duration := duration);
      SleepMoves(w, c1, S.Send(NBIOT_GRAPH, w, c1, SleepEvent));
    }
  }

  lemma {:induction false} HibernateLeads(w: World, c: S.Config, duration: nat)
    requires Acyclic(NBIOT_GRAPH) && Stable(c) && Quiet(c)
    ensures Hibernates(w, c, duration, Run(w, c, HibernateOps(c, duration)))
  {
    if Sleeping(c.state) {
      assert HibernateOps(c, duration) == [SendOp(WakeupEvent), DurationOp(duration), SendOp(HibernateEvent)];
      RunThree(w, c, SendOp(WakeupEvent), DurationOp(duration), SendOp(HibernateEvent));
      ApplyIsStable(w, c, SendOp(WakeupEvent));
      var c1 := S.Send(NBIOT_GRAPH, w, c, WakeupEvent);
      ApplyIsStable(w, c1, DurationOp(duration));
      var c2 := c1.(duration := duration);
      SleepingHibernates(w, c, duration, c1, c2, S.Send(NBIOT_GRAPH, w, c2, HibernateEvent));
    } else if c.state == ConnectedState || c.state == DisconnectedState {
      assert HibernateOps(c, duration) == [DurationOp(duration), SendOp(HibernateEvent)];
      RunTwo(w, c, DurationOp(duration), SendOp(HibernateEvent));
      ApplyIsStable(w, c, DurationOp(duration));
      var c1 := c.(duration := duration);
      HibernateMoves(w, c1, S.Send(NBIOT_GRAPH, w, c1, HibernateEvent));
    }
  }

  lemma {:induction false} SleepingHibernates(w: World, c: S.Config, duration: nat, c1: S.Config, c2: S.Config,
                                              r: S.Config)
    requires Acyclic(NBIOT_GRAPH) && Stable(c) && Quiet(c) && Sleeping(c.state)
    requires c1 == S.Send(NBIOT_GRAPH, w, c, WakeupEvent) && Stable(c1)
    requires c2 == c1.(duration := duration) && Stable(c2)
    requires r == S.Send(NBIOT_GRAPH, w, c2, HibernateEvent)
    ensures Hibernates(w, c, duration, r)
  {
    if c.state == ConnectedAwakeState {
      AwakeIgnoresTwo(w, c, WakeupEvent, HibernateEvent, c1, c2, r);
    } else {
      WakeupMoves(w, c, c1);
      HibernateMoves(w, c2, r);
    }
  }

  lemma {:induction false} ConnectLeads(w: World, c: S.Config)
    requires Acyclic(NBIOT_GRAPH) && Stable(c) && Quiet(c)
    ensures Connects(w, c, Run(w, c, ConnectOps(c)))
  {
    QuietStates(c);
    if c.initialized && c.state != ConnectedState {
      var kind := if Sleeping(c.state) then WakeupEvent else ConnectEvent;
      RunOne(w, c, SendOp(kind));
      SendConnects(w, c, kind, S.Send(NBIOT_GRAPH, w, c, kind));
    }
  }

  lemma {:induction false} SendConnects(w: World, c: S.Config, kind: EventType, r: S.Config)
    requires Acyclic(NBIOT_GRAPH) && Stable(c) && Quiet(c) && c.initialized
    requires c.state != ConnectedState && r == S.Send(NBIOT_GRAPH, w, c, kind)
    requires kind == if Sleeping(c.state) then WakeupEvent else ConnectEvent
    ensures Connects(w, c, r)
  {
    QuietStates(c);
    match c.state
    case ConnectedAwakeState => AwakeIgnores(w, c, kind, r);
    case ConnectedSleepState => WakeupMoves(w, c, r);
    case DisconnectedSleepState => WakeupMoves(w, c, r);
    case DisconnectedState => ConnectMoves(w, c, r);
    case DeepSleepState =>
      WaitRow(w, c);
      RestStays(w, c, kind, r);
    case _ =>
      WaitRow(w, c);
      WaitingIgnores(w, c, kind, r);
  }

  /** Out of sleep: awake again, or at a new start. */
  predicate LeavesSleep(w: World, c: S.Config, r: S.Config) {
    && (c.state == ConnectedSleepState || c.state == ConnectedAwakeState ==>
          Quiet(r) && r.state == ConnectedState && r.initialized && r.asked == c.asked)
    && (c.state == DisconnectedSleepState ==>
          Quiet(r) && r.state == DisconnectedState && r.initialized && r.asked == c.asked)
    && (c.state == DeepSleepState ==>
          StartsAgain(w, c, r) && r.ticks == c.ticks + 1 && r.timer == Started(w.clock(c.ticks), 60000))
    && (!Sleeping(c.state) && c.state != DeepSleepState ==> r == c)
  }

  lemma {:induction false} AwakeLeaves(w: World, c: S.Config, c1: S.Config, r: S.Config)
    requires Acyclic(NBIOT_GRAPH) && Stable(c) && Quiet(c) && c.state == ConnectedAwakeState
    requires c1 == S.Send(NBIOT_GRAPH, w, c, AwakeSleepEvent) && Stable(c1)
    requires r == S.Send(NBIOT_GRAPH, w, c1, WakeupEvent)
    ensures LeavesSleep(w, c, r)
  {
    QuietStates(c);
    AwakeSleeps(w, c, c1);
    WakeupMoves(w, c1, r);
  }

  lemma {:induction false} LeaveSleepLeads(w: World, c: S.Config)
    requires Acyclic(NBIOT_GRAPH) && Stable(c) && Quiet(c)
    ensures LeavesSleep(w, c, Run(w, c, LeaveSleepOps(c))) && Stable(Run(w, c, LeaveSleepOps(c)))
  {
    QuietStates(c);
    if c.state == ConnectedAwakeState {
      RunTwo(w, c, SendOp(AwakeSleepEvent), SendOp(WakeupEvent));
      var c1 := S.Send(NBIOT_GRAPH, w, c, AwakeSleepEvent);
      ApplyIsStable(w, c, SendOp(AwakeSleepEvent));
      ApplyIsStable(w, c1, SendOp(WakeupEvent));
      AwakeLeaves(w, c, c1, S.Send(NBIOT_GRAPH, w, c1, WakeupEvent));
      assert LeaveSleepOps(c) == [SendOp(AwakeSleepEvent), SendOp(WakeupEvent)];
    } else if Sleeping(c.state) {
      RunOne(w, c, SendOp(WakeupEvent));
      ApplyIsStable(w, c, SendOp(WakeupEvent));
      WakeupMoves(w, c, S.Send(NBIOT_GRAPH, w, c, WakeupEvent));
    } else if c.state == DeepSleepState {
      RunOne(w, c, SendOp(ReInitializeEvent));
      ApplyIsStable(w, c, SendOp(ReInitializeEvent));
      ReInitializeMoves(w, c, S.Send(NBIOT_GRAPH, w, c, ReInitializeEvent));
    }
  }

  /** Then to connect at once. */
  lemma {:induction false} ReconnectLeads(w: World, c: S.Config, c1: S.Config, c2: S.Config, r: S.Config)
    requires Acyclic(NBIOT_GRAPH) && LeavesSleep(w, c, c1) && Stable(c1)
    requires c.state == DisconnectedSleepState ==> c.initialized
    requires c2 == S.Send(NBIOT_GRAPH, w, c1, ConnectEvent) && r == c2.(duration := 0)
    ensures WakesUp(w, c, true, r)
  {
    if c.state == ConnectedSleepState || c.state == ConnectedAwakeState {
      ConnectedReconnects(w, c1, c2);
    } else if c.state == DisconnectedSleepState {
      DisconnectedReconnects(w, c, c1, c2, r);
    } else if c.state == DeepSleepState {
      DeepReconnects(w, c, c1, c2);
      DeepWakes(w, c, c1, c2, r);
    }
  }

  lemma {:induction false} DeepWakes(w: World, c: S.Config, c1: S.Config, c2: S.Config, r: S.Config)
    requires StartsAgain(w, c, c1) && c.state == DeepSleepState && r == c2.(duration := 0)
    requires !MinuteIsOver(w.clock(c.ticks), w.clock(c.ticks + 1)) ==> Resumes(w, c1, c2)
    ensures WakesUp(w, c, true, r)
  {
  }

  /** The start is carried out, and the connecting behind it. */
  predicate Resumes(w: World, c: S.Config, r: S.Config) {
    if c.initialized then Connecting(w, c, r) else r.state == ErrorState && Quiet(r) && !r.initialized
  }

  lemma {:induction false} ConnectingForgets(w: World, c: S.Config, r: S.Config)
    requires Connecting(w, c, r)
    ensures Connecting(w, c.(duration := 0), r.(duration := 0))
  {
  }

  lemma {:induction false} DisconnectedReconnects(w: World, c: S.Config, c1: S.Config, c2: S.Config, r: S.Config)
    requires Acyclic(NBIOT_GRAPH) && Stable(c1) && Quiet(c1) && c1.state == DisconnectedState
    requires c1.asked == c.asked && c1.initialized == c.initialized
    requires c2 == S.Send(NBIOT_GRAPH, w, c1, ConnectEvent) && r == c2.(duration := 0)
    ensures Connecting(w, c.(duration := 0), r)
  {
    ConnectMoves(w, c1, c2);
    ConnectingForgets(w, c1, c2);
    SameConnecting(w, c.(duration := 0), c1.(duration := 0), r);
  }

  lemma {:induction false} DeepReconnects(w: World, c: S.Config, c1: S.Config, c2: S.Config)
    requires Acyclic(NBIOT_GRAPH) && StartsAgain(w, c, c1) && c1.timer == Started(w.clock(c.ticks), 60000)
    requires c1.ticks == c.ticks + 1 && c2 == S.Send(NBIOT_GRAPH, w, c1, ConnectEvent)
    ensures !MinuteIsOver(w.clock(c.ticks), w.clock(c.ticks + 1)) ==> Resumes(w, c1, c2)
  {
    LateIsMinute(w, c1, c.ticks);
    if !MinuteIsOver(w.clock(c.ticks), w.clock(c.ticks + 1)) {
      InitialConnects(w, c1, c2);
    }
  }

  lemma {:induction false} ConnectedReconnects(w: World, c: S.Config, r: S.Config)
    requires Acyclic(NBIOT_GRAPH) && Stable(c) && Quiet(c) && c.state == ConnectedState
    requires r == S.Send(NBIOT_GRAPH, w, c, ConnectEvent)
    ensures Remains(c, r)
  {
    RestStays(w, c, ConnectEvent, r);
  }

  lemma {:induction false} WakeupRuns(w: World, c: S.Config, again: bool, c1: S.Config)
    requires Acyclic(NBIOT_GRAPH) && c1 == Run(w, c, LeaveSleepOps(c))
    ensures Run(w, c, WakeupOps(c, again)) ==
            (if again then S.Send(NBIOT_GRAPH, w, c1, ConnectEvent) else c1).(duration := 0)
  {
    var rest := (if again then [SendOp(ConnectEvent)] else []) + [DurationOp(0)];
    assert WakeupOps(c, again) == LeaveSleepOps(c) + rest;
    RunConcat(w, c, LeaveSleepOps(c), rest);
    if again {
      assert rest == [SendOp(ConnectEvent), DurationOp(0)];
      RunTwo(w, c1, SendOp(ConnectEvent), DurationOp(0));
    } else {
      assert rest == [DurationOp(0)];
      RunOne(w, c1, DurationOp(0));
    }
  }

  lemma {:induction false} WakeupLeads(w: World, c: S.Config, again: bool)
    requires Acyclic(NBIOT_GRAPH) && Stable(c) && Quiet(c)
    ensures WakesUp(w, c, again, Run(w, c, WakeupOps(c, again)))
  {
    var c1 := Run(w, c, LeaveSleepOps(c));
    LeaveSleepLeads(w, c);
    WakeupRuns(w, c, again, c1);
    if again {
      var c2 := S.Send(NBIOT_GRAPH, w, c1, ConnectEvent);
      QuietStates(c);
      ReconnectLeads(w, c, c1, c2, c2.(duration := 0));
    } else {
      PlainlyWakes(w, c, c1, c1.(duration := 0));
    }
  }

  lemma {:induction false} PlainlyWakes(w: World, c: S.Config, c1: S.Config, r: S.Config)
    requires LeavesSleep(w, c, c1) && r == c1.(duration := 0)
    ensures WakesUp(w, c, false, r)
  {
  }

  // ----- where a cycle of the event loop leads -----

  /** What the end of a cycle comes to. A publish that fails is noted, and its disconnect is left for the next
      dispatch. */
  predicate Finishes(w: World, c: S.Config, outcome: LoopOutcome, r: S.Config) {
    match outcome
    case LoopPending => r == c
    case LoopIdle => if Late(w, c) then TimesOut(w, c, r) else Remains(c, r)
    case SessionDone(connected) =>
      && r.state == c.state && r.initialized == c.initialized && r.events == []
      && r.pending == if connected then [S.NewEvent(ConnectedEvent)] else []
    case SessionFailed(publish, invalidTopic) =>
      if publish && !invalidTopic then
        c.state == ConnectedState ==>
          r.state == ConnectedState && r.initialized && r.errno == ConnectionError && Queued(r, DisconnectEvent)
      else if Late(w, c) then TimesOut(w, c, r) else Remains(c, r)
  }

  lemma {:induction false} FinishLeads(w: World, c: S.Config, outcome: LoopOutcome)
    requires Acyclic(NBIOT_GRAPH) && Stable(c) && Quiet(c)
    ensures Finishes(w, c, outcome, Run(w, c, OutcomeOps(outcome)))
  {
    match outcome
    case LoopPending =>
    case LoopIdle => IdleLeads(w, c, OutcomeOps(outcome));
    case SessionDone(connected) =>
      if connected {
        RunOne(w, c, PostOp(ConnectedEvent));
        assert [] + [S.NewEvent(ConnectedEvent)] == [S.NewEvent(ConnectedEvent)];
      }
    case SessionFailed(publish, invalidTopic) =>
      if publish && !invalidTopic {
        FailedPublishLeads(w, c, outcome);
      } else {
        IdleLeads(w, c, OutcomeOps(outcome));
      }
  }

  lemma {:induction false} IdleLeads(w: World, c: S.Config, ops: seq<Op>)
    requires Acyclic(NBIOT_GRAPH) && Stable(c) && Quiet(c) && ops == [DispatchOp]
    ensures if Late(w, c) then TimesOut(w, c, Run(w, c, ops)) else Remains(c, Run(w, c, ops))
  {
    RunOne(w, c, DispatchOp);
    DispatchIdles(w, c, S.Dispatch(NBIOT_GRAPH, w, c));
  }

  lemma {:induction false} FailedPublishLeads(w: World, c: S.Config, outcome: LoopOutcome)
    requires Acyclic(NBIOT_GRAPH) && Stable(c) && Quiet(c) && outcome == SessionFailed(true, false)
    ensures Finishes(w, c, outcome, Run(w, c, OutcomeOps(outcome)))
  {
    assert OutcomeOps(outcome) == [ErrnoOp(ConnectionError), PostOp(DisconnectEvent), DispatchOp];
    RunThree(w, c, ErrnoOp(ConnectionError), PostOp(DisconnectEvent), DispatchOp);
    var c1 := S.Post(c.(errno := ConnectionError), DisconnectEvent);
    assert c1.pending == [S.NewEvent(DisconnectEvent)];
    if c.state == ConnectedState {
      QuietStates(c);
      RestIsNotLate(w, c);
      DispatchNone(w, c1);
    }
  }

  /** What a cycle without notices comes to: it ends as its loop step does, from where a sleeping client that is to be
      awake for its ping was woken. */
  predicate Cycles(w: World, c: S.Config, asleep: bool, outcome: LoopOutcome, r: S.Config) {
    if asleep && c.state == ConnectedSleepState then
      outcome == LoopPending ==> Reaches(w, c, 0, ConnectedAwakeState, r)
    else Finishes(w, c, outcome, r)
  }

  lemma {:induction false} CycleLeads(w: World, c: S.Config, asleep: bool, outcome: LoopOutcome)
    requires Acyclic(NBIOT_GRAPH) && Stable(c) && Quiet(c)
    ensures Cycles(w, c, asleep, outcome, Run(w, c, CycleStart(c, asleep) + OutcomeOps(outcome)))
  {
    if asleep && c.state == ConnectedSleepState {
      if outcome == LoopPending {
        assert CycleStart(c, asleep) + OutcomeOps(outcome) == [SendOp(ConnectedAwakeEvent)];
        RunOne(w, c, SendOp(ConnectedAwakeEvent));
        SleepAwakens(w, c, S.Send(NBIOT_GRAPH, w, c, ConnectedAwakeEvent));
      }
    } else {
      assert CycleStart(c, asleep) + OutcomeOps(outcome) == OutcomeOps(outcome);
      FinishLeads(w, c, outcome);
    }
  }

  /** What a notice comes to: a disconnect of the gateway disconnects, unless the client sleeps connected; a ping
      response ends being awake; and a finished attachment is posted. */
  predicate Notices(w: World, c: S.Config, n: Notice, r: S.Config) {
    match n
    case GatewayDisconnect =>
      && (c.state == ConnectedState || c.state == DisconnectedSleepState ==> Quiet(r) && r.state == DisconnectedState)
      && (c.state != ConnectedState && c.state != DisconnectedSleepState ==> r == c)
    case PingResponse =>
      if c.state == ConnectedAwakeState then Quiet(r) && r.state == ConnectedSleepState else r == c
    case AttachFinished =>
      r.state == c.state && r.initialized == c.initialized && r.events == [] && r.pending == [S.NewEvent(AttachedEvent)]
  }

  lemma {:induction false} NoticeLeads(w: World, c: S.Config, n: Notice)
    requires Acyclic(NBIOT_GRAPH) && Stable(c) && Quiet(c)
    ensures Notices(w, c, n, Run(w, c, NoticeOps(c, n)))
  {
    match n
    case GatewayDisconnect =>
      if c.state != ConnectedSleepState && c.state != ConnectedAwakeState {
        DisconnectLeads(w, c);
      }
    case PingResponse =>
      if c.state == ConnectedAwakeState {
        RunOne(w, c, SendOp(AwakeSleepEvent));
        AwakeSleeps(w, c, S.Send(NBIOT_GRAPH, w, c, AwakeSleepEvent));
      }
    case AttachFinished =>
      RunOne(w, c, PostOp(AttachedEvent));
      assert [] + [S.NewEvent(AttachedEvent)] == [S.NewEvent(AttachedEvent)];
  }
}
