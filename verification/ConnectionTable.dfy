/** The wiring that setUpStateMachine builds, the same machine as a flat table, and the proof that
    walking the graph is looking up the table. */
module ConnectionTable {
  import opened Common
  import opened ConnectionTypes
  import S = ConnectionSpec

  function Target(t: TransitionId): Node {
    match t
    case Initialize => GuardNode(IsInitialized)
    case InitialTimeout => GuardNode(IsInitialized)
    case IsInitializedDisconnected => StateNode(DisconnectedState)
    case IsInitializedError => StateNode(ErrorState)
    case Connect => GuardNode(IsAttached)
    case IsNotAttached => StateNode(WaitForAttachState)
    case IsAttachedIpConnect => GuardNode(IsIpConnected)
    case IsAttachedError => StateNode(ErrorState)
    case IsIpConnectedError => StateNode(ErrorState)
    case IsConnectedConnected => StateNode(ConnectedState)
    case WaitConnectIsConnected => StateNode(WaitForConnectState)
    case IsConnectedError => StateNode(ErrorState)
    case Sleep => StateNode(ConnectedSleepState)
    case Wakeup => StateNode(ConnectedState)
    case SleepAwake => StateNode(ConnectedAwakeState)
    case AwakeSleep => StateNode(ConnectedSleepState)
    case AwakeActive => StateNode(ConnectedState)
    case AwakeTimeout => StateNode(ConnectedSleepState)
    case Hibernate => StateNode(DeepSleepState)
    case ReInitialize => StateNode(InitialState)
    case Disconnect => StateNode(DisconnectedState)
    case ErrorDisconnect => StateNode(DisconnectedState)
    case ErrorReInitialize => StateNode(InitialState)
    case ErrorTimeout => StateNode(InitialState)
    case DisSleep => StateNode(DisconnectedSleepState)
    case DisWakeup => StateNode(DisconnectedState)
    case DisHibernate => StateNode(DeepSleepState)
  }

  /** The event type of a transition; those only reached through a choice keep the initial Invalid. */
  function EventOf(t: TransitionId): EventType {
    match t
    case Initialize => InitializeEvent
    case InitialTimeout => TimerEvent
    case Connect => ConnectEvent
    case IsAttachedIpConnect => AttachedEvent
    case IsAttachedError => TimerEvent
    case IsConnectedConnected => ConnectedEvent
    case IsConnectedError => TimerEvent
    case Sleep => SleepEvent
    case Wakeup => WakeupEvent
    case SleepAwake => ConnectedAwakeEvent
    case AwakeSleep => AwakeSleepEvent
    case AwakeActive => AwakeActiveEvent
    case AwakeTimeout => TimerEvent
    case Hibernate => HibernateEvent
    case ReInitialize => ReInitializeEvent
    case Disconnect => DisconnectEvent
    case ErrorDisconnect => ErrorDisconnectEvent
    case ErrorReInitialize => ReInitializeEvent
    case ErrorTimeout => TimerEvent
    case DisSleep => SleepEvent
    case DisWakeup => WakeupEvent
    case DisHibernate => HibernateEvent
    case _ => InvalidEvent
  }

  function WhenTrue(b: ChoiceId): Option<TransitionId> {
    match b
    case IsInitialized => Some(IsInitializedDisconnected)
    case IsAttached => Some(IsAttachedIpConnect)
    case IsIpConnected => Some(WaitConnectIsConnected)
  }

  function WhenFalse(b: ChoiceId): Option<TransitionId> {
    match b
    case IsInitialized => Some(IsInitializedError)
    case IsAttached => Some(IsNotAttached)
    case IsIpConnected => Some(IsIpConnectedError)
  }

  function TransitionsOf(s: StateId): seq<TransitionId> {
    match s
    case InitialState => [Initialize, InitialTimeout]
    case DisconnectedState => [Connect, DisSleep, DisHibernate]
    case ErrorState => [ErrorDisconnect, ErrorReInitialize, ErrorTimeout]
    case ConnectedState => [Sleep, Hibernate, Disconnect]
    case ConnectedSleepState => [Wakeup, SleepAwake]
    case ConnectedAwakeState => [AwakeSleep, AwakeActive, AwakeTimeout]
    case DeepSleepState => [ReInitialize]
    case DisconnectedSleepState => [DisWakeup]
    case WaitForAttachState => [IsAttachedIpConnect, IsAttachedError]
    case WaitForConnectState => [IsConnectedConnected, IsConnectedError]
    case InvalidState => []
  }

  function RankOf(t: TransitionId): nat {
    match t
    case Connect => 2
    case IsAttachedIpConnect => 1
    case Initialize => 1
    case InitialTimeout => 1
    case _ => 0
  }

  const NBIOT_GRAPH := Graph(
    t => Target(t), t => EventOf(t), b => true, b => WhenTrue(b), b => WhenFalse(b),
    s => TransitionsOf(s), t => RankOf(t))

  lemma {:induction false} TargetsDescend(t: TransitionId)
    ensures match Target(t)
      case GuardNode(b) => RankOf(WhenTrue(b).value) < RankOf(t) && RankOf(WhenFalse(b).value) < RankOf(t)
      case StateNode(_) => true
      case _ => false
  {
  }

  lemma {:induction false} NbiotGraphAcyclic()
    ensures Acyclic(NBIOT_GRAPH)
  {
    forall t ensures Descends(NBIOT_GRAPH, t) {
      TargetsDescend(t);
      var node := Target(t);
      assert NBIOT_GRAPH.target(t) == node;
    }
  }

  // ----- the flat table -----

  datatype Move = Stay | Go(path: seq<TransitionId>, answers: nat, to: StateId)

  /** From state `s`, on event `kind`: the transitions that fire, how many modem answers they use
      (`first`, `second`), and the state that is entered. */
  function Next(s: StateId, kind: EventType, initialized: bool, first: bool, second: bool): Move {
    match (s, kind)
    case (InitialState, InitializeEvent) => FromInitial(Initialize, initialized)
    case (InitialState, TimerEvent) => FromInitial(InitialTimeout, initialized)
    case (DisconnectedState, ConnectEvent) => FromConnect(first, second)
    case (DisconnectedState, SleepEvent) => Go([DisSleep], 0, DisconnectedSleepState)
    case (DisconnectedState, HibernateEvent) => Go([DisHibernate], 0, DeepSleepState)
    case (ErrorState, ErrorDisconnectEvent) => Go([ErrorDisconnect], 0, DisconnectedState)
    case (ErrorState, ReInitializeEvent) => Go([ErrorReInitialize], 0, InitialState)
    case (ErrorState, TimerEvent) => Go([ErrorTimeout], 0, InitialState)
    case (ConnectedState, SleepEvent) => Go([Sleep], 0, ConnectedSleepState)
    case (ConnectedState, HibernateEvent) => Go([Hibernate], 0, DeepSleepState)
    case (ConnectedState, DisconnectEvent) => Go([Disconnect], 0, DisconnectedState)
    case (ConnectedSleepState, WakeupEvent) => Go([Wakeup], 0, ConnectedState)
    case (ConnectedSleepState, ConnectedAwakeEvent) => Go([SleepAwake], 0, ConnectedAwakeState)
    case (ConnectedAwakeState, AwakeSleepEvent) => Go([AwakeSleep], 0, ConnectedSleepState)
    case (ConnectedAwakeState, AwakeActiveEvent) => Go([AwakeActive], 0, ConnectedState)
    case (ConnectedAwakeState, TimerEvent) => Go([AwakeTimeout], 0, ConnectedSleepState)
    case (DeepSleepState, ReInitializeEvent) => Go([ReInitialize], 0, InitialState)
    case (DisconnectedSleepState, WakeupEvent) => Go([DisWakeup], 0, DisconnectedState)
    case (WaitForAttachState, AttachedEvent) => FromAttached(first)
    case (WaitForAttachState, TimerEvent) => Go([IsAttachedError], 0, ErrorState)
    case (WaitForConnectState, ConnectedEvent) => Go([IsConnectedConnected], 0, ConnectedState)
    case (WaitForConnectState, TimerEvent) => Go([IsConnectedError], 0, ErrorState)
    case _ => Stay
  }

  function FromInitial(t: TransitionId, initialized: bool): Move {
    if initialized then Go([t, IsInitializedDisconnected], 0, DisconnectedState)
    else Go([t, IsInitializedError], 0, ErrorState)
  }

  /** Not attached: wait for it. Attached: try the network and wait for the gateway, or fail. */
  function FromConnect(attached: bool, ipConnected: bool): Move {
    if !attached then Go([Connect, IsNotAttached], 1, WaitForAttachState)
    else if ipConnected then Go([Connect, IsAttachedIpConnect, WaitConnectIsConnected], 2, WaitForConnectState)
    else Go([Connect, IsAttachedIpConnect, IsIpConnectedError], 2, ErrorState)
  }

  function FromAttached(ipConnected: bool): Move {
    if ipConnected then Go([IsAttachedIpConnect, WaitConnectIsConnected], 1, WaitForConnectState)
    else Go([IsAttachedIpConnect, IsIpConnectedError], 1, ErrorState)
  }

  function FireAll(c: S.Config, path: seq<TransitionId>): S.Config
    decreases |path|
  {
    if path == [] then c
    else FireAll(S.Fire(path[0], c), path[1..])
  }

  function NextOf(w: World, c: S.Config, kind: EventType): Move {
    Next(c.state, kind, c.initialized, w.modem(c.asked), w.modem(c.asked + 1))
  }

  /** One event, by the table: fire, then enter exactly one state; or nothing but the note that the
      event was ignored. */
  function FlatHandle(w: World, c: S.Config, ev: StmEvent): S.Config {
    Perform(w, c, ev, NextOf(w, c, ev.kind))
  }

  function Perform(w: World, c: S.Config, ev: StmEvent, m: Move): S.Config {
    match m
    case Stay => S.Record(c, EventDone(ev.kind, ev.id, c.state, c.initialized, Ignored))
    case Go(path, answers, to) =>
      var fired := FireAll(c.(asked := c.asked + answers), path);
      S.Record(S.Enter(w, fired, to, ev.kind), EventDone(ev.kind, ev.id, c.state, c.initialized, Handled))
  }

  // ----- the walk is the table -----

  lemma {:induction false} FireOne(c: S.Config, t: TransitionId)
    ensures FireAll(c, [t]) == S.Fire(t, c)
  {
    assert [t][1..] == [];
  }

  lemma {:induction false} FirePrepend(c: S.Config, t: TransitionId, path: seq<TransitionId>)
    ensures FireAll(c, [t] + path) == FireAll(S.Fire(t, c), path)
  {
    assert ([t] + path)[1..] == path;
  }

  lemma {:induction false} FireAsked(c: S.Config, t: TransitionId, n: nat)
    ensures S.Fire(t, c.(asked := n)) == S.Fire(t, c).(asked := n)
  {
  }

  function FirstFired(m: Move): Option<TransitionId> {
    match m
    case Stay => None
    case Go(path, _, _) => if path == [] then None else Some(path[0])
  }

  function Scan3(ts: seq<TransitionId>, kind: EventType): Option<TransitionId> {
    if |ts| > 0 && EventOf(ts[0]) == kind then Some(ts[0])
    else if |ts| > 1 && EventOf(ts[1]) == kind then Some(ts[1])
    else if |ts| > 2 && EventOf(ts[2]) == kind then Some(ts[2])
    else None
  }

  /** The scan, unrolled over the at most three transitions of a state. */
  lemma {:induction false} FirstOf(ts: seq<TransitionId>, kind: EventType)
    requires |ts| <= 3
    ensures S.FirstMatch(NBIOT_GRAPH, ts, kind) == Scan3(ts, kind)
  {
    if |ts| > 1 {
      FirstOf(ts[1..], kind);
    }
  }

  lemma {:induction false} ScanIsTableUnconnected(s: StateId, kind: EventType, initialized: bool, first: bool, second: bool)
    requires s.InitialState? || s.DisconnectedState? || s.ErrorState?
    ensures Scan3(TransitionsOf(s), kind) == FirstFired(Next(s, kind, initialized, first, second))
  {
  }

  lemma {:induction false} ScanIsTableAsleep(s: StateId, kind: EventType, initialized: bool, first: bool, second: bool)
    requires s.ConnectedSleepState? || s.ConnectedAwakeState? || s.DeepSleepState? || s.DisconnectedSleepState?
    ensures Scan3(TransitionsOf(s), kind) == FirstFired(Next(s, kind, initialized, first, second))
  {
  }

  lemma {:induction false} ScanIsTableConnecting(s: StateId, kind: EventType, initialized: bool, first: bool, second: bool)
    requires s.ConnectedState? || s.WaitForAttachState? || s.WaitForConnectState? || s.InvalidState?
    ensures Scan3(TransitionsOf(s), kind) == FirstFired(Next(s, kind, initialized, first, second))
  {
  }

  /** The transition a state picks for an event is the one the table fires first. */
  lemma {:induction false} FirstMatchIsTable(s: StateId, kind: EventType, initialized: bool, first: bool, second: bool)
    ensures S.FirstMatch(NBIOT_GRAPH, TransitionsOf(s), kind) == FirstFired(Next(s, kind, initialized, first, second))
  {
    FirstOf(TransitionsOf(s), kind);
    match s
    case InitialState => ScanIsTableUnconnected(s, kind, initialized, first, second);
    case DisconnectedState => ScanIsTableUnconnected(s, kind, initialized, first, second);
    case ErrorState => ScanIsTableUnconnected(s, kind, initialized, first, second);
    case ConnectedState => ScanIsTableConnecting(s, kind, initialized, first, second);
    case WaitForAttachState => ScanIsTableConnecting(s, kind, initialized, first, second);
    case WaitForConnectState => ScanIsTableConnecting(s, kind, initialized, first, second);
    case InvalidState => ScanIsTableConnecting(s, kind, initialized, first, second);
    case _ => ScanIsTableAsleep(s, kind, initialized, first, second);
  }

  // ----- routes -----

  lemma {:induction false} RouteToState(w: World, c: S.Config, t: TransitionId)
    requires Target(t).StateNode? && Acyclic(NBIOT_GRAPH)
    ensures S.Route(NBIOT_GRAPH, w, c, t) == S.AtState(FireAll(c, [t]), Target(t).state)
  {
    FireOne(c, t);
  }

  function Asks(t: TransitionId): nat
    requires Target(t).GuardNode?
  {
    if Target(t).choice.IsInitialized? then 0 else 1
  }

  function AnswerOf(w: World, c: S.Config, b: ChoiceId): bool {
    if b.IsInitialized? then c.initialized else w.modem(c.asked)
  }

  /** Behind a transition to a choice: at most one modem answer used, and one of two transitions next. */
  function AfterChoice(w: World, c: S.Config, t: TransitionId): (r: (S.Config, TransitionId))
    requires Target(t).GuardNode?
    ensures r.0.asked == c.asked + Asks(t)
  {
    var b := Target(t).choice;
    (S.Fire(t, c).(asked := c.asked + Asks(t)), if AnswerOf(w, c, b) then WhenTrue(b).value else WhenFalse(b).value)
  }

  lemma {:induction false} RouteToGuard(w: World, c: S.Config, t: TransitionId)
    requires Target(t).GuardNode? && Acyclic(NBIOT_GRAPH) && Descends(NBIOT_GRAPH, t)
    ensures S.Route(NBIOT_GRAPH, w, c, t) == S.Choose(NBIOT_GRAPH, w, S.Fire(t, c), Target(t).choice, RankOf(t))
  {
  }

  lemma {:induction false} ConditionAnswers(w: World, c: S.Config, t: TransitionId)
    requires Target(t).GuardNode?
    ensures
      var b := Target(t).choice;
      S.Condition(w, S.Fire(t, c), b) == (AnswerOf(w, c, b), AfterChoice(w, c, t).0)
  {
  }

  lemma {:induction false} ChooseGoesOn(w: World, c: S.Config, t: TransitionId)
    requires Target(t).GuardNode? && Acyclic(NBIOT_GRAPH) && Descends(NBIOT_GRAPH, t)
    ensures
      var (c1, u) := AfterChoice(w, c, t);
      S.Choose(NBIOT_GRAPH, w, S.Fire(t, c), Target(t).choice, RankOf(t)) == S.Route(NBIOT_GRAPH, w, c1, u)
  {
    ConditionAnswers(w, c, t);
  }

  lemma {:induction false} RouteToChoice(w: World, c: S.Config, t: TransitionId)
    requires Target(t).GuardNode? && Acyclic(NBIOT_GRAPH)
    ensures
      var (c1, u) := AfterChoice(w, c, t);
      S.Route(NBIOT_GRAPH, w, c, t) == S.Route(NBIOT_GRAPH, w, c1, u)
  {
    assert Descends(NBIOT_GRAPH, t);
    RouteToGuard(w, c, t);
    ChooseGoesOn(w, c, t);
  }

  /** `m` is what the wiring makes of its first transition in configuration `c`. */
  predicate Row(w: World, c: S.Config, m: Move) {
    m.Go? && m.path != [] &&
    match m.path[0]
    case Initialize => m == FromInitial(Initialize, c.initialized)
    case InitialTimeout => m == FromInitial(InitialTimeout, c.initialized)
    case Connect => m == FromConnect(w.modem(c.asked), w.modem(c.asked + 1))
    case IsAttachedIpConnect => m == FromAttached(w.modem(c.asked))
    case t => Target(t).StateNode? && m == Go([t], 0, Target(t).state)
  }

  /** A walk that starts in `c` ends where the row says, with its transitions fired. */
  predicate Leads(a: S.Arrival, c: S.Config, m: Move)
    requires m.Go?
  {
    a == S.AtState(FireAll(c.(asked := c.asked + m.answers), m.path), m.to)
  }

  ghost predicate Walked(w: World, c: S.Config, m: Move)
    requires Acyclic(NBIOT_GRAPH) && m.Go? && m.path != []
  {
    Leads(S.Route(NBIOT_GRAPH, w, c, m.path[0]), c, m)
  }

  /** A transition in front of a path that starts behind a choice. */
  lemma {:induction false} FireFrontOfChoice(w: World, c: S.Config, t: TransitionId, c1: S.Config,
                 path: seq<TransitionId>, longer: seq<TransitionId>, n: nat)
    requires Target(t).GuardNode? && c1 == AfterChoice(w, c, t).0 && longer == [t] + path
    ensures FireAll(c.(asked := n), longer) == FireAll(c1.(asked := n), path)
  {
    FirePrepend(c.(asked := n), t, path);
    FireAsked(c, t, n);
  }

  /** A choice that asks nothing, or one modem answer, in front of a walk that is already known. */
  lemma {:induction false} ChoiceThenLeads(a: S.Arrival, c: S.Config, c1: S.Config, m: Move, m2: Move, n: nat)
    requires m.Go? && m2.Go? && Leads(a, c1, m) && m2.to == m.to
    requires n == c1.asked + m.answers == c.asked + m2.answers
    requires FireAll(c.(asked := n), m2.path) == FireAll(c1.(asked := n), m.path)
    ensures Leads(a, c, m2)
  {
  }

  lemma {:induction false} StateIsWalked(w: World, c: S.Config, t: TransitionId)
    requires Acyclic(NBIOT_GRAPH) && Target(t).StateNode?
    ensures Walked(w, c, Go([t], 0, Target(t).state))
  {
    RouteToState(w, c, t);
  }

  lemma {:induction false} ChoiceLeads(w: World, c: S.Config, t: TransitionId, c1: S.Config, m: Move, m2: Move,
                 a: S.Arrival)
    requires Target(t).GuardNode? && c1 == AfterChoice(w, c, t).0 && m.Go? && Leads(a, c1, m)
    requires m2 == Go([t] + m.path, m.answers + Asks(t), m.to)
    ensures Leads(a, c, m2)
  {
    var n := c1.asked + m.answers;
    FireFrontOfChoice(w, c, t, c1, m.path, m2.path, n);
    ChoiceThenLeads(a, c, c1, m, m2, n);
  }

  /** A walk through a choice: the row of its branch with one more transition in front. */
  lemma {:induction false} ChoiceIsWalked(w: World, c: S.Config, t: TransitionId, c1: S.Config, u: TransitionId, m: Move,
                 m2: Move)
    requires Acyclic(NBIOT_GRAPH) && Target(t).GuardNode? && (c1, u) == AfterChoice(w, c, t)
    requires m.Go? && Leads(S.Route(NBIOT_GRAPH, w, c1, u), c1, m)
    requires m2 == Go([t] + m.path, m.answers + Asks(t), m.to)
    ensures Leads(S.Route(NBIOT_GRAPH, w, c, t), c, m2)
  {
    RouteToChoice(w, c, t);
    ChoiceLeads(w, c, t, c1, m, m2, S.Route(NBIOT_GRAPH, w, c1, u));
  }

  lemma {:induction false} RouteFromInitial(w: World, c: S.Config, t: TransitionId)
    requires (t == Initialize || t == InitialTimeout) && Acyclic(NBIOT_GRAPH)
    ensures Walked(w, c, FromInitial(t, c.initialized))
  {
    var (c1, u) := AfterChoice(w, c, t);
    StateIsWalked(w, c1, u);
    assert [t] + [u] == [t, u];
    ChoiceIsWalked(w, c, t, c1, u, Go([u], 0, Target(u).state), FromInitial(t, c.initialized));
  }

  lemma {:induction false} RouteFromAttached(w: World, c: S.Config, ipConnected: bool)
    requires Acyclic(NBIOT_GRAPH) && ipConnected == w.modem(c.asked)
    ensures Walked(w, c, FromAttached(ipConnected))
  {
    var (c1, u) := AfterChoice(w, c, IsAttachedIpConnect);
    StateIsWalked(w, c1, u);
    assert [IsAttachedIpConnect] + [u] == [IsAttachedIpConnect, u];
    ChoiceIsWalked(w, c, IsAttachedIpConnect, c1, u, Go([u], 0, Target(u).state), FromAttached(ipConnected));
  }

  lemma {:induction false} RouteFromConnectUnattached(w: World, c: S.Config)
    requires Acyclic(NBIOT_GRAPH) && !w.modem(c.asked)
    ensures Walked(w, c, FromConnect(false, w.modem(c.asked + 1)))
  {
    var (c1, u) := AfterChoice(w, c, Connect);
    StateIsWalked(w, c1, u);
    assert [Connect] + [u] == [Connect, IsNotAttached];
    ChoiceIsWalked(w, c, Connect, c1, u, Go([u], 0, WaitForAttachState), FromConnect(false, w.modem(c.asked + 1)));
  }

  lemma {:induction false} ConnectThenAttached(ipConnected: bool)
    ensures
      var m := FromAttached(ipConnected);
      FromConnect(true, ipConnected) == Go([Connect] + m.path, m.answers + 1, m.to)
  {
  }

  lemma {:induction false} RouteFromConnectAttached(w: World, c: S.Config)
    requires Acyclic(NBIOT_GRAPH) && w.modem(c.asked)
    ensures Walked(w, c, FromConnect(true, w.modem(c.asked + 1)))
  {
    var ipConnected := w.modem(c.asked + 1);
    var (c1, u) := AfterChoice(w, c, Connect);
    RouteFromAttached(w, c1, ipConnected);
    ConnectThenAttached(ipConnected);
    ChoiceIsWalked(w, c, Connect, c1, u, FromAttached(ipConnected), FromConnect(true, ipConnected));
  }

  lemma {:induction false} RowIsWalked(w: World, c: S.Config, m: Move)
    requires Acyclic(NBIOT_GRAPH) && Row(w, c, m)
    ensures Walked(w, c, m)
  {
    match m.path[0]
    case Initialize => RouteFromInitial(w, c, Initialize);
    case InitialTimeout => RouteFromInitial(w, c, InitialTimeout);
    case Connect =>
      if w.modem(c.asked) {
        RouteFromConnectAttached(w, c);
      } else {
        RouteFromConnectUnattached(w, c);
      }
    case IsAttachedIpConnect => RouteFromAttached(w, c, w.modem(c.asked));
    case t => StateIsWalked(w, c, t);
  }

  lemma {:induction false} NextIsRow(w: World, c: S.Config, kind: EventType)
    ensures NextOf(w, c, kind).Go? ==> Row(w, c, NextOf(w, c, kind))
  {
  }

  /** A walk that has arrived as its row says, finished and recorded. */
  lemma {:induction false} ArrivedIsPerform(w: World, c: S.Config, ev: StmEvent, m: Move, a: S.Arrival, done: S.Outcome)
    requires m.Go? && Leads(a, c, m) && done == S.Finish(w, a, ev.kind)
    ensures S.Record(done.config, EventDone(ev.kind, ev.id, c.state, c.initialized, done.result)) == Perform(w, c, ev, m)
  {
  }

  lemma {:induction false} HandleIsPerform(w: World, c: S.Config, ev: StmEvent, m: Move)
    requires Acyclic(NBIOT_GRAPH)
    requires S.FirstMatch(NBIOT_GRAPH, TransitionsOf(c.state), ev.kind) == FirstFired(m)
    requires m.Go? ==> m.path != [] && Walked(w, c, m)
    ensures S.Handle(NBIOT_GRAPH, w, c, ev) == Perform(w, c, ev, m)
  {
    if m.Go? {
      var a := S.Route(NBIOT_GRAPH, w, c, m.path[0]);
      ArrivedIsPerform(w, c, ev, m, a, S.Finish(w, a, ev.kind));
    }
  }

  /** Main result: what the dispatcher does with one event, by walking transitions, choices and states,
      is one row of the table; no event is ever aborted, and an accepted one enters one state. */
  lemma {:induction false} WalkIsTable(w: World, c: S.Config, ev: StmEvent)
    requires Acyclic(NBIOT_GRAPH)
    ensures S.Handle(NBIOT_GRAPH, w, c, ev) == FlatHandle(w, c, ev)
  {
    var m := NextOf(w, c, ev.kind);
    FirstMatchIsTable(c.state, ev.kind, c.initialized, w.modem(c.asked), w.modem(c.asked + 1));
    if m.Go? {
      NextIsRow(w, c, ev.kind);
      RowIsWalked(w, c, m);
    }
    HandleIsPerform(w, c, ev, m);
  }
}
