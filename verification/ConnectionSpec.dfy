/** States, events and transitions of the connection state machine. */
module ConnectionTypes {
  import opened Common

  datatype StateId =
    | InvalidState | InitialState | DisconnectedState | ErrorState | ConnectedState
    | ConnectedSleepState | DeepSleepState | DisconnectedSleepState | ConnectedAwakeState
    | WaitForAttachState | WaitForConnectState

  datatype EventType =
    | InvalidEvent | TimerEvent
    | InitializeEvent | ConnectEvent | SleepEvent | WakeupEvent | ConnectedAwakeEvent
    | AwakeSleepEvent | AwakeActiveEvent | HibernateEvent | ReInitializeEvent | DisconnectEvent
    | ErrorDisconnectEvent | CheckAttachmentEvent | CheckConnectedEvent | ConnectedEvent | AttachedEvent

  datatype EventState = Pending | Accepted | Ignored | Aborted | Handled

  datatype StmEvent = StmEvent(kind: EventType, status: EventState, id: int)

  datatype ErrorNumber =
    | Success | InitializeError | GprsNotConnected | IpNotConnected | ConnectionError | NotStartedError

  datatype TransitionId =
    | Initialize | InitialTimeout | IsInitializedDisconnected | IsInitializedError
    | Connect | IsNotAttached | IsAttachedIpConnect | IsAttachedError | IsIpConnectedError
    | IsConnectedConnected | WaitConnectIsConnected | IsConnectedError
    | Sleep | Wakeup | SleepAwake | AwakeSleep | AwakeActive | AwakeTimeout | Hibernate
    | ReInitialize | Disconnect | ErrorDisconnect | ErrorReInitialize | ErrorTimeout
    | DisSleep | DisWakeup | DisHibernate

  datatype ChoiceId = IsInitialized | IsAttached | IsIpConnected

  /** What a transition can point at. */
  datatype Node =
    | NullNode
    | MachineNode
    | TransitionNode(transition: TransitionId)
    | GuardNode(choice: ChoiceId)
    | StateNode(state: StateId)

  /** The wiring of a machine: the state-machine library walks any such graph. */
  datatype Graph = Graph(
    target: TransitionId -> Node,
    event: TransitionId -> EventType,
    hasCondition: ChoiceId -> bool,
    whenTrue: ChoiceId -> Option<TransitionId>,
    whenFalse: ChoiceId -> Option<TransitionId>,
    transitions: StateId -> seq<TransitionId>,
    rank: TransitionId -> nat)

  /** No walk from a transition comes back to it. */
  ghost predicate Acyclic(g: Graph) {
    forall t :: Descends(g, t)
  }

  predicate Descends(g: Graph, t: TransitionId) {
    match g.target(t)
    case TransitionNode(u) => g.rank(u) < g.rank(t)
    case GuardNode(b) =>
      && (g.whenTrue(b).Some? ==> g.rank(g.whenTrue(b).value) < g.rank(t))
      && (g.whenFalse(b).Some? ==> g.rank(g.whenFalse(b).value) < g.rank(t))
    case _ => true
  }

  /** What an observer of the machine sees, in order. */
  datatype Step =
    | EventDone(kind: EventType, id: int, at: StateId, initialized: bool, result: EventState)
    | Fired(transition: TransitionId)
    | Entered(state: StateId)
    | Posted(kind: EventType)
    | Rebooted(at: StateId)

  /** Everything the code asks of the outside: the n-th answer of the modem, the n-th clock reading. */
  datatype World = World(modem: nat -> bool, clock: nat -> int)

  ghost predicate ClockAboveZero(w: World) {
    forall i: nat :: w.clock(i) > 0
  }
}

/** What the code does, as functions on configurations: actions, the graph walk, the dispatcher. */
module ConnectionSpec {
  import opened Common
  import opened ConnectionTypes
  import opened Timers

  const ONE_MINUTE := 60000
  const ONE_SECOND := 1000
  const RESTART_MODEM_THRESHOLD := 5
  const MAX_INT := 0x7fff_ffff

  datatype Config = Config(
    state: StateId,
    initialized: bool,
    hasLogin: bool,
    errno: ErrorNumber,
    restarts: nat,
    duration: nat,
    timer: TimerMarks,
    events: seq<StmEvent>,
    pending: seq<StmEvent>,
    eventId: int,
    asked: nat,
    ticks: nat,
    log: seq<Step>)

  datatype Outcome = Outcome(config: Config, result: EventState)

  function Record(c: Config, s: Step): Config {
    c.(log := c.log + [s])
  }

  function NewEvent(kind: EventType): StmEvent {
    StmEvent(kind, Pending, -1)
  }

  function Push(c: Config, kind: EventType): Config {
    c.(events := c.events + [NewEvent(kind)])
  }

  function Post(c: Config, kind: EventType): Config {
    Record(c.(pending := c.pending + [NewEvent(kind)]), Posted(kind))
  }

  function SetTimeout(w: World, c: Config, ms: int): Config {
    c.(timer := Started(w.clock(c.ticks), ms), ticks := c.ticks + 1)
  }

  function Ask(w: World, c: Config): (bool, Config) {
    (w.modem(c.asked), c.(asked := c.asked + 1))
  }

  // ----- actions of the transitions, conditions of the choices, entry actions of the states -----

  function TransitionAction(t: TransitionId, c: Config): Config {
    match t
    case IsInitializedError => c.(errno := InitializeError)
    case Connect => c.(errno := Success)
    case IsAttachedIpConnect => c.(restarts := 0)
    case IsAttachedError => c.(errno := GprsNotConnected, restarts := (c.restarts + 1) % 0x1_0000)
    case IsIpConnectedError => c.(errno := IpNotConnected)
    case IsConnectedError => c.(errno := ConnectionError)
    case _ => c
  }

  function Fire(t: TransitionId, c: Config): Config {
    Record(TransitionAction(t, c), Fired(t))
  }

  function Condition(w: World, c: Config, b: ChoiceId): (bool, Config) {
    match b
    case IsInitialized => (c.initialized, c)
    case IsAttached => Ask(w, c)
    case IsIpConnected => Ask(w, c)
  }

  /** Reboot (not when re-initializing), initialize the modem, find a login name. */
  function BringUp(w: World, c: Config, again: bool): (bool, Config) {
    var (rebooted, c1) := if again then (true, c) else Ask(w, Record(c, Rebooted(InitialState)));
    var (ready, c2) := if rebooted then Ask(w, c1) else (false, c1);
    if !ready || again then (ready, c2)
    else if c2.hasLogin then (true, c2)
    else
      var (imsi, c3) := Ask(w, c2);
      (imsi, c3.(hasLogin := imsi))
  }

  function InitialEntry(w: World, c: Config, kind: EventType): Config {
    var again := kind == ReInitializeEvent || kind == TimerEvent;
    var (ok, c1) := BringUp(w, c, again);
    var c2 := if again then Post(c1, InitializeEvent) else c1;
    SetTimeout(w, c2.(initialized := ok), ONE_MINUTE)
  }

  function ErrorEntry(w: World, c: Config): Config {
    if !c.initialized then SetTimeout(w, c, ONE_MINUTE)
    else if RESTART_MODEM_THRESHOLD <= c.restarts then
      Post(Record(c.(restarts := 0), Rebooted(ErrorState)), ReInitializeEvent)
    else
      Post(c, ErrorDisconnectEvent)
  }

  function EntryAction(w: World, c: Config, s: StateId, kind: EventType): Config {
    match s
    case InitialState => InitialEntry(w, c, kind)
    case DisconnectedState => c.(errno := Success)
    case ErrorState => ErrorEntry(w, c)
    case ConnectedState => c.(errno := Success)
    case ConnectedAwakeState => SetTimeout(w, c, ONE_SECOND * c.duration)
    case DeepSleepState => c.(initialized := false)
    case WaitForAttachState => SetTimeout(w, c, ONE_MINUTE)
    case WaitForConnectState => SetTimeout(w, c, ONE_MINUTE)
    case _ => c
  }

  /** Become the current state, disarm the state timer, run the entry action. */
  function Enter(w: World, c: Config, s: StateId, kind: EventType): (r: Config)
    ensures r.events == c.events && r.eventId == c.eventId && r.state == s
  {
    EntryAction(w, Arrive(c, s), s, kind)
  }

  function Arrive(c: Config, s: StateId): Config {
    Record(c.(state := s, timer := if c.timer.Armed() then CLEARED else c.timer), Entered(s))
  }

  // ----- the walk over the graph -----

  /** Where a walk ends: at a state about to be entered, or nowhere. */
  datatype Arrival = AtState(config: Config, state: StateId) | Lost(config: Config)

  ghost function Route(g: Graph, w: World, c: Config, t: TransitionId): (r: Arrival)
    requires Acyclic(g)
    ensures r.config.events == c.events && r.config.eventId == c.eventId
    decreases g.rank(t), 1
  {
    var c1 := Fire(t, c);
    assert Descends(g, t);
    match g.target(t)
    case TransitionNode(u) => Route(g, w, c1, u)
    case GuardNode(b) => Choose(g, w, c1, b, g.rank(t))
    case StateNode(s) => AtState(c1, s)
    case _ => Lost(c1)
  }

  ghost function Choose(g: Graph, w: World, c: Config, b: ChoiceId, bound: nat): (r: Arrival)
    requires Acyclic(g)
    requires g.whenTrue(b).Some? ==> g.rank(g.whenTrue(b).value) < bound
    requires g.whenFalse(b).Some? ==> g.rank(g.whenFalse(b).value) < bound
    ensures r.config.events == c.events && r.config.eventId == c.eventId
    decreases bound, 0
  {
    if !g.hasCondition(b) then Lost(c)
    else
      var (yes, c1) := Condition(w, c, b);
      match if yes then g.whenTrue(b) else g.whenFalse(b)
      case Some(t) => Route(g, w, c1, t)
      case None => Lost(c1)
  }

  function Finish(w: World, a: Arrival, kind: EventType): (r: Outcome)
    ensures r.config.events == a.config.events && r.config.eventId == a.config.eventId
  {
    match a
    case AtState(c, s) => Outcome(Enter(w, c, s, kind), Handled)
    case Lost(c) => Outcome(c, Aborted)
  }

  function FirstMatch(g: Graph, ts: seq<TransitionId>, kind: EventType): Option<TransitionId> {
    if ts == [] then None
    else if g.event(ts[0]) == kind then Some(ts[0])
    else FirstMatch(g, ts[1..], kind)
  }

  ghost function Handle(g: Graph, w: World, c: Config, ev: StmEvent): Config
    requires Acyclic(g)
  {
    var done := match FirstMatch(g, g.transitions(c.state), ev.kind)
      case Some(t) => Finish(w, Route(g, w, c, t), ev.kind)
      case None => Outcome(c, Ignored);
    Record(done.config, EventDone(ev.kind, ev.id, c.state, c.initialized, done.result))
  }

  // ----- the dispatcher -----

  /** An armed and expired state timer queues a timer event and is armed again. */
  function TimerCheck(w: World, c: Config): Config {
    if !c.timer.Armed() then c
    else
      var left := c.timer.Remaining(w.clock(c.ticks));
      if left != 0 then c.(ticks := c.ticks + 1)
      else
        var period := c.timer.Expired(w.clock(c.ticks + 1));
        Push(c, TimerEvent).(timer := Started(w.clock(c.ticks + 2), period), ticks := c.ticks + 3)
  }

  /** Ids count upwards and restart at 1 when the 32-bit counter overflows. */
  function NextId(id: int): int {
    if id + 1 > MAX_INT || id + 1 <= 0 then 1 else id + 1
  }

  /** The front event leaves the queue with its id. */
  function Take(c: Config): (StmEvent, Config)
    requires c.events != []
  {
    var ev := c.events[0].(status := Pending);
    var rest := c.(events := c.events[1..]);
    if ev.id != -1 then (ev, rest)
    else (ev.(id := NextId(c.eventId)), rest.(eventId := NextId(c.eventId)))
  }

  ghost function HandleFirst(g: Graph, w: World, c: Config): (r: Config)
    requires Acyclic(g) && c.events != []
    ensures r.events == c.events[1..]
  {
    var (ev, rest) := Take(c);
    Handle(g, w, rest, ev)
  }

  ghost function Drain(g: Graph, w: World, c: Config): Config
    requires Acyclic(g)
    decreases |c.events|
  {
    if c.events == [] then c else Drain(g, w, HandleFirst(g, w, c))
  }

  function Flush(c: Config): Config {
    c.(events := c.events + c.pending, pending := [])
  }

  ghost function Dispatch(g: Graph, w: World, c: Config): Config
    requires Acyclic(g)
  {
    Flush(Drain(g, w, TimerCheck(w, c)))
  }

  ghost function Send(g: Graph, w: World, c: Config, kind: EventType): Config
    requires Acyclic(g)
  {
    Dispatch(g, w, Push(c, kind))
  }

  /** The machine before it is started. */
  function Fresh(hasLogin: bool): Config {
    Config(InvalidState, false, hasLogin, NotStartedError, 0, 0, CLEARED, [], [], 0, 0, 0, [])
  }

  ghost function Start(g: Graph, w: World, c: Config): Config
    requires Acyclic(g)
  {
    Dispatch(g, w, Push(Enter(w, c, InitialState, InvalidEvent), InitializeEvent))
  }
}
