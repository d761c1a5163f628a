/** What one event and one dispatch do to the connection machine, with the modem's answers and the clock's readings in
    plain terms. */
module ConnectionSteps {
  import opened ConnectionTypes
  import opened Timers
  import S = ConnectionSpec
  import opened ConnectionTable
  import opened ConnectionInvariant
  import opened ConnectionRuns

  predicate Quiet(c: S.Config) {
    c.events == [] && c.pending == []
  }

  predicate Queued(c: S.Config, kind: EventType) {
    c.events == [S.NewEvent(kind)] && c.pending == []
  }

  /** The state timer is armed, and the look at it after `k` more finds its time over. */
  predicate LateAt(w: World, c: S.Config, k: nat) {
    c.timer.Armed() && c.timer.Remaining(w.clock(c.ticks + k)) == 0
  }

  predicate Late(w: World, c: S.Config) {
    LateAt(w, c, 0)
  }

  /** A minute that was started at one clock reading is over at another. */
  predicate MinuteIsOver(start: int, now: int) {
    var end := start + 60000;
    start != 0 && end != 0 && (end <= now || (end - now) % 0x1_0000_0000 == 0)
  }

  // ----- entering a state -----

  lemma {:induction false} FireAllTouches(c: S.Config, path: seq<TransitionId>)
    ensures
      var r := FireAll(c, path);
      r == c.(errno := r.errno, restarts := r.restarts, log := r.log)
    decreases |path|
  {
    if path != [] {
      FireAllTouches(S.Fire(path[0], c), path[1..]);
    }
  }

  /** What a state's entry leaves of the configuration `c`, other than in Initial. */
  predicate Arrived(w: World, c: S.Config, s: StateId, r: S.Config) {
    && r.state == s && r.events == c.events && r.asked == c.asked && r.duration == c.duration
    && r.initialized == (c.initialized && s != DeepSleepState)
    && (s != ErrorState ==> r.pending == c.pending && r.restarts == c.restarts)
    && (s == ErrorState ==>
          && r.restarts == (if c.initialized && 5 <= c.restarts then 0 else c.restarts)
          && r.pending == c.pending +
             if !c.initialized then []
             else if 5 <= c.restarts then [S.NewEvent(ReInitializeEvent)]
             else [S.NewEvent(ErrorDisconnectEvent)])
    && r.errno == (if s == DisconnectedState || s == ConnectedState then Success else c.errno)
    && (s == WaitForAttachState || s == WaitForConnectState || (s == ErrorState && !c.initialized) ==>
          r.timer == Started(w.clock(c.ticks), 60000) && r.ticks == c.ticks + 1)
    && (s == ConnectedAwakeState ==>
          r.timer == Started(w.clock(c.ticks), 1000 * c.duration) && r.ticks == c.ticks + 1)
  }

  lemma {:induction false} EnterArrives(w: World, c: S.Config, s: StateId, kind: EventType)
    requires s != InitialState
    ensures Arrived(w, c, s, S.Enter(w, c, s, kind))
  {
    var c1 := S.Arrive(c, s);
    assert S.Enter(w, c, s, kind) == S.EntryAction(w, c1, s, kind);
    if s == ErrorState {
      assert c.pending + [] == c.pending;
    }
  }

  /** Initial is entered again: one answer of the modem decides, and the start is to be repeated. */
  predicate Reentered(w: World, c: S.Config, r: S.Config) {
    && r.state == InitialState && r.events == c.events && r.initialized == w.modem(c.asked) && r.asked == c.asked + 1
    && r.pending == c.pending + [S.NewEvent(InitializeEvent)]
    && r.duration == c.duration && r.errno == c.errno && r.restarts == c.restarts
    && r.timer == Started(w.clock(c.ticks), 60000) && r.ticks == c.ticks + 1
  }

  lemma {:induction false} InitialAgain(w: World, c: S.Config, kind: EventType)
    requires kind == ReInitializeEvent || kind == TimerEvent
    ensures Reentered(w, c, S.Enter(w, c, InitialState, kind))
  {
    assert S.Enter(w, c, InitialState, kind) == S.InitialEntry(w, S.Arrive(c, InitialState), kind);
  }

  // ----- one event -----

  /** Ignored: nothing but the queue and the record of it changes. */
  predicate Stays(c: S.Config, r: S.Config) {
    r == c.(events := r.events, eventId := r.eventId, log := r.log) && c.events != [] && r.events == c.events[1..]
  }

  /** The configuration before the transitions of a row fire, and the one before its state is entered. */
  predicate OnTheWay(c: S.Config, m: Move, base: S.Config, fired: S.Config) {
    && m.Go? && c.events != []
    && base == c.(events := c.events[1..], eventId := base.eventId, asked := c.asked + m.answers)
    && fired == FireAll(base, m.path)
    && fired == base.(errno := fired.errno, restarts := fired.restarts, log := fired.log)
  }

  lemma {:induction false} StayRecords(w: World, c: S.Config, r: S.Config)
    requires c.events != [] && r == Perform(w, S.Take(c).1, S.Take(c).0, Stay)
    ensures Stays(c, r)
  {
    TakeKeeps(c);
  }

  lemma {:induction false} HeadStays(w: World, c: S.Config)
    requires Acyclic(NBIOT_GRAPH) && c.events != [] && NextOf(w, c, c.events[0].kind) == Stay
    ensures Stays(c, S.HandleFirst(NBIOT_GRAPH, w, c))
  {
    var m := RowOfHead(w, c);
    StayRecords(w, c, S.HandleFirst(NBIOT_GRAPH, w, c));
  }

  lemma {:induction false} FiredFrom(c: S.Config, m: Move) returns (base: S.Config, fired: S.Config)
    requires c.events != [] && m.Go?
    ensures OnTheWay(c, m, base, fired)
    ensures fired == FireAll(S.Take(c).1.(asked := c.asked + m.answers), m.path)
  {
    TakeKeeps(c);
    base := S.Take(c).1.(asked := c.asked + m.answers);
    fired := FireAll(base, m.path);
    FireAllTouches(base, m.path);
  }

  /** Where the state of a row is entered. */
  predicate Enters(w: World, m: Move, fired: S.Config, r: S.Config)
    requires m.Go?
  {
    if m.to == InitialState then Reentered(w, fired, r) else Arrived(w, fired, m.to, r)
  }

  lemma {:induction false} EnterIsRecorded(w: World, m: Move, fired: S.Config, kind: EventType, step: Step)
    requires m.Go? && (m.to == InitialState ==> kind == ReInitializeEvent || kind == TimerEvent)
    ensures Enters(w, m, fired, S.Record(S.Enter(w, fired, m.to, kind), step))
  {
    if m.to == InitialState {
      InitialAgain(w, fired, kind);
    } else {
      EnterArrives(w, fired, m.to, kind);
    }
    Recorded(w, fired, m.to, S.Enter(w, fired, m.to, kind), step);
  }

  /** The head of the queue moves the machine along its row of the table. */
  lemma {:induction false} HeadMoves(w: World, c: S.Config, m: Move) returns (base: S.Config, fired: S.Config)
    requires Acyclic(NBIOT_GRAPH) && c.events != [] && m == NextOf(w, c, c.events[0].kind) && m.Go?
    ensures OnTheWay(c, m, base, fired) && Enters(w, m, fired, S.HandleFirst(NBIOT_GRAPH, w, c))
  {
    var kind := c.events[0].kind;
    var row := RowOfHead(w, c);
    base, fired := FiredFrom(c, m);
    PerformIs(w, c, m, fired);
    EnterIsRecorded(w, m, fired, kind, EventDone(kind, S.Take(c).0.id, c.state, c.initialized, Handled));
  }

  lemma {:induction false} Recorded(w: World, c: S.Config, s: StateId, r: S.Config, step: Step)
    ensures Arrived(w, c, s, r) ==> Arrived(w, c, s, S.Record(r, step))
    ensures Reentered(w, c, r) ==> Reentered(w, c, S.Record(r, step))
  {
  }

  // ----- what the transitions on a path do -----

  lemma {:induction false} FireTwo(c: S.Config, t: TransitionId, u: TransitionId)
    ensures FireAll(c, [t, u]) == S.Fire(u, S.Fire(t, c))
  {
    assert [t, u][1..] == [u];
    FireOne(S.Fire(t, c), u);
  }

  lemma {:induction false} FireThree(c: S.Config, t: TransitionId, u: TransitionId, v: TransitionId)
    ensures FireAll(c, [t, u, v]) == S.Fire(v, S.Fire(u, S.Fire(t, c)))
  {
    assert [t, u, v][1..] == [u, v];
    FireTwo(S.Fire(t, c), u, v);
  }

  lemma {:induction false} ConnectingFires(c: S.Config, attached: bool, ipConnected: bool)
    ensures
      var r := FireAll(c, FromConnect(attached, ipConnected).path);
      && r.errno == (if attached && !ipConnected then IpNotConnected else Success)
      && r.restarts == (if attached then 0 else c.restarts)
  {
    if !attached {
      FireTwo(c, Connect, IsNotAttached);
    } else if ipConnected {
      FireThree(c, Connect, IsAttachedIpConnect, WaitConnectIsConnected);
    } else {
      FireThree(c, Connect, IsAttachedIpConnect, IsIpConnectedError);
    }
  }

  lemma {:induction false} AttachedFires(c: S.Config, ipConnected: bool)
    ensures
      var r := FireAll(c, FromAttached(ipConnected).path);
      r.errno == (if ipConnected then c.errno else IpNotConnected) && r.restarts == 0
  {
    FireTwo(c, IsAttachedIpConnect, if ipConnected then WaitConnectIsConnected else IsIpConnectedError);
  }

  lemma {:induction false} InitializedFires(c: S.Config, t: TransitionId, initialized: bool)
    requires t == Initialize || t == InitialTimeout
    ensures
      var r := FireAll(c, FromInitial(t, initialized).path);
      r.errno == (if initialized then c.errno else InitializeError) && r.restarts == c.restarts
  {
    FireTwo(c, t, if initialized then IsInitializedDisconnected else IsInitializedError);
  }

  /** Of the rows with one transition only the two timeouts of the waiting states touch the error number or the
      counter. */
  lemma {:induction false} SingleFires(c: S.Config, t: TransitionId)
    requires t != Connect && t != IsAttachedIpConnect && t != IsIpConnectedError && t != IsInitializedError
    ensures
      var r := FireAll(c, [t]);
      && r.errno == (if t == IsAttachedError then GprsNotConnected else if t == IsConnectedError then ConnectionError
                     else c.errno)
      && r.restarts == (if t == IsAttachedError then (c.restarts + 1) % 65536 else c.restarts)
  {
    FireOne(c, t);
  }

  // ----- one dispatch -----

  lemma {:induction false} DrainOne(w: World, c: S.Config, h: S.Config)
    requires Acyclic(NBIOT_GRAPH) && |c.events| == 1 && h == S.HandleFirst(NBIOT_GRAPH, w, c)
    ensures S.Drain(NBIOT_GRAPH, w, c) == h && h.events == []
  {
    assert h.events == [];
  }

  /** A look at a timer that is not late changes nothing but the number of looks. */
  lemma {:induction false} NotLate(w: World, c: S.Config) returns (c1: S.Config)
    requires !Late(w, c)
    ensures c1 == S.TimerCheck(w, c) && c1 == c.(ticks := c.ticks + if c.timer.Armed() then 1 else 0)
  {
    c1 := S.TimerCheck(w, c);
  }

  /** A late timer queues its event behind the others. */
  lemma {:induction false} IsLate(w: World, c: S.Config) returns (c1: S.Config)
    requires Late(w, c)
    ensures c1 == S.TimerCheck(w, c)
    ensures c1 == c.(events := c.events + [S.NewEvent(TimerEvent)], timer := c1.timer, ticks := c.ticks + 3)
  {
    c1 := S.TimerCheck(w, c);
  }

  /** And it starts the timer again, for as long as it had run before. */
  lemma {:induction false} LateStartsAgain(w: World, c: S.Config)
    requires Late(w, c) && c.timer.endMs <= w.clock(c.ticks + 1)
    ensures
      var start, end := w.clock(c.ticks + 2), c.timer.endMs - c.timer.startMs;
      0 <= end < 0x1_0000_0000 ==> S.TimerCheck(w, c).timer == TimerMarks(start, start + end)
  {
  }

  /** Events are numbered from 1 on, and from 1 again behind the largest number there is. */
  lemma {:induction false} EventsAreNumbered(c: S.Config)
    requires c.events != [] && c.events[0].id == -1 && 0 <= c.eventId <= 0x7fff_ffff
    ensures
      var (ev, rest) := S.Take(c);
      && ev.id == rest.eventId && 1 <= ev.id <= 0x7fff_ffff
      && ev.id == (if c.eventId == 0x7fff_ffff then 1 else c.eventId + 1)
  {
  }

  /** A dispatch of one event, with the timer not late. */
  lemma {:induction false} DispatchOne(w: World, c: S.Config) returns (c1: S.Config, h: S.Config)
    requires Acyclic(NBIOT_GRAPH) && |c.events| == 1 && !Late(w, c)
    ensures c1 == c.(ticks := c.ticks + if c.timer.Armed() then 1 else 0)
    ensures h == S.HandleFirst(NBIOT_GRAPH, w, c1) && h.events == []
    ensures S.Dispatch(NBIOT_GRAPH, w, c) == h.(events := h.pending, pending := [])
  {
    c1 := NotLate(w, c);
    h := S.HandleFirst(NBIOT_GRAPH, w, c1);
    DrainOne(w, c1, h);
    assert h.events + h.pending == h.pending;
  }

  /** A dispatch that only finds the timer late. */
  lemma {:induction false} DispatchLate(w: World, c: S.Config) returns (c1: S.Config, h: S.Config)
    requires Acyclic(NBIOT_GRAPH) && c.events == [] && Late(w, c)
    ensures c1 == c.(events := [S.NewEvent(TimerEvent)], timer := c1.timer, ticks := c.ticks + 3)
    ensures h == S.HandleFirst(NBIOT_GRAPH, w, c1) && h.events == []
    ensures S.Dispatch(NBIOT_GRAPH, w, c) == h.(events := h.pending, pending := [])
  {
    c1 := IsLate(w, c);
    assert c.events + [S.NewEvent(TimerEvent)] == [S.NewEvent(TimerEvent)];
    h := S.HandleFirst(NBIOT_GRAPH, w, c1);
    DrainOne(w, c1, h);
    assert h.events + h.pending == h.pending;
  }

  /** A dispatch of one event that also finds the timer late: the event first, and then the timeout. */
  lemma {:induction false} DispatchTwo(w: World, c: S.Config) returns (c1: S.Config, h1: S.Config, h: S.Config)
    requires Acyclic(NBIOT_GRAPH) && |c.events| == 1 && Late(w, c)
    ensures c1 == c.(events := [c.events[0], S.NewEvent(TimerEvent)], timer := c1.timer, ticks := c.ticks + 3)
    ensures h1 == S.HandleFirst(NBIOT_GRAPH, w, c1) && h1.events == [S.NewEvent(TimerEvent)]
    ensures h == S.HandleFirst(NBIOT_GRAPH, w, h1) && h.events == []
    ensures S.Dispatch(NBIOT_GRAPH, w, c) == h.(events := h.pending, pending := [])
  {
    c1 := IsLate(w, c);
    assert c.events + [S.NewEvent(TimerEvent)] == [c.events[0], S.NewEvent(TimerEvent)];
    h1 := S.HandleFirst(NBIOT_GRAPH, w, c1);
    assert h1.events == [S.NewEvent(TimerEvent)];
    h := S.HandleFirst(NBIOT_GRAPH, w, h1);
    DrainOne(w, h1, h);
    assert h.events + h.pending == h.pending;
  }

  lemma {:induction false} DispatchNone(w: World, c: S.Config)
    requires Acyclic(NBIOT_GRAPH) && c.events == [] && !Late(w, c)
    ensures S.Dispatch(NBIOT_GRAPH, w, c) ==
            c.(events := c.pending, pending := [], ticks := c.ticks + if c.timer.Armed() then 1 else 0)
  {
    var c1 := NotLate(w, c);
    assert c1.events + c1.pending == c1.pending;
  }

  // ----- where one event leads -----

  /** The last reading of the clock started the state timer. */
  predicate JustStarted(w: World, r: S.Config, ms: int) {
    0 < r.ticks && r.timer == Started(w.clock(r.ticks - 1), ms)
  }

  /** Nothing is queued, and nothing has changed but the record and the looks at the timer. */
  predicate Remains(c: S.Config, r: S.Config) {
    && Quiet(r) && r.state == c.state && r.initialized == c.initialized && r.errno == c.errno
    && r.restarts == c.restarts && r.duration == c.duration && r.asked == c.asked && r.timer == c.timer
  }

  /** Initial is entered again, with one answer of the modem, and its event queued. */
  predicate StartsAgain(w: World, c: S.Config, r: S.Config) {
    && r.state == InitialState && r.initialized == w.modem(c.asked) && r.asked == c.asked + 1
    && Queued(r, InitializeEvent) && r.duration == c.duration && r.errno == c.errno && JustStarted(w, r, 60000)
  }

  /** The Error state is entered: uninitialized with a minute's timer, or with its own way out queued. */
  predicate Fails(w: World, c: S.Config, answers: nat, errno: ErrorNumber, timeouts: nat, r: S.Config) {
    && r.state == ErrorState && r.initialized == c.initialized && r.asked == c.asked + answers
    && r.errno == errno && r.duration == c.duration
    && (if c.initialized then Queued(r, if 5 <= timeouts then ReInitializeEvent else ErrorDisconnectEvent) else Quiet(r))
    && r.restarts == (if c.initialized && 5 <= timeouts then 0 else timeouts)
    && (!c.initialized ==> JustStarted(w, r, 60000))
  }

  /** Another state is entered, and nothing is queued. */
  predicate Reaches(w: World, c: S.Config, answers: nat, s: StateId, r: S.Config) {
    && r.state == s && r.initialized == (c.initialized && s != DeepSleepState) && r.asked == c.asked + answers
    && Quiet(r) && r.duration == c.duration
    && (s == DisconnectedState || s == ConnectedState ==> r.errno == Success)
    && (s == WaitForAttachState || s == WaitForConnectState ==> JustStarted(w, r, 60000))
    && (s == ConnectedAwakeState ==> JustStarted(w, r, 1000 * c.duration))
  }

  /** Where a row leads, `fired` being the configuration behind its transitions. */
  predicate Lands(w: World, c: S.Config, m: Move, fired: S.Config, r: S.Config) {
    match m
    case Stay => Remains(c, r)
    case Go(_, answers, to) =>
      if to == InitialState then (answers == 0 && fired.errno == c.errno ==> StartsAgain(w, c, r))
      else if to == ErrorState then Fails(w, c, answers, fired.errno, fired.restarts, r)
      else Reaches(w, c, answers, to, r) && (to == WaitForAttachState || to == WaitForConnectState ==> r.errno == fired.errno)
  }

  lemma {:induction false} MovedLands(w: World, c: S.Config, m: Move, base: S.Config, fired: S.Config, h: S.Config,
                                      r: S.Config)
    requires c.pending == [] && OnTheWay(c, m, base, fired) && Enters(w, m, fired, h)
    requires h.events == [] && r == h.(events := h.pending, pending := [])
    ensures Lands(w, c, m, fired, r)
  {
    if m.to == InitialState || (m.to == ErrorState && c.initialized) {
      assert r.events == [] + r.events;
    } else {
      assert fired.pending + [] == [];
    }
  }

  lemma {:induction false} HeadLands(w: World, c: S.Config, m: Move, h: S.Config, r: S.Config)
    returns (base: S.Config, fired: S.Config)
    requires Acyclic(NBIOT_GRAPH) && |c.events| == 1 && c.pending == [] && m == NextOf(w, c, c.events[0].kind)
    requires h == S.HandleFirst(NBIOT_GRAPH, w, c) && h.events == [] && r == h.(events := h.pending, pending := [])
    ensures Lands(w, c, m, fired, r)
    ensures m.Go? ==> fired == FireAll(base, m.path) && base.errno == c.errno && base.restarts == c.restarts
  {
    base, fired := c, c;
    if m.Go? {
      base, fired := HeadMoves(w, c, m);
      MovedLands(w, c, m, base, fired, h, r);
    } else {
      HeadStays(w, c);
    }
  }

  lemma {:induction false} LandsSame(w: World, c: S.Config, d: S.Config, m: Move, fired: S.Config, r: S.Config)
    requires d == c.(events := d.events, eventId := d.eventId, timer := d.timer, ticks := d.ticks, log := d.log)
    requires Lands(w, d, m, fired, r) && (m.Stay? ==> d.timer == c.timer)
    ensures Lands(w, c, m, fired, r)
  {
  }

  lemma {:induction false} SameRow(w: World, c: S.Config, d: S.Config, kind: EventType)
    requires d == c.(events := d.events, eventId := d.eventId, timer := d.timer, ticks := d.ticks, log := d.log)
    ensures NextOf(w, d, kind) == NextOf(w, c, kind)
  {
  }

  /** What a dispatch makes of the one event it finds, with the timer not late. */
  lemma {:induction false} TakesOne(w: World, c: S.Config, m: Move, r: S.Config)
    returns (base: S.Config, fired: S.Config)
    requires Acyclic(NBIOT_GRAPH) && |c.events| == 1 && c.pending == [] && !Late(w, c)
    requires m == NextOf(w, c, c.events[0].kind) && r == S.Dispatch(NBIOT_GRAPH, w, c)
    ensures Lands(w, c, m, fired, r)
    ensures m.Go? ==> fired == FireAll(base, m.path) && base.errno == c.errno && base.restarts == c.restarts
  {
    var c1, h := DispatchOne(w, c);
    SameRow(w, c, c1, c.events[0].kind);
    base, fired := HeadLands(w, c1, m, h, r);
    LandsSame(w, c, c1, m, fired, r);
  }

  /** What a dispatch makes of a late timer, behind no event or one that the state ignores. */
  lemma {:induction false} TakesTimeout(w: World, c: S.Config, m: Move, r: S.Config)
    returns (base: S.Config, fired: S.Config)
    requires Acyclic(NBIOT_GRAPH) && c.pending == [] && Late(w, c)
    requires c.events == [] || (|c.events| == 1 && NextOf(w, c, c.events[0].kind) == Stay)
    requires m == NextOf(w, c, TimerEvent) && m.Go? && r == S.Dispatch(NBIOT_GRAPH, w, c)
    ensures Lands(w, c, m, fired, r)
    ensures fired == FireAll(base, m.path) && base.errno == c.errno && base.restarts == c.restarts
  {
    if c.events == [] {
      var c1, h := DispatchLate(w, c);
      SameRow(w, c, c1, TimerEvent);
      base, fired := HeadLands(w, c1, m, h, r);
      LandsSame(w, c, c1, m, fired, r);
    } else {
      var c1, h1, h := DispatchTwo(w, c);
      SameRow(w, c, c1, c.events[0].kind);
      HeadStays(w, c1);
      SameRow(w, c, h1, TimerEvent);
      base, fired := HeadLands(w, h1, m, h, r);
      LandsSame(w, c, h1, m, fired, r);
    }
  }

  // ----- one call -----

  /** What a quiet machine, its timer not late, makes of one event that is sent. */
  lemma {:induction false} SendsOne(w: World, c: S.Config, kind: EventType, m: Move, r: S.Config)
    returns (base: S.Config, fired: S.Config)
    requires Acyclic(NBIOT_GRAPH) && Quiet(c) && !Late(w, c)
    requires m == NextOf(w, c, kind) && r == S.Send(NBIOT_GRAPH, w, c, kind)
    ensures Lands(w, c, m, fired, r)
    ensures m.Go? ==> fired == FireAll(base, m.path) && base.errno == c.errno && base.restarts == c.restarts
  {
    var c1 := S.Push(c, kind);
    assert c1.events == [S.NewEvent(kind)];
    SameRow(w, c, c1, kind);
    base, fired := TakesOne(w, c1, m, r);
    LandsSame(w, c, c1, m, fired, r);
  }

  /** And if the timer is late and the state ignores the event. */
  lemma {:induction false} SendsLate(w: World, c: S.Config, kind: EventType, m: Move, r: S.Config)
    returns (base: S.Config, fired: S.Config)
    requires Acyclic(NBIOT_GRAPH) && Quiet(c) && Late(w, c) && NextOf(w, c, kind) == Stay
    requires m == NextOf(w, c, TimerEvent) && m.Go? && r == S.Send(NBIOT_GRAPH, w, c, kind)
    ensures Lands(w, c, m, fired, r)
    ensures fired == FireAll(base, m.path) && base.errno == c.errno && base.restarts == c.restarts
  {
    var c1 := S.Push(c, kind);
    assert c1.events == [S.NewEvent(kind)];
    SameRow(w, c, c1, kind);
    SameRow(w, c, c1, TimerEvent);
    base, fired := TakesTimeout(w, c1, m, r);
    LandsSame(w, c, c1, m, fired, r);
  }

  lemma {:induction false} RestIsNotLate(w: World, c: S.Config)
    requires Stable(c) && !Waiting(c.state, c.initialized)
    ensures !c.timer.Armed() && !Late(w, c)
  {
  }

  /** Quiet, the machine is neither in Initial nor in the initialized Error state. */
  lemma {:induction false} QuietStates(c: S.Config)
    requires Stable(c) && Quiet(c)
    ensures c.state != InitialState && (c.state == ErrorState ==> !c.initialized) && c.state != InvalidState
    ensures c.state != ErrorState && c.state != DeepSleepState ==> c.initialized
  {
    assert c.events + c.pending == [];
  }

  // ----- timeouts -----

  /** Where a timeout leads: the attach timeout to an Error state with the reboot due after the fifth in a row, that of
      the gateway to an Error state, a second awake back to sleep, and the uninitialized Error state to a new
      start. */
  predicate TimesOut(w: World, c: S.Config, r: S.Config) {
    match c.state
    case WaitForAttachState => Fails(w, c, 0, GprsNotConnected, c.restarts + 1, r)
    case WaitForConnectState => Fails(w, c, 0, ConnectionError, c.restarts, r)
    case ConnectedAwakeState => Reaches(w, c, 0, ConnectedSleepState, r)
    case _ => StartsAgain(w, c, r)
  }

  function TimeoutOf(s: StateId): TransitionId {
    match s
    case WaitForAttachState => IsAttachedError
    case WaitForConnectState => IsConnectedError
    case ConnectedAwakeState => AwakeTimeout
    case _ => ErrorTimeout
  }

  lemma {:induction false} TimeoutRow(w: World, c: S.Config) returns (m: Move)
    requires Waiting(c.state, c.initialized) && c.state != InitialState
    ensures m == NextOf(w, c, TimerEvent) == Go([TimeoutOf(c.state)], 0, Target(TimeoutOf(c.state)).state)
  {
    m := NextOf(w, c, TimerEvent);
  }

  lemma {:induction false} TimeoutLands(w: World, c: S.Config, m: Move, base: S.Config, fired: S.Config, r: S.Config)
    requires c.restarts < 5 && Waiting(c.state, c.initialized) && c.state != InitialState
    requires m == NextOf(w, c, TimerEvent) == Go([TimeoutOf(c.state)], 0, Target(TimeoutOf(c.state)).state)
    requires Lands(w, c, m, fired, r)
    requires fired == FireAll(base, m.path) && base.errno == c.errno && base.restarts == c.restarts
    ensures TimesOut(w, c, r)
  {
    SingleFires(base, TimeoutOf(c.state));
  }

  lemma {:induction false} WaitingTimesOut(w: World, c: S.Config, r: S.Config)
    requires Acyclic(NBIOT_GRAPH) && Stable(c) && Quiet(c) && Late(w, c) && r == S.Dispatch(NBIOT_GRAPH, w, c)
    ensures TimesOut(w, c, r)
  {
    QuietStates(c);
    var m := TimeoutRow(w, c);
    var base, fired := TakesTimeout(w, c, m, r);
    TimeoutLands(w, c, m, base, fired, r);
  }

  /** A waiting state ignores an event that is sent to it, but not the timeout behind it. */
  lemma {:induction false} WaitingIgnores(w: World, c: S.Config, kind: EventType, r: S.Config)
    requires Acyclic(NBIOT_GRAPH) && Stable(c) && Quiet(c) && Waiting(c.state, c.initialized)
    requires NextOf(w, c, kind) == Stay && r == S.Send(NBIOT_GRAPH, w, c, kind)
    ensures if Late(w, c) then TimesOut(w, c, r) else Remains(c, r)
  {
    QuietStates(c);
    if Late(w, c) {
      var m := TimeoutRow(w, c);
      var base, fired := SendsLate(w, c, kind, m, r);
      TimeoutLands(w, c, m, base, fired, r);
    } else {
      var base, fired := SendsOne(w, c, kind, Stay, r);
    }
  }

  /** One look at the timer more is all that an ignored event leaves. */
  lemma {:induction false} IgnoredLooks(w: World, c: S.Config, kind: EventType, r: S.Config)
    requires Acyclic(NBIOT_GRAPH) && Quiet(c) && !Late(w, c) && NextOf(w, c, kind) == Stay
    requires r == S.Send(NBIOT_GRAPH, w, c, kind)
    ensures r.timer == c.timer && r.ticks == c.ticks + if c.timer.Armed() then 1 else 0
  {
    var c1 := S.Push(c, kind);
    assert c1.events == [S.NewEvent(kind)];
    var c2, h := DispatchOne(w, c1);
    SameRow(w, c, c2, kind);
    HeadStays(w, c2);
  }
}
