/** The state-machine library and NbiotStm: nodes, entry actions and the event dispatcher, updating
    the machine's fields in place. `View()` is the configuration the fields stand for. */
module ConnectionMachine {
  import opened ConnectionTypes
  import opened Timers
  import S = ConnectionSpec

  class NbiotStm {
    const graph: Graph
    const world: World
    const stateTimer: Timer

    var currentState: StateId
    var initialized: bool
    var hasLogin: bool
    var errno: ErrorNumber
    var modemRestartOnError: nat
    var duration: nat
    var events: seq<StmEvent>
    var pendingEvents: seq<StmEvent>
    var eventId: int
    var asked: nat
    var ticks: nat
    ghost var log: seq<Step>

    ghost function View(): S.Config
      reads this, stateTimer
    {
      S.Config(currentState, initialized, hasLogin, errno, modemRestartOnError, duration,
               stateTimer.Marks(), events, pendingEvents, eventId, asked, ticks, log)
    }

    constructor (graph: Graph, world: World, hasLogin: bool)
      ensures this.graph == graph && this.world == world
      ensures View() == S.Fresh(hasLogin) && fresh(stateTimer)
    {
      this.graph, this.world, this.hasLogin := graph, world, hasLogin;
      currentState, initialized, errno := InvalidState, false, NotStartedError;
      modemRestartOnError, duration, eventId, asked, ticks := 0, 0, 0, 0, 0;
      events, pendingEvents, log := [], [], [];
      stateTimer := new Timer();
    }

    // ----- the outside world -----

    method Ask() returns (answer: bool)
      modifies this`asked
      ensures (answer, View()) == S.Ask(world, old(View()))
    {
      answer := world.modem(asked);
      asked := asked + 1;
    }

    method Millis() returns (now: int)
      modifies this`ticks
      ensures now == world.clock(old(ticks)) && ticks == old(ticks) + 1
    {
      now := world.clock(ticks);
      ticks := ticks + 1;
    }

    method SetTimeout(ms: int)
      modifies this`ticks, stateTimer
      ensures View() == S.SetTimeout(world, old(View()), ms)
    {
      var now := Millis();
      stateTimer.Start(now, ms);
    }

    method PostEvent(kind: EventType)
      modifies this`pendingEvents, this`log
      ensures View() == S.Post(old(View()), kind)
    {
      pendingEvents := pendingEvents + [StmEvent(kind, Pending, -1)];
      log := log + [Posted(kind)];
    }

    // ----- actions -----

    method TransitionAction(t: TransitionId)
      modifies this`errno, this`modemRestartOnError
      ensures View() == S.TransitionAction(t, old(View()))
    {
      match t
      case IsInitializedError => errno := InitializeError;
      case Connect => errno := Success;
      case IsAttachedIpConnect => modemRestartOnError := 0;
      case IsAttachedError =>
        errno := GprsNotConnected;
        modemRestartOnError := (modemRestartOnError + 1) % 0x1_0000;
      case IsIpConnectedError => errno := IpNotConnected;
      case IsConnectedError => errno := ConnectionError;
      case _ =>
    }

    method Condition(b: ChoiceId) returns (yes: bool)
      modifies this`asked
      ensures (yes, View()) == S.Condition(world, old(View()), b)
    {
      match b
      case IsInitialized => yes := initialized;
      case IsAttached => yes := Ask();
      case IsIpConnected => yes := Ask();
    }

    method BringUp(reInitialize: bool) returns (ok: bool)
      modifies this
      ensures (ok, View()) == S.BringUp(world, old(View()), reInitialize)
    {
      ok := true;
      if !reInitialize {
        log := log + [Rebooted(InitialState)];
        ok := Ask();
      }
      if ok {
        ok := Ask();
      }
      if ok && !reInitialize {
        if !hasLogin {
          hasLogin := Ask();
        }
        ok := hasLogin;
      }
    }

    method ActionInitialEntry(kind: EventType)
      modifies this, stateTimer
      ensures View() == S.InitialEntry(world, old(View()), kind)
    {
      var reInitialize := kind == ReInitializeEvent || kind == TimerEvent;
      var ok := BringUp(reInitialize);
      if reInitialize {
        PostEvent(InitializeEvent);
      }
      initialized := ok;
      SetTimeout(S.ONE_MINUTE);
    }

    method ActionErrorEntry()
      modifies this, stateTimer
      ensures View() == S.ErrorEntry(world, old(View()))
    {
      if initialized {
        if S.RESTART_MODEM_THRESHOLD <= modemRestartOnError {
          modemRestartOnError := 0;
          log := log + [Rebooted(ErrorState)];
          PostEvent(ReInitializeEvent);
        } else {
          PostEvent(ErrorDisconnectEvent);
        }
      } else {
        SetTimeout(S.ONE_MINUTE);
      }
    }

    method EntryAction(s: StateId, kind: EventType)
      modifies this, stateTimer
      ensures View() == S.EntryAction(world, old(View()), s, kind)
    {
      match s
      case InitialState => ActionInitialEntry(kind);
      case DisconnectedState => errno := Success;
      case ErrorState => ActionErrorEntry();
      case ConnectedState => errno := Success;
      case ConnectedAwakeState => SetTimeout(S.ONE_SECOND * duration);
      case DeepSleepState => initialized := false;
      case WaitForAttachState => SetTimeout(S.ONE_MINUTE);
      case WaitForConnectState => SetTimeout(S.ONE_MINUTE);
      case _ =>
    }

    // ----- nodes -----

    method Arrive(s: StateId)
      modifies this`currentState, this`log, stateTimer
      ensures View() == S.Arrive(old(View()), s)
    {
      currentState := s;
      if stateTimer.Marks().Armed() {
        stateTimer.Clear();
      }
      log := log + [Entered(s)];
    }

    method Enter(s: StateId, kind: EventType) returns (result: EventState)
      modifies this, stateTimer
      ensures result == Handled && View() == S.Enter(world, old(View()), s, kind)
    {
      Arrive(s);
      EntryAction(s, kind);
      result := Handled;
    }

    method Fire(t: TransitionId)
      modifies this`errno, this`modemRestartOnError, this`log
      ensures View() == S.Fire(t, old(View()))
    {
      TransitionAction(t);
      log := log + [Fired(t)];
    }

    static lemma {:induction false} RouteAfterFire(g: Graph, w: World, c: S.Config, t: TransitionId, c1: S.Config)
      requires Acyclic(g) && Descends(g, t) && c1 == S.Fire(t, c)
      ensures S.Route(g, w, c, t) == match g.target(t)
        case TransitionNode(u) => S.Route(g, w, c1, u)
        case GuardNode(b) => S.Choose(g, w, c1, b, g.rank(t))
        case StateNode(s) => S.AtState(c1, s)
        case _ => S.Lost(c1)
    {
    }

    method Trigger(t: TransitionId, kind: EventType) returns (result: EventState)
      requires Acyclic(graph)
      modifies this, stateTimer
      ensures S.Outcome(View(), result) == S.Finish(world, S.Route(graph, world, old(View()), t), kind)
      decreases graph.rank(t), 1
    {
      assert Descends(graph, t);
      RouteAfterFire(graph, world, View(), t, S.Fire(t, View()));
      Fire(t);
      match graph.target(t)
      case TransitionNode(u) => result := Trigger(u, kind);
      case GuardNode(b) => result := Execute(b, kind, graph.rank(t));
      case StateNode(s) => result := Enter(s, kind);
      case _ => result := Aborted;
    }

    method Execute(b: ChoiceId, kind: EventType, ghost bound: nat) returns (result: EventState)
      requires Acyclic(graph)
      requires graph.whenTrue(b).Some? ==> graph.rank(graph.whenTrue(b).value) < bound
      requires graph.whenFalse(b).Some? ==> graph.rank(graph.whenFalse(b).value) < bound
      modifies this, stateTimer
      ensures S.Outcome(View(), result) == S.Finish(world, S.Choose(graph, world, old(View()), b, bound), kind)
      decreases bound, 0
    {
      if graph.hasCondition(b) {
        var yes := Condition(b);
        if yes {
          match graph.whenTrue(b)
          case Some(t) => result := Trigger(t, kind);
          case None => result := Aborted;
        } else {
          match graph.whenFalse(b)
          case Some(t) => result := Trigger(t, kind);
          case None => result := Aborted;
        }
      } else {
        result := Aborted;
      }
    }

    method HandleEvent(ev: StmEvent)
      requires Acyclic(graph)
      modifies this, stateTimer
      ensures View() == S.Handle(graph, world, old(View()), ev)
    {
      ghost var at, was := currentState, initialized;
      var transitions := graph.transitions(currentState);
      var result := Ignored;
      var i := 0;
      while i < |transitions|
        invariant 0 <= i <= |transitions|
        invariant View() == old(View()) && result == Ignored
        invariant S.FirstMatch(graph, transitions, ev.kind) == S.FirstMatch(graph, transitions[i..], ev.kind)
      {
        if graph.event(transitions[i]) == ev.kind {
          result := Trigger(transitions[i], ev.kind);
          break;
        }
        i := i + 1;
      }
      log := log + [EventDone(ev.kind, ev.id, at, was, result)];
    }

    // ----- the dispatcher -----

    method CheckTimeout()
      modifies this, stateTimer
      ensures View() == S.TimerCheck(world, old(View()))
    {
      if stateTimer.Marks().Armed() {
        var now := Millis();
        if stateTimer.Marks().Remaining(now) == 0 {
          events := events + [StmEvent(TimerEvent, Pending, -1)];
          var now' := Millis();
          var period := stateTimer.Marks().Expired(now');
          SetTimeout(period);
        }
      }
    }

    method TakeFront() returns (ev: StmEvent)
      requires events != [] && eventId <= S.MAX_INT
      modifies this`events, this`eventId
      ensures (ev, View()) == S.Take(old(View())) && eventId <= S.MAX_INT
    {
      ev := events[0].(status := Pending);
      events := events[1..];
      if ev.id == -1 {
        eventId := if eventId == S.MAX_INT then -0x8000_0000 else eventId + 1;
        if 0 >= eventId {
          eventId := 1;
        }
        ev := ev.(id := eventId);
      }
    }

    method HandleFront()
      requires Acyclic(graph) && eventId <= S.MAX_INT && events != []
      modifies this, stateTimer
      ensures View() == S.HandleFirst(graph, world, old(View()))
      ensures eventId <= S.MAX_INT
    {
      var ev := TakeFront();
      HandleEvent(ev);
    }

    method DrainEvents()
      requires Acyclic(graph) && eventId <= S.MAX_INT
      modifies this, stateTimer
      ensures View() == S.Drain(graph, world, old(View()))
      ensures eventId <= S.MAX_INT
    {
      while 0 < |events|
        invariant S.Drain(graph, world, View()) == S.Drain(graph, world, old(View()))
        invariant eventId <= S.MAX_INT
        decreases |events|
      {
        HandleFront();
      }
    }

    method FlushPending()
      modifies this`events, this`pendingEvents
      ensures View() == S.Flush(old(View()))
    {
      ghost var before := View();
      while pendingEvents != []
        invariant events + pendingEvents == before.events + before.pending
        invariant View() == before.(events := events, pending := pendingEvents)
        decreases |pendingEvents|
      {
        events := events + [pendingEvents[0]];
        pendingEvents := pendingEvents[1..];
      }
    }

    method Dispatch()
      requires Acyclic(graph) && eventId <= S.MAX_INT
      modifies this, stateTimer
      ensures View() == S.Dispatch(graph, world, old(View()))
      ensures eventId <= S.MAX_INT
    {
      CheckTimeout();
      DrainEvents();
      FlushPending();
    }

    method SendEvent(kind: EventType)
      requires Acyclic(graph) && eventId <= S.MAX_INT
      modifies this, stateTimer
      ensures View() == S.Send(graph, world, old(View()), kind)
      ensures eventId <= S.MAX_INT
    {
      events := events + [StmEvent(kind, Pending, -1)];
      Dispatch();
    }

    method StartStateMachine()
      requires Acyclic(graph) && eventId <= S.MAX_INT
      modifies this, stateTimer
      ensures View() == S.Start(graph, world, old(View()))
      ensures eventId <= S.MAX_INT
    {
      var result := Enter(InitialState, InvalidEvent);
      SendEvent(InitializeEvent);
    }
  }
}
