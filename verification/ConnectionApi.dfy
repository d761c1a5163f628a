/** NbiotMQTT: the client's calls and the event loop. Every call is a run of allowed operations, so it keeps the
    machine's invariant. */
module ConnectionApi {
  import opened ConnectionTypes
  import S = ConnectionSpec
  import opened ConnectionTable
  import opened ConnectionInvariant
  import opened ConnectionRuns
  import opened ConnectionTheorems
  import opened ConnectionSteps
  import opened ConnectionOutcomes
  import opened ConnectionCalls
  import opened ConnectionMachine

  class NbiotMqtt {
    const stm: NbiotStm
    var autoReconnect: bool
    ghost const start: S.Config  // the machine just started
    ghost var ops: seq<Op>  // what happened to it since

    /** The machine is where the recorded operations, all of them allowed, bring it. */
    ghost predicate Valid()
      reads this, stm, stm.stateTimer
    {
      && stm.graph == NBIOT_GRAPH && Acyclic(NBIOT_GRAPH)
      && Stable(start)
      && Legal(stm.world, start, ops) && stm.View() == Run(stm.world, start, ops)
    }

    constructor (world: World, hasLogin: bool)
      ensures Valid() && fresh(stm) && fresh(stm.stateTimer) && stm.world == world
      ensures start == S.Start(NBIOT_GRAPH, world, S.Fresh(hasLogin)) && ops == [] && !autoReconnect
      ensures Starts(world, hasLogin, stm.View())
    {
      var machine := new NbiotStm(NBIOT_GRAPH, world, hasLogin);
      NbiotGraphAcyclic();
      StartIsStable(world, hasLogin);
      StartLeads(world, hasLogin);
      machine.StartStateMachine();
      stm := machine;
      autoReconnect := false;
      ops := [];
      start := machine.View();
    }

    /** A client's machine is one the theorems are about: reached from its start by the recorded operations. */
    lemma {:induction false} ClientIsReached(hasLogin: bool)
      requires Valid() && start == S.Start(NBIOT_GRAPH, stm.world, S.Fresh(hasLogin))
      ensures Reached(stm.world, hasLogin, ops, stm.View())
      ensures Working(stm.currentState) ==> stm.initialized
      ensures stm.modemRestartOnError <= 4
    {
      WorkingMeansInitialized(stm.world, hasLogin, ops, stm.View());
      RebootAfterFiveTimeouts(stm.world, hasLogin, ops, stm.View());
    }

    /** A call leads to the configuration its operations lead to. */
    lemma {:induction false} MovedBy(before: seq<Op>, c: S.Config, more: seq<Op>)
      requires Valid() && ops == before + more && c == Run(stm.world, start, before)
      ensures stm.View() == Run(stm.world, c, more)
    {
      RunConcat(stm.world, start, before, more);
    }

    lemma {:induction false} Disconnected(before: seq<Op>, c: S.Config)
      requires Valid() && ops == before + DisconnectOps(c) && c == Run(stm.world, start, before) && Stable(c)
      ensures Quiet(c) ==> Disconnects(stm.world, c, stm.View())
    {
      MovedBy(before, c, DisconnectOps(c));
      if Quiet(c) {
        DisconnectLeads(stm.world, c);
      }
    }

    lemma {:induction false} Finished(before: seq<Op>, c: S.Config, outcome: LoopOutcome)
      requires Valid() && ops == before + OutcomeOps(outcome) && c == Run(stm.world, start, before) && Stable(c)
      ensures Quiet(c) ==> Finishes(stm.world, c, outcome, stm.View())
    {
      MovedBy(before, c, OutcomeOps(outcome));
      if Quiet(c) {
        FinishLeads(stm.world, c, outcome);
      }
    }

    lemma {:induction false} Cycled(before: seq<Op>, c: S.Config, asleep: bool, outcome: LoopOutcome)
      requires Valid() && ops == before + CycleStart(c, asleep) + [] + OutcomeOps(outcome)
      requires c == Run(stm.world, start, before) && Stable(c)
      ensures Quiet(c) ==> Cycles(stm.world, c, asleep, outcome, stm.View())
    {
      ghost var more := CycleStart(c, asleep) + OutcomeOps(outcome);
      OneAfterOther(before, CycleStart(c, asleep), OutcomeOps(outcome));
      MovedBy(before, c, more);
      if Quiet(c) {
        CycleLeads(stm.world, c, asleep, outcome);
      }
    }

    lemma {:induction false} ViewIsStable()
      requires Valid()
      ensures Stable(stm.View())
    {
      RunIsStable(stm.world, start, ops);
    }

    method SendEvent(kind: EventType)
      requires Valid() && Allowed(stm.View(), SendOp(kind))
      modifies this`ops, stm, stm.stateTimer
      ensures Valid() && ops == old(ops) + [SendOp(kind)]
    {
      RunIsStable(stm.world, start, ops);
      RunMore(stm.world, start, ops, SendOp(kind));
      stm.SendEvent(kind);
      ops := ops + [SendOp(kind)];
    }

    method PostEvent(kind: EventType)
      requires Valid() && Allowed(stm.View(), PostOp(kind))
      modifies this`ops, stm
      ensures Valid() && ops == old(ops) + [PostOp(kind)]
    {
      RunMore(stm.world, start, ops, PostOp(kind));
      stm.PostEvent(kind);
      ops := ops + [PostOp(kind)];
    }

    method Dispatch()
      requires Valid()
      modifies this`ops, stm, stm.stateTimer
      ensures Valid() && ops == old(ops) + [DispatchOp]
      ensures !Late(stm.world, old(stm.View())) ==> Hears(stm.world, old(stm.View()), stm.View())
    {
      ghost var c := stm.View();
      RunIsStable(stm.world, start, ops);
      RunMore(stm.world, start, ops, DispatchOp);
      stm.Dispatch();
      ops := ops + [DispatchOp];
      if !Late(stm.world, c) {
        DispatchHears(stm.world, c, stm.View());
      }
    }

    method SetDuration(duration: nat)
      requires Valid()
      modifies this`ops, stm`duration
      ensures Valid() && ops == old(ops) + [DurationOp(duration)]
    {
      RunMore(stm.world, start, ops, DurationOp(duration));
      stm.duration := duration;
      ops := ops + [DurationOp(duration)];
    }

    method SetErrno(errno: ErrorNumber)
      requires Valid()
      modifies this`ops, stm`errno
      ensures Valid() && ops == old(ops) + [ErrnoOp(errno)]
    {
      RunMore(stm.world, start, ops, ErrnoOp(errno));
      stm.errno := errno;
      ops := ops + [ErrnoOp(errno)];
    }

    method Connect() returns (ret: ErrorNumber)
      requires Valid()
      modifies this`ops, stm, stm.stateTimer
      ensures Valid() && ops == old(ops) + ConnectOps(old(stm.View()))
      ensures ret == if old(stm.initialized) then stm.errno else InitializeError
      ensures Quiet(old(stm.View())) ==> Connects(stm.world, old(stm.View()), stm.View())
    {
      ghost var now, c := ops, stm.View();
      ViewIsStable();
      ret := InitializeError;
      if stm.initialized {
        if stm.currentState != ConnectedState && !Sleeping(stm.currentState) {
          SendEvent(ConnectEvent);
        } else if Sleeping(stm.currentState) {
          SendEvent(WakeupEvent);
        }
        ret := stm.errno;
      }
      MovedBy(now, c, ConnectOps(c));
      if Quiet(c) {
        ConnectLeads(stm.world, c);
      }
    }

    method WakeIfSleeping()
      requires Valid()
      modifies this`ops, stm, stm.stateTimer
      ensures Valid() && ops == old(ops) + WakeFirst(old(stm.View()))
    {
      if Sleeping(stm.currentState) {
        SendEvent(WakeupEvent);
      }
    }

    method Disconnect()
      requires Valid()
      modifies this`ops, stm, stm.stateTimer
      ensures Valid() && ops == old(ops) + DisconnectOps(old(stm.View()))
      ensures Quiet(old(stm.View())) ==> Disconnects(stm.world, old(stm.View()), stm.View())
    {
      ghost var now, c := ops, stm.View();
      ViewIsStable();
      if stm.currentState == ConnectedState || Sleeping(stm.currentState) {
        WakeIfSleeping();
        SendEvent(DisconnectEvent);
        OneAfterOther(now, WakeFirst(c), [SendOp(DisconnectEvent)]);
      }
      Disconnected(now, c);
    }

    method Sleep(duration: nat)
      requires Valid()
      modifies this, stm, stm.stateTimer
      ensures Valid() && ops == old(ops) + SleepOps(old(stm.View()), duration)
      ensures autoReconnect == (old(autoReconnect) && SleepOps(old(stm.View()), duration) == [])
      ensures Quiet(old(stm.View())) ==> Sleeps(old(stm.View()), duration, stm.View())
    {
      ghost var now, c := ops, stm.View();
      ViewIsStable();
      if stm.currentState == ConnectedState || stm.currentState == DisconnectedState {
        SetDuration(duration);
        autoReconnect := false;
        SendEvent(SleepEvent);
      }
      MovedBy(now, c, SleepOps(c, duration));
      if Quiet(c) {
        SleepLeads(stm.world, c, duration);
      }
    }

    method HibernateAwake(duration: nat)
      requires Valid()
      modifies this, stm, stm.stateTimer
      ensures Valid() && ops == old(ops) + [DurationOp(duration)] + [SendOp(HibernateEvent)]
      ensures autoReconnect == (old(stm.currentState) == ConnectedState && 0 < duration)
    {
      SetDuration(duration);
      autoReconnect := stm.currentState == ConnectedState && 0 < duration;
      SendEvent(HibernateEvent);
    }

    /** Waking up first, so that only a client that is connected by then reconnects later. */
    method Hibernate(duration: nat)
      requires Valid()
      modifies this, stm, stm.stateTimer
      ensures Valid() && ops == old(ops) + HibernateOps(old(stm.View()), duration)
      ensures
        var woken := Run(stm.world, start, old(ops) + WakeFirst(old(stm.View())));
        autoReconnect == (if HibernateOps(old(stm.View()), duration) == [] then old(autoReconnect)
                          else woken.state == ConnectedState && 0 < duration)
      ensures Quiet(old(stm.View())) ==> Hibernates(stm.world, old(stm.View()), duration, stm.View())
    {
      ghost var now, c := ops, stm.View();
      ViewIsStable();
      if stm.currentState == ConnectedState || stm.currentState == DisconnectedState || Sleeping(stm.currentState) {
        ghost var before, wake := ops, WakeFirst(stm.View());
        WakeIfSleeping();
        HibernateAwake(duration);
        TwoMore(before, wake, DurationOp(duration), SendOp(HibernateEvent));
      }
      MovedBy(now, c, HibernateOps(c, duration));
      if Quiet(c) {
        HibernateLeads(stm.world, c, duration);
      }
    }

    method LeaveSleep()
      requires Valid()
      modifies this`ops, stm, stm.stateTimer
      ensures Valid() && ops == old(ops) + LeaveSleepOps(old(stm.View()))
    {
      if Sleeping(stm.currentState) {
        if stm.currentState == ConnectedAwakeState {
          SendEvent(AwakeSleepEvent);
        }
        SendEvent(WakeupEvent);
      } else if stm.currentState == DeepSleepState {
        SendEvent(ReInitializeEvent);
      }
    }

    method Wakeup()
      requires Valid()
      modifies this, stm, stm.stateTimer
      ensures Valid() && ops == old(ops) + WakeupOps(old(stm.View()), old(autoReconnect))
      ensures !autoReconnect
      ensures Quiet(old(stm.View())) ==> WakesUp(stm.world, old(stm.View()), old(autoReconnect), stm.View())
    {
      ghost var now, c, again := ops, stm.View(), autoReconnect;
      ViewIsStable();
      ghost var leaving := LeaveSleepOps(c);
      LeaveSleep();
      ghost var connecting: seq<Op> := if again then [SendOp(ConnectEvent)] else [];
      if autoReconnect {
        SendEvent(ConnectEvent);
        autoReconnect := false;
      }
      assert ops == now + leaving + connecting;
      SetDuration(0);
      ThreeMore(now, leaving, connecting, [DurationOp(0)]);
      MovedBy(now, c, WakeupOps(c, again));
      if Quiet(c) {
        WakeupLeads(stm.world, c, again);
      }
    }

    method Notify(n: Notice)
      requires Valid()
      modifies this`ops, stm, stm.stateTimer
      ensures Valid() && ops == old(ops) + NoticeOps(old(stm.View()), n)
      ensures Quiet(old(stm.View())) ==> Notices(stm.world, old(stm.View()), n, stm.View())
    {
      ghost var now, c := ops, stm.View();
      ViewIsStable();
      match n {
        case GatewayDisconnect =>
          if stm.currentState != ConnectedSleepState && stm.currentState != ConnectedAwakeState {
            Disconnect();
          }
        case PingResponse =>
          if stm.currentState == ConnectedAwakeState {
            SendEvent(AwakeSleepEvent);
          }
        case AttachFinished =>
          PostEvent(AttachedEvent);
      }
      MovedBy(now, c, NoticeOps(c, n));
      if Quiet(c) {
        NoticeLeads(stm.world, c, n);
      }
    }

    method PostFailure()
      requires Valid()
      modifies this`ops, stm
      ensures Valid() && ops == old(ops) + [ErrnoOp(ConnectionError), PostOp(DisconnectEvent)]
    {
      SetErrno(ConnectionError);
      PostEvent(DisconnectEvent);
    }

    /** The end of an event loop cycle: what a finished or failed session posts; and the dispatch, unless
        the loop controller is still busy. */
    method FinishCycle(outcome: LoopOutcome)
      requires Valid()
      modifies this`ops, stm, stm.stateTimer
      ensures Valid() && ops == old(ops) + OutcomeOps(outcome)
      ensures Quiet(old(stm.View())) ==> Finishes(stm.world, old(stm.View()), outcome, stm.View())
    {
      ghost var now, c := ops, stm.View();
      ViewIsStable();
      match outcome {
        case LoopPending =>
        case LoopIdle => Dispatch();
        case SessionDone(connected) =>
          if connected {
            PostEvent(ConnectedEvent);
          }
        case SessionFailed(publish, invalidTopic) =>
          if publish && !invalidTopic {
            PostFailure();
          }
          Dispatch();
      }
      Finished(now, c, outcome);
    }

    method NotifyAndMove(n: Notice, ghost c: S.Config, ghost before: seq<Op>, ghost during: seq<Op>)
      returns (ghost noticed: seq<Op>, ghost moved: S.Config)
      requires Valid() && c == stm.View() && ops == before + during
      modifies this`ops, stm, stm.stateTimer
      ensures Valid() && moved == stm.View() && ops == before + (during + noticed)
      ensures noticed == NoticeOps(c, n) && moved == Run(stm.world, c, noticed)
    {
      noticed := NoticeOps(c, n);
      Notify(n);
      MovedBy(before + during, c, noticed);
      moved := stm.View();
      assert before + during + noticed == before + (during + noticed);
    }

    /** What happens during the loop step. */
    method NotifyAll(notices: seq<Notice>)
      requires Valid()
      modifies this`ops, stm, stm.stateTimer
      ensures Valid() && ops == old(ops) + NoticesOps(stm.world, old(stm.View()), notices)
    {
      ghost var c0, before := stm.View(), ops;
      ghost var c := c0;
      ghost var during: seq<Op> := [];
      var i := 0;
      NoOneNoticed(stm.world, c, notices);
      while i < |notices|
        invariant 0 <= i <= |notices| && Valid() && c == stm.View() && ops == before + during
        invariant NoticedSoFar(stm.world, c0, c, notices, i, during)
      {
        ghost var noticed, moved := NotifyAndMove(notices[i], c, before, during);
        OneMoreNoticed(stm.world, c0, c, notices, i, during, noticed, moved);
        during, c := during + noticed, moved;
        i := i + 1;
      }
      AllNoticed(stm.world, c0, c, notices, during);
    }

    /** One cycle of the event loop; `notices` and `outcome` are what its loop step does. */
    method EventLoop(asleep: bool, notices: seq<Notice>, outcome: LoopOutcome)
      requires Valid()
      modifies this`ops, stm, stm.stateTimer
      ensures Valid()
      ensures
        var first := CycleStart(old(stm.View()), asleep);
        var awake := Run(stm.world, old(stm.View()), first);
        ops == old(ops) + first + NoticesOps(stm.world, awake, notices) + OutcomeOps(outcome)
      ensures Quiet(old(stm.View())) && notices == [] ==> Cycles(stm.world, old(stm.View()), asleep, outcome, stm.View())
    {
      ghost var before, c := ops, stm.View();
      ViewIsStable();
      ghost var first: seq<Op> := [];
      if asleep && stm.currentState == ConnectedSleepState {
        SendEvent(ConnectedAwakeEvent);
        first := [SendOp(ConnectedAwakeEvent)];
      }
      assert ops == before + first;
      MovedBy(before, c, first);
      NotifyAll(notices);
      FinishCycle(outcome);
      if notices == [] {
        Cycled(before, c, asleep, outcome);
      }
    }
  }
}
