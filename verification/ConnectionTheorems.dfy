/** What holds of the connection machine in every configuration a client can bring it to. */
module ConnectionTheorems {
  import opened ConnectionTypes
  import S = ConnectionSpec
  import opened ConnectionTable
  import opened ConnectionInvariant
  import opened ConnectionRuns
  import opened ConnectionTimeouts
  import H = ConnectionHistory

  /** The configuration after the start and the calls `ops`, all of them allowed. */
  ghost predicate Reached(w: World, hasLogin: bool, ops: seq<Op>, c: S.Config)
    requires Acyclic(NBIOT_GRAPH)
  {
    var start := S.Start(NBIOT_GRAPH, w, S.Fresh(hasLogin));
    Legal(w, start, ops) && c == Run(w, start, ops)
  }

  lemma {:induction false} ReachedIsStable(w: World, hasLogin: bool, ops: seq<Op>, c: S.Config)
    requires Acyclic(NBIOT_GRAPH) && Reached(w, hasLogin, ops, c)
    ensures Stable(c)
  {
    StartIsStable(w, hasLogin);
    RunIsStable(w, S.Start(NBIOT_GRAPH, w, S.Fresh(hasLogin)), ops);
  }

  /** Outside Initial, Error and deep sleep the modem is initialized. */
  lemma {:induction false} WorkingMeansInitialized(w: World, hasLogin: bool, ops: seq<Op>, c: S.Config)
    requires Acyclic(NBIOT_GRAPH) && Reached(w, hasLogin, ops, c)
    ensures c.state != InitialState && c.state != ErrorState && c.state != DeepSleepState ==> c.initialized
  {
    ReachedIsStable(w, hasLogin, ops, c);
  }

  lemma {:induction false} TokenQueued(es: seq<StmEvent>, i: nat)
    requires i < |Tokens(es)|
    ensures exists k :: 0 <= k < |es| && es[k].kind == Tokens(es)[i]
  {
    if IsToken(es[0].kind) && i == 0 {
      assert es[0].kind == Tokens(es)[0];
    } else {
      var j := if IsToken(es[0].kind) then i - 1 else i;
      TokenQueued(es[1..], j);
      var k :| 0 <= k < |es[1..]| && es[1..][k].kind == Tokens(es[1..])[j];
      assert es[k + 1].kind == Tokens(es)[i];
    }
  }

  lemma {:induction false} TokenPresent(es: seq<StmEvent>, k: nat)
    requires k < |es| && IsToken(es[k].kind)
    ensures es[k].kind in Tokens(es)
  {
    if k > 0 {
      TokenPresent(es[1..], k - 1);
    }
  }

  /** Between calls all tokens are in line for the next dispatch. */
  lemma {:induction false} LinedUp(c: S.Config)
    requires Stable(c)
    ensures TokensFit(c.state, c.initialized, Tokens(c.events))
  {
    TokensConcat(c.events, c.pending);
    assert Tokens(c.events) + [] == Tokens(c.events);
  }

  lemma {:induction false} ErrorExitQueued(es: seq<StmEvent>)
    requires TokensFit(ErrorState, true, Tokens(es))
    ensures exists k :: 0 <= k < |es| && (es[k].kind == ErrorDisconnectEvent || es[k].kind == ReInitializeEvent)
  {
    TokenQueued(es, 0);
  }

  lemma {:induction false} InitializeOnlyInInitial(s: StateId, initialized: bool, es: seq<StmEvent>, k: nat)
    requires TokensFit(s, initialized, Tokens(es)) && k < |es| && es[k].kind == InitializeEvent
    ensures s == InitialState
  {
    TokenPresent(es, k);
  }

  /** No state is a dead end: the timer is armed in none but the waiting states; in those it is one that was started,
      and armed if and only if neither the clock reading it was started at nor that with the period added is 0, so
      with a clock above 0 always; and the initialized Error state has queued its own way out. */
  lemma {:induction false} NoDeadEnd(w: World, hasLogin: bool, ops: seq<Op>, c: S.Config)
    requires Acyclic(NBIOT_GRAPH) && Reached(w, hasLogin, ops, c)
    ensures c.timer.Armed() ==> Waiting(c.state, c.initialized)
    ensures Waiting(c.state, c.initialized) ==> ArmedUnlessZero(w, c.timer, c.ticks)
    ensures ClockAboveZero(w) ==> (c.timer.Armed() <==> Waiting(c.state, c.initialized))
    ensures c.state == ErrorState && c.initialized ==>
      exists k :: 0 <= k < |c.events| &&
        (c.events[k].kind == ErrorDisconnectEvent || c.events[k].kind == ReInitializeEvent)
  {
    ReachedIsStable(w, hasLogin, ops, c);
    LinedUp(c);
    ReachedIsTimed(w, hasLogin, ops, c);
    if Waiting(c.state, c.initialized) {
      StartedIsArmed(w, c.timer, c.ticks);
    }
    if c.state == ErrorState && c.initialized {
      ErrorExitQueued(c.events);
    }
  }

  lemma {:induction false} ReachedIsTimed(w: World, hasLogin: bool, ops: seq<Op>, c: S.Config)
    requires Acyclic(NBIOT_GRAPH) && Reached(w, hasLogin, ops, c)
    ensures Timed(w, c)
  {
    StartTimed(w, hasLogin);
    RunTimed(w, S.Start(NBIOT_GRAPH, w, S.Fresh(hasLogin)), ops);
  }

  lemma {:induction false} UnansweredIsError(w: World, c: S.Config, r: S.Config)
    requires Acyclic(NBIOT_GRAPH) && forall i: nat :: w.clock(i) == 0
    requires c.state == InitialState && !c.initialized && !c.timer.Armed() && c.pending == []
    requires c.events == [S.NewEvent(InitializeEvent)] && r == S.HandleFirst(NBIOT_GRAPH, w, c)
    ensures r.state == ErrorState && !r.initialized && !r.timer.Armed() && r.pending == [] && r.events == []
  {
    var (ev, rest) := S.Take(c);
    WalkIsTable(w, rest, ev);
    assert NextOf(w, rest, ev.kind) == Go([Initialize, IsInitializedError], 0, ErrorState);
  }

  /** With a clock that stands at 0 the machine can end up where no timeout will come: here the modem never
      answers, and the start ends in the uninitialized Error state, unarmed and with nothing queued. */
  lemma {:induction false} StoppedClockIsDeadEnd(w: World)
    requires Acyclic(NBIOT_GRAPH) && (forall i: nat :: w.clock(i) == 0) && (forall i: nat :: !w.modem(i))
    ensures
      var c := S.Start(NBIOT_GRAPH, w, S.Fresh(false));
      c.state == ErrorState && !c.initialized && !c.timer.Armed() && c.events == []
  {
    var c1 := S.Push(S.Enter(w, S.Fresh(false), InitialState, InvalidEvent), InitializeEvent);
    var c2 := S.HandleFirst(NBIOT_GRAPH, w, c1);
    UnansweredIsError(w, c1, c2);
    assert S.TimerCheck(w, c1) == c1;
    assert S.Drain(NBIOT_GRAPH, w, c2) == c2;
  }

  /** The events the machine sends itself only meet the states they are meant for: Initialize is queued
      in Initial alone, and no handled event found another state or was aborted. */
  lemma {:induction false} OwnEventsMeetTheirState(w: World, hasLogin: bool, ops: seq<Op>, c: S.Config)
    requires Acyclic(NBIOT_GRAPH) && Reached(w, hasLogin, ops, c)
    ensures forall k :: 0 <= k < |c.events| && c.events[k].kind == InitializeEvent ==> c.state == InitialState
    ensures forall i :: 0 <= i < |c.log| && c.log[i].EventDone? ==>
      var e := c.log[i];
      && e.result != Aborted
      && (e.kind == InitializeEvent ==> e.at == InitialState)
      && !(e.kind == ErrorDisconnectEvent && e.at == ErrorState && !e.initialized)
  {
    ReachedIsStable(w, hasLogin, ops, c);
    LinedUp(c);
    forall k | 0 <= k < |c.events| && c.events[k].kind == InitializeEvent ensures c.state == InitialState {
      InitializeOnlyInInitial(c.state, c.initialized, c.events, k);
    }
    forall i | 0 <= i < |c.log| && c.log[i].EventDone? ensures GoodStep(c.log[..i], c.log[i]) {
      HistoryAt(c.log, i);
    }
  }

  /** The modem is rebooted out of the Error state after exactly five attach timeouts in a row: no
      successful attach and no such reboot in between. Between calls the counter is at most four. */
  lemma {:induction false} RebootAfterFiveTimeouts(w: World, hasLogin: bool, ops: seq<Op>, c: S.Config)
    requires Acyclic(NBIOT_GRAPH) && Reached(w, hasLogin, ops, c)
    ensures c.restarts == TimeoutsSinceReset(c.log) <= 4
    ensures forall i :: 0 <= i < |c.log| && c.log[i] == Rebooted(ErrorState) ==> TimeoutsSinceReset(c.log[..i]) == 5
  {
    ReachedIsStable(w, hasLogin, ops, c);
    forall i | 0 <= i < |c.log| && c.log[i] == Rebooted(ErrorState) ensures TimeoutsSinceReset(c.log[..i]) == 5 {
      HistoryAt(c.log, i);
    }
  }

  // ----- every event that is handled enters one state -----

  lemma {:induction false} RunKeepsBalance(w: World, c: S.Config, ops: seq<Op>)
    requires Acyclic(NBIOT_GRAPH)
    ensures H.Balance(Run(w, c, ops).log) == H.Balance(c.log)
    decreases |ops|
  {
    if ops != [] {
      var c1 := Apply(w, c, ops[0]);
      match ops[0] {
        case SendOp(kind) => H.DispatchIsFifo(NBIOT_GRAPH, w, S.Push(c, kind));
        case PostOp(kind) => H.PostQuiet(c, kind);
        case DispatchOp => H.DispatchIsFifo(NBIOT_GRAPH, w, c);
        case LoginOp(_) =>
        case DurationOp(_) =>
        case ErrnoOp(_) =>
      }
      assert H.Balance(c1.log) == H.Balance(c.log);
      RunKeepsBalance(w, c1, ops[1..]);
    }
  }

  /** Over a whole run, the states entered are the first one and one for each handled event. */
  lemma {:induction false} OneStatePerHandledEvent(w: World, hasLogin: bool, ops: seq<Op>, c: S.Config)
    requires Acyclic(NBIOT_GRAPH) && Reached(w, hasLogin, ops, c)
    ensures H.Balance(c.log) == 1
  {
    var c0 := S.Fresh(hasLogin);
    var c1 := S.Enter(w, c0, InitialState, InvalidEvent);
    H.EnterQuiet(w, c0, InitialState, InvalidEvent);
    H.DispatchIsFifo(NBIOT_GRAPH, w, S.Push(c1, InitializeEvent));
    RunKeepsBalance(w, S.Start(NBIOT_GRAPH, w, c0), ops);
  }

  // ----- the way out is taken -----

  lemma {:induction false} HeadIsHandled(w: World, c: S.Config)
    requires Acyclic(NBIOT_GRAPH) && c.events != []
    requires S.FirstMatch(NBIOT_GRAPH, TransitionsOf(c.state), c.events[0].kind).Some?
    ensures H.Handlings(S.HandleFirst(NBIOT_GRAPH, w, c).log) == H.Handlings(c.log) + 1
  {
    var (ev, rest) := S.Take(c);
    var m := RowFor(w, rest, ev.kind);
    var t := m.path[0];
    H.FinishQuiet(NBIOT_GRAPH, w, rest, t, ev.kind);
    var o := S.Finish(w, S.Route(NBIOT_GRAPH, w, rest, t), ev.kind);
    H.ReportProgresses(rest, o.config, ev.kind, ev.id, rest.state, rest.initialized, o.result);
  }

  /** A queued timeout of a waiting state, or the token of an initialized Error state. */
  predicate Leaving(c: S.Config) {
    || (Waiting(c.state, c.initialized) && HasTimer(c.events))
    || (c.state == ErrorState && c.initialized && Tokens(c.events) != [])
  }

  lemma {:induction false} StillQueued(es: seq<StmEvent>)
    requires es != []
    ensures HasTimer(es) && es[0].kind != TimerEvent ==> HasTimer(es[1..])
    ensures !IsToken(es[0].kind) ==> Tokens(es[1..]) == Tokens(es)
  {
    if HasTimer(es) && es[0].kind != TimerEvent {
      var i :| 0 <= i < |es| && es[i].kind == TimerEvent;
      assert es[1..][i - 1].kind == TimerEvent;
    }
  }

  lemma {:induction false} IgnoredStaysLeaving(c: S.Config, rest: S.Config)
    requires c.events != [] && Leaving(c)
    requires RowFacts(c.state, c.events[0].kind, c.initialized, Stay)
    requires c.events[0].kind == InitializeEvent ==> c.state == InitialState
    requires rest.events == c.events[1..] && rest.state == c.state && rest.initialized == c.initialized
    ensures Leaving(rest)
  {
    StillQueued(c.events);
  }

  /** The head of the queue is handled, or it is ignored and the way out still queued. */
  lemma {:induction false} HeadLeaves(w: World, c: S.Config, c1: S.Config)
    requires Acyclic(NBIOT_GRAPH) && Draining(c) && Leaving(c) && c1 == S.HandleFirst(NBIOT_GRAPH, w, c)
    ensures H.Handlings(c1.log) > H.Handlings(c.log) || Leaving(c1)
  {
    var m := RowOfHead(w, c);
    if m.Go? {
      HeadIsHandled(w, c);
    } else {
      IgnoredIs(w, c, c1);
      HeadOfQueue(c);
      IgnoredStaysLeaving(c, c1);
    }
  }

  lemma {:induction false} IgnoredIs(w: World, c: S.Config, c1: S.Config)
    requires c.events != [] && c1 == Perform(w, S.Take(c).1, S.Take(c).0, Stay)
    ensures c1.events == c.events[1..] && c1.state == c.state && c1.initialized == c.initialized
  {
  }

  lemma {:induction false} DrainLeaves(w: World, c: S.Config)
    requires Acyclic(NBIOT_GRAPH) && Draining(c) && Leaving(c)
    ensures H.Handlings(S.Drain(NBIOT_GRAPH, w, c).log) > H.Handlings(c.log)
    decreases |c.events|
  {
    var c1 := S.HandleFirst(NBIOT_GRAPH, w, c);
    HeadLeaves(w, c, c1);
    H.HandleFirstProgresses(NBIOT_GRAPH, w, c);
    if Leaving(c1) {
      HandleFirstKeepsDraining(w, c);
      DrainLeaves(w, c1);
    } else {
      H.DrainProgresses(NBIOT_GRAPH, w, c1);
    }
  }

  /** Main result: a dispatch that finds the state timer expired, or the initialized Error state, leaves the
      state: some event is handled, which enters one. */
  lemma {:induction false} ExitIsTaken(w: World, c: S.Config)
    requires Acyclic(NBIOT_GRAPH) && Stable(c)
    requires
      || (c.timer.Armed() && c.timer.Remaining(w.clock(c.ticks)) == 0)
      || (c.state == ErrorState && c.initialized)
    ensures H.Handlings(S.Dispatch(NBIOT_GRAPH, w, c).log) > H.Handlings(c.log)
  {
    var c1 := S.TimerCheck(w, c);
    TimerCheckStartsDraining(w, c);
    TokensConcat(c.events, c.pending);
    if c1.events != c.events {
      assert c1.events[|c1.events| - 1].kind == TimerEvent;
    }
    DrainLeaves(w, c1);
  }
}
