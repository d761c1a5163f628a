/** The timer of a waiting state is one that was started: at some clock reading, for some period. */
module ConnectionTimeouts {
  import opened ConnectionTypes
  import opened Timers
  import S = ConnectionSpec
  import opened ConnectionTable
  import opened ConnectionInvariant
  import opened ConnectionRuns

  /** One of the first `n` clock readings started the timer, for a period that is not negative. */
  ghost predicate StartedBefore(w: World, t: TimerMarks, n: nat) {
    exists i: nat, ms: nat :: i < n && t == Started(w.clock(i), ms)
  }

  /** Such a timer is armed if and only if neither of its marks came out as 0. */
  ghost predicate ArmedUnlessZero(w: World, t: TimerMarks, n: nat) {
    exists i: nat, ms: nat ::
      && i < n && t == Started(w.clock(i), ms)
      && (t.Armed() <==> w.clock(i) != 0 && w.clock(i) + ms != 0)
  }

  ghost predicate Timed(w: World, c: S.Config) {
    Waiting(c.state, c.initialized) ==> StartedBefore(w, c.timer, c.ticks)
  }

  lemma {:induction false} StartedIsArmed(w: World, t: TimerMarks, n: nat)
    requires StartedBefore(w, t, n)
    ensures ArmedUnlessZero(w, t, n)
    ensures ClockAboveZero(w) ==> t.Armed()
  {
    var i: nat, ms: nat :| i < n && t == Started(w.clock(i), ms);
    assert t.Armed() <==> w.clock(i) != 0 && w.clock(i) + ms != 0;
  }

  lemma {:induction false} StillStarted(w: World, t: TimerMarks, n: nat, m: nat)
    requires StartedBefore(w, t, n) && n <= m
    ensures StartedBefore(w, t, m)
  {
    var i: nat, ms: nat :| i < n && t == Started(w.clock(i), ms);
    assert i < m && t == Started(w.clock(i), ms);
  }

  lemma {:induction false} TimeoutStarts(w: World, c: S.Config, ms: nat)
    ensures Timed(w, S.SetTimeout(w, c, ms))
  {
    var r := S.SetTimeout(w, c, ms);
    assert c.ticks < r.ticks && r.timer == Started(w.clock(c.ticks), ms);
  }

  lemma {:induction false} InitialEntryTimed(w: World, c: S.Config, kind: EventType)
    ensures Timed(w, S.InitialEntry(w, c, kind))
  {
    var again := kind == ReInitializeEvent || kind == TimerEvent;
    var (ok, c1) := S.BringUp(w, c, again);
    TimeoutStarts(w, (if again then S.Post(c1, InitializeEvent) else c1).(initialized := ok), S.ONE_MINUTE);
  }

  lemma {:induction false} EntryActionTimed(w: World, c: S.Config, s: StateId, kind: EventType)
    requires c.state == s
    ensures Timed(w, S.EntryAction(w, c, s, kind))
  {
    match s
    case InitialState => InitialEntryTimed(w, c, kind);
    case ErrorState => TimeoutStarts(w, c, S.ONE_MINUTE);
    case ConnectedAwakeState => TimeoutStarts(w, c, S.ONE_SECOND * c.duration);
    case WaitForAttachState => TimeoutStarts(w, c, S.ONE_MINUTE);
    case WaitForConnectState => TimeoutStarts(w, c, S.ONE_MINUTE);
    case _ =>
  }

  lemma {:induction false} EnterTimed(w: World, c: S.Config, s: StateId, kind: EventType)
    ensures Timed(w, S.Enter(w, c, s, kind))
  {
    EntryActionTimed(w, S.Arrive(c, s), s, kind);
  }

  lemma {:induction false} RecordTimed(w: World, c: S.Config, s: Step)
    requires Timed(w, c)
    ensures Timed(w, S.Record(c, s))
  {
  }

  lemma {:induction false} MovedTimed(w: World, fired: S.Config, to: StateId, kind: EventType, s: Step, p: S.Config)
    requires p == S.Record(S.Enter(w, fired, to, kind), s)
    ensures Timed(w, p)
  {
    EnterTimed(w, fired, to, kind);
    RecordTimed(w, S.Enter(w, fired, to, kind), s);
  }

  /** A row performed ends with a state entered and a step recorded. */
  lemma {:induction false} PerformEnds(w: World, c: S.Config, ev: StmEvent, m: Move)
    returns (fired: S.Config, s: Step)
    requires m.Go?
    ensures Perform(w, c, ev, m) == S.Record(S.Enter(w, fired, m.to, ev.kind), s)
  {
    fired := FireAll(c.(asked := c.asked + m.answers), m.path);
    s := EventDone(ev.kind, ev.id, c.state, c.initialized, Handled);
  }

  lemma {:induction false} PerformTimed(w: World, c: S.Config, ev: StmEvent, m: Move, p: S.Config)
    requires Timed(w, c) && p == Perform(w, c, ev, m)
    ensures Timed(w, p)
  {
    if m.Go? {
      var fired, s := PerformEnds(w, c, ev, m);
      MovedTimed(w, fired, m.to, ev.kind, s, p);
    } else {
      RecordTimed(w, c, EventDone(ev.kind, ev.id, c.state, c.initialized, Ignored));
    }
  }

  lemma {:induction false} HandleFirstTimed(w: World, c: S.Config)
    requires Acyclic(NBIOT_GRAPH) && Timed(w, c) && c.events != []
    ensures Timed(w, S.HandleFirst(NBIOT_GRAPH, w, c))
  {
    var m := RowOfHead(w, c);
    PerformTimed(w, S.Take(c).1, S.Take(c).0, m, S.HandleFirst(NBIOT_GRAPH, w, c));
  }

  lemma {:induction false} DrainTimed(w: World, c: S.Config)
    requires Acyclic(NBIOT_GRAPH) && Timed(w, c)
    ensures Timed(w, S.Drain(NBIOT_GRAPH, w, c))
    decreases |c.events|
  {
    if c.events != [] {
      HandleFirstTimed(w, c);
      DrainTimed(w, S.HandleFirst(NBIOT_GRAPH, w, c));
    }
  }

  /** What a look at the timer leaves is the old timer or one that was started again. */
  lemma {:induction false} TimerCheckTimed(w: World, c: S.Config)
    requires Timed(w, c)
    ensures Timed(w, S.TimerCheck(w, c))
  {
    var r := S.TimerCheck(w, c);
    if r.timer == c.timer {
      if Waiting(c.state, c.initialized) {
        StillStarted(w, c.timer, c.ticks, r.ticks);
      }
    } else {
      var period := c.timer.Expired(w.clock(c.ticks + 1));
      assert c.ticks + 2 < r.ticks && r.timer == Started(w.clock(c.ticks + 2), period);
    }
  }

  lemma {:induction false} DispatchTimed(w: World, c: S.Config)
    requires Acyclic(NBIOT_GRAPH) && Timed(w, c)
    ensures Timed(w, S.Dispatch(NBIOT_GRAPH, w, c))
  {
    TimerCheckTimed(w, c);
    DrainTimed(w, S.TimerCheck(w, c));
  }

  lemma {:induction false} RunTimed(w: World, c: S.Config, ops: seq<Op>)
    requires Acyclic(NBIOT_GRAPH) && Timed(w, c)
    ensures Timed(w, Run(w, c, ops))
    decreases |ops|
  {
    if ops != [] {
      match ops[0] {
        case SendOp(kind) => DispatchTimed(w, S.Push(c, kind));
        case DispatchOp => DispatchTimed(w, c);
        case _ =>
      }
      RunTimed(w, Apply(w, c, ops[0]), ops[1..]);
    }
  }

  lemma {:induction false} StartTimed(w: World, hasLogin: bool)
    requires Acyclic(NBIOT_GRAPH)
    ensures Timed(w, S.Start(NBIOT_GRAPH, w, S.Fresh(hasLogin)))
  {
    var c0 := S.Fresh(hasLogin);
    EnterTimed(w, c0, InitialState, InvalidEvent);
    DispatchTimed(w, S.Push(S.Enter(w, c0, InitialState, InvalidEvent), InitializeEvent));
  }
}
