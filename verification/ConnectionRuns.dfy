/** The invariant over whole runs: one event, one dispatch, any sequence of calls. */
module ConnectionRuns {
  import opened ConnectionTypes
  import S = ConnectionSpec
  import opened ConnectionTable
  import opened ConnectionInvariant

  // ----- one event -----

  function HeadToken(kind: EventType): seq<EventType> {
    if IsToken(kind) then [kind] else []
  }

  /** Tokens left in the queue behind its head. */
  function Rest(c: S.Config): seq<EventType>
    requires c.events != []
  {
    Tokens(c.events[1..]) + Tokens(c.pending)
  }

  lemma {:induction false} Regrouped(a: seq<EventType>, b: seq<EventType>, c: seq<EventType>)
    ensures (a + b) + c == a + (b + c)
  {
  }

  lemma {:induction false} QueueSplit(c: S.Config)
    requires c.events != []
    ensures Tokens(c.events + c.pending) == HeadToken(c.events[0].kind) + Rest(c)
    ensures Tokens(c.events) == HeadToken(c.events[0].kind) + Tokens(c.events[1..])
  {
    TokensConcat(c.events, c.pending);
    Regrouped(HeadToken(c.events[0].kind), Tokens(c.events[1..]), Tokens(c.pending));
  }

  /** Taking the head off a fitting line of tokens: which states can see it, and what is left. */
  predicate HeadFits(s: StateId, initialized: bool, kind: EventType, rest: seq<EventType>) {
    match kind
    case InitializeEvent => s == InitialState && rest == []
    case ErrorDisconnectEvent =>
      (s == InitialState && rest == [InitializeEvent]) || (s == ErrorState && initialized && rest == [])
    case ReInitializeEvent =>
      || (s == InitialState && rest == [InitializeEvent])
      || (s == ErrorState && initialized && rest == [])
      || (s == DeepSleepState && rest == [])
    case _ => TokensFit(s, initialized, rest)
  }

  lemma {:induction false} TokensFitHead(s: StateId, initialized: bool, kind: EventType, rest: seq<EventType>)
    requires TokensFit(s, initialized, HeadToken(kind) + rest)
    ensures HeadFits(s, initialized, kind, rest)
  {
    var line := HeadToken(kind) + rest;
    if IsToken(kind) {
      assert line[0] == kind && line[1..] == rest;
    } else {
      assert line == rest;
    }
  }

  lemma {:induction false} TimerHeadIsAlone(c: S.Config)
    requires c.events != [] && TimerOnlyLast(c.events)
    ensures HasTimer(c.events[1..]) ==> HasTimer(c.events)
    ensures TimerOnlyLast(c.events[1..])
    ensures c.events[0].kind == TimerEvent ==> HasTimer(c.events) && c.events[1..] == []
  {
    if HasTimer(c.events[1..]) {
      var i :| 0 <= i < |c.events[1..]| && c.events[1..][i].kind == TimerEvent;
      assert c.events[i + 1].kind == TimerEvent;
    }
  }

  /** The head of the queue is an event the current state may see. */
  lemma {:induction false} HeadOfQueue(c: S.Config)
    requires Draining(c) && c.events != []
    ensures
      var kind := c.events[0].kind;
      && HeadFits(c.state, c.initialized, kind, Rest(c))
      && (kind == ReInitializeEvent && c.state != InitialState ==> !HasTimer(c.events))
      && (kind == TimerEvent ==> c.state != InitialState && c.events[1..] == [])
  {
    QueueSplit(c);
    TimerHeadIsAlone(c);
    TokensFitHead(c.state, c.initialized, c.events[0].kind, Rest(c));
    if c.events[0].kind == TimerEvent {
      assert Tokens(c.events[1..]) == [];
    }
  }

  lemma {:induction false} DoneKeeps(c: S.Config, kind: EventType, id: int, s: StateId, initialized: bool, result: EventState)
    requires Counted(c) && GoodStep(c.log, EventDone(kind, id, s, initialized, result))
    ensures Counted(S.Record(c, EventDone(kind, id, s, initialized, result)))
  {
    HistoryGrows(c.log, EventDone(kind, id, s, initialized, result));
  }

  lemma {:induction false} IgnoredTokensFit(s: StateId, initialized: bool, kind: EventType, rest: seq<EventType>)
    requires RowFacts(s, kind, initialized, Stay) && HeadFits(s, initialized, kind, rest)
    ensures TokensFit(s, initialized, rest)
  {
  }

  lemma {:induction false} IgnoredKeepsPlace(c: S.Config)
    requires Draining(c) && c.events != []
    requires RowFacts(c.state, c.events[0].kind, c.initialized, Stay)
    ensures TimerPlaced(c.state, c.events[1..])
  {
    HeadOfQueue(c);
    QueueSplit(c);
    TimerHeadIsAlone(c);
  }

  lemma {:induction false} IgnoredKeepsDraining(w: World, c: S.Config)
    requires Draining(c) && c.events != []
    requires RowFacts(c.state, c.events[0].kind, c.initialized, Stay)
    ensures
      var (ev, rest) := S.Take(c);
      Draining(Perform(w, rest, ev, Stay))
  {
    var (ev, rest) := S.Take(c);
    IgnoredKeepsPlace(c);
    assert Tokens(rest.events + rest.pending) == Rest(c) by {
      TokensConcat(rest.events, rest.pending);
    }
    assert && TokensFit(c.state, c.initialized, Rest(c))
           && GoodStep(rest.log, EventDone(ev.kind, ev.id, c.state, c.initialized, Ignored)) by {
      HeadOfQueue(c);
      IgnoredTokensFit(c.state, c.initialized, ev.kind, Rest(c));
    }
    DoneKeeps(rest, ev.kind, ev.id, c.state, c.initialized, Ignored);
  }

  /** What a fired and entered row leaves of the queue still fits the new state. */
  lemma {:induction false} PostsFit(s: StateId, kind: EventType, initialized: bool, rest: seq<EventType>, m: Move,
                 fired: S.Config, now: bool)
    requires m.Go? && RowFacts(s, kind, initialized, m) && HeadFits(s, initialized, kind, rest)
    requires fired.initialized == initialized
    requires Working(s) ==> initialized
    requires m.to != InitialState ==> now == (m.to != DeepSleepState && initialized)
    requires s == InitialState ==> kind != TimerEvent
    ensures TokensFit(m.to, now, rest + PostsOf(m.to, kind, fired))
    ensures Working(m.to) ==> now
  {
    if PostsOf(m.to, kind, fired) == [] {
      assert rest + [] == rest;
    }
  }

  lemma {:induction false} MovedKeepsPlace(c: S.Config, m: Move)
    requires Draining(c) && c.events != []
    requires m.Go? && RowFacts(c.state, c.events[0].kind, c.initialized, m)
    ensures TimerPlaced(m.to, c.events[1..])
  {
    HeadOfQueue(c);
    QueueSplit(c);
    TimerHeadIsAlone(c);
  }

  lemma {:induction false} PendingKeeps(pending: seq<StmEvent>, posts: seq<EventType>)
    requires !HasTimer(pending) && |posts| <= 1 && forall i :: 0 <= i < |posts| ==> IsToken(posts[i])
    ensures !HasTimer(PendingAfter(pending, posts))
    ensures Tokens(PendingAfter(pending, posts)) == Tokens(pending) + posts
  {
    if posts != [] {
      TokensAppend(pending, S.NewEvent(posts[0]));
    }
  }

  lemma {:induction false} RestThenPosts(c: S.Config, posts: seq<EventType>, events: seq<StmEvent>, pending: seq<StmEvent>)
    requires c.events != [] && events == c.events[1..] && pending == PendingAfter(c.pending, posts)
    requires !HasTimer(c.pending) && |posts| <= 1 && forall i :: 0 <= i < |posts| ==> IsToken(posts[i])
    ensures Tokens(events + pending) == Rest(c) + posts
    ensures !HasTimer(pending) && Tokens(pending) == Tokens(c.pending) + posts
  {
    PendingKeeps(c.pending, posts);
    TokensConcat(events, pending);
    Regrouped(Tokens(events), Tokens(c.pending), posts);
  }

  /** What a row of the table leaves behind: the configuration `fired` before a state is entered and
      the one after it, `r`. */
  ghost predicate Entering(c: S.Config, kind: EventType, m: Move, fired: S.Config, r: S.Config) {
    && c.events != []
    && fired.initialized == c.initialized && fired.pending == c.pending
    && fired.events == c.events[1..] && fired.eventId <= S.MAX_INT
    && m.Go? && EntryDone(fired, m.to, kind, r) && (m.to == DeepSleepState ==> !r.initialized)
  }

  lemma {:induction false} EnteredTokensFit(c: S.Config, kind: EventType, m: Move, fired: S.Config, r: S.Config)
    requires Draining(c) && Entering(c, kind, m, fired, r) && kind == c.events[0].kind
    requires RowFacts(c.state, kind, c.initialized, m)
    ensures TokensFit(m.to, r.initialized, Tokens(r.events + r.pending))
    ensures Working(m.to) ==> r.initialized
    ensures !HasTimer(r.pending) && (m.to == DeepSleepState ==> Tokens(r.pending) == [])
  {
    var posts := PostsOf(m.to, kind, fired);
    HeadOfQueue(c);
    RestThenPosts(c, posts, r.events, r.pending);
    PostsFit(c.state, kind, c.initialized, Rest(c), m, fired, r.initialized);
  }

  lemma {:induction false} EnteredKeepsDraining(c: S.Config, ev: StmEvent, m: Move, fired: S.Config, r: S.Config)
    requires Draining(c) && Entering(c, ev.kind, m, fired, r) && ev.kind == c.events[0].kind
    requires RowFacts(c.state, ev.kind, c.initialized, m)
    ensures Draining(S.Record(r, EventDone(ev.kind, ev.id, c.state, c.initialized, Handled)))
  {
    EnteredTokensFit(c, ev.kind, m, fired, r);
    MovedKeepsPlace(c, m);
    assert GoodStep(r.log, EventDone(ev.kind, ev.id, c.state, c.initialized, Handled)) by {
      HeadOfQueue(c);
    }
    DoneKeeps(r, ev.kind, ev.id, c.state, c.initialized, Handled);
  }

  /** `fired` is `c` without the head of its queue and after the transitions of row `m`. */
  ghost predicate FiredFrom(c: S.Config, m: Move, fired: S.Config) {
    && c.events != [] && m.Go? && m.to != InvalidState
    && fired.initialized == c.initialized && fired.pending == c.pending && fired.eventId <= S.MAX_INT
    && fired.events == c.events[1..] && Counted(fired)
    && fired.restarts <= S.RESTART_MODEM_THRESHOLD
    && (fired.restarts == S.RESTART_MODEM_THRESHOLD ==> m.to == ErrorState && c.initialized)
  }

  lemma {:induction false} TakeKeeps(c: S.Config)
    requires c.events != []
    ensures
      var (ev, rest) := S.Take(c);
      && ev.kind == c.events[0].kind && rest == c.(events := c.events[1..], eventId := rest.eventId)
      && (c.eventId <= S.MAX_INT ==> rest.eventId <= S.MAX_INT)
  {
  }

  lemma {:induction false} FiredRest(c: S.Config, m: Move, rest: S.Config) returns (fired: S.Config)
    requires Draining(c) && c.events != []
    requires m.Go? && RowFacts(c.state, c.events[0].kind, c.initialized, m)
    requires rest == c.(events := c.events[1..], eventId := rest.eventId, asked := rest.asked)
    requires rest.eventId <= S.MAX_INT
    ensures fired == FireAll(rest, m.path) && FiredFrom(c, m, fired)
  {
    FireAllKeeps(rest, m.path);
    fired := FireAll(rest, m.path);
  }

  lemma {:induction false} FiredRow(c: S.Config, m: Move) returns (fired: S.Config)
    requires Draining(c) && c.events != []
    requires m.Go? && RowFacts(c.state, c.events[0].kind, c.initialized, m)
    ensures fired == FireAll(S.Take(c).1.(asked := c.asked + m.answers), m.path)
    ensures FiredFrom(c, m, fired)
  {
    TakeKeeps(c);
    fired := FiredRest(c, m, S.Take(c).1.(asked := c.asked + m.answers));
  }

  lemma {:induction false} EnteredRow(w: World, c: S.Config, kind: EventType, m: Move, fired: S.Config)
    requires FiredFrom(c, m, fired)
    ensures Entering(c, kind, m, fired, S.Enter(w, fired, m.to, kind))
  {
    EnterDone(w, fired, m.to, kind);
  }

  /** Performing a row is firing its path, entering its state and reporting the event. */
  lemma {:induction false} MovedKeepsDraining(w: World, c: S.Config, m: Move, fired: S.Config, r: S.Config, p: S.Config)
    requires Draining(c) && FiredFrom(c, m, fired)
    requires RowFacts(c.state, c.events[0].kind, c.initialized, m)
    requires r == S.Enter(w, fired, m.to, c.events[0].kind)
    requires p == S.Record(r, EventDone(c.events[0].kind, S.Take(c).0.id, c.state, c.initialized, Handled))
    ensures Draining(p)
  {
    EnteredRow(w, c, c.events[0].kind, m, fired);
    EnteredKeepsDraining(c, S.Take(c).0, m, fired, r);
  }

  /** A row performed is a path fired, a state entered and the event reported. */
  lemma {:induction false} PerformIs(w: World, c: S.Config, m: Move, fired: S.Config)
    requires c.events != [] && m.Go?
    requires fired == FireAll(S.Take(c).1.(asked := c.asked + m.answers), m.path)
    ensures Perform(w, S.Take(c).1, S.Take(c).0, m) == S.Record(
      S.Enter(w, fired, m.to, c.events[0].kind),
      EventDone(c.events[0].kind, S.Take(c).0.id, c.state, c.initialized, Handled))
  {
    TakeKeeps(c);
  }

  lemma {:induction false} PerformMovedKeepsDraining(w: World, c: S.Config, m: Move)
    requires Draining(c) && c.events != []
    requires m.Go? && RowFacts(c.state, c.events[0].kind, c.initialized, m)
    ensures Draining(Perform(w, S.Take(c).1, S.Take(c).0, m))
  {
    var p := Perform(w, S.Take(c).1, S.Take(c).0, m);
    var fired := FiredRow(c, m);
    PerformIs(w, c, m, fired);
    MovedKeepsDraining(w, c, m, fired, S.Enter(w, fired, m.to, c.events[0].kind), p);
  }

  lemma {:induction false} PerformKeepsDraining(w: World, c: S.Config, m: Move, p: S.Config)
    requires Draining(c) && c.events != []
    requires RowFacts(c.state, c.events[0].kind, c.initialized, m)
    requires p == Perform(w, S.Take(c).1, S.Take(c).0, m)
    ensures Draining(p)
  {
    if m.Go? {
      PerformMovedKeepsDraining(w, c, m);
    } else {
      IgnoredKeepsDraining(w, c);
    }
  }

  /** The row for an event: picked, walked, and with the facts the invariant needs. */
  lemma {:induction false} RowFor(w: World, c: S.Config, kind: EventType) returns (m: Move)
    requires Acyclic(NBIOT_GRAPH)
    ensures m == NextOf(w, c, kind) && RowFacts(c.state, kind, c.initialized, m)
    ensures S.FirstMatch(NBIOT_GRAPH, TransitionsOf(c.state), kind) == FirstFired(m)
    ensures m.Go? ==> m.path != [] && Walked(w, c, m)
  {
    m := NextOf(w, c, kind);
    NextHasFacts(c.state, kind, c.initialized, w.modem(c.asked), w.modem(c.asked + 1));
    FirstMatchIsTable(c.state, kind, c.initialized, w.modem(c.asked), w.modem(c.asked + 1));
    if m.Go? {
      NextIsRow(w, c, kind);
      RowIsWalked(w, c, m);
    }
  }

  lemma {:induction false} SameNext(w: World, c: S.Config, rest: S.Config, kind: EventType)
    requires rest == c.(events := rest.events, eventId := rest.eventId)
    ensures NextOf(w, rest, kind) == NextOf(w, c, kind)
  {
  }

  /** The row that handles the head of the queue. */
  lemma {:induction false} RowOfHead(w: World, c: S.Config) returns (m: Move)
    requires Acyclic(NBIOT_GRAPH) && c.events != []
    ensures m == NextOf(w, c, c.events[0].kind) && RowFacts(c.state, c.events[0].kind, c.initialized, m)
    ensures m.Go? ==> S.FirstMatch(NBIOT_GRAPH, TransitionsOf(c.state), c.events[0].kind).Some?
    ensures S.HandleFirst(NBIOT_GRAPH, w, c) == Perform(w, S.Take(c).1, S.Take(c).0, m)
  {
    var (ev, rest) := S.Take(c);
    TakeKeeps(c);
    SameNext(w, c, rest, ev.kind);
    m := RowFor(w, rest, ev.kind);
    HandleIsPerform(w, rest, ev, m);
  }

  lemma {:induction false} HandleFirstKeepsDraining(w: World, c: S.Config)
    requires Acyclic(NBIOT_GRAPH) && Draining(c) && c.events != []
    ensures Draining(S.HandleFirst(NBIOT_GRAPH, w, c))
  {
    var m := RowOfHead(w, c);
    PerformKeepsDraining(w, c, m, S.HandleFirst(NBIOT_GRAPH, w, c));
  }

  // ----- one dispatch -----

  lemma {:induction false} PushTokens(c: S.Config, kind: EventType)
    requires Tokens(c.pending) == []
    ensures Tokens(c.events + c.pending) == Tokens(c.events)
    ensures Tokens(S.Push(c, kind).events) == Tokens(c.events) + HeadToken(kind)
    ensures Tokens(S.Push(c, kind).events + c.pending) == Tokens(c.events) + HeadToken(kind)
  {
    TokensAppend(c.events, S.NewEvent(kind));
    TokensConcat(c.events, c.pending);
    TokensConcat(S.Push(c, kind).events, c.pending);
  }

  lemma {:induction false} TimerCheckKeepsTimer(w: World, c: S.Config)
    ensures
      var r := S.TimerCheck(w, c);
      && (r.timer.Armed() ==> c.timer.Armed())
      && (r.events == c.events || (c.timer.Armed() && r.events == S.Push(c, TimerEvent).events))
      && r == c.(timer := r.timer, events := r.events, ticks := r.ticks)
  {
  }

  lemma {:induction false} TimerCheckStartsDraining(w: World, c: S.Config)
    requires Ready(c)
    ensures Draining(S.TimerCheck(w, c))
  {
    TimerCheckKeepsTimer(w, c);
    PushTokens(c, TimerEvent);
    assert HeadToken(TimerEvent) == [];
  }

  lemma {:induction false} DrainKeepsDraining(w: World, c: S.Config)
    requires Acyclic(NBIOT_GRAPH) && Draining(c)
    ensures Draining(S.Drain(NBIOT_GRAPH, w, c)) && S.Drain(NBIOT_GRAPH, w, c).events == []
    decreases |c.events|
  {
    if c.events != [] {
      HandleFirstKeepsDraining(w, c);
      DrainKeepsDraining(w, S.HandleFirst(NBIOT_GRAPH, w, c));
    }
  }

  lemma {:induction false} FlushIsStable(c: S.Config)
    requires Draining(c) && c.events == []
    ensures Stable(S.Flush(c))
  {
    assert c.events + c.pending == c.pending;
    assert S.Flush(c).events + [] == c.pending;
  }

  lemma {:induction false} DispatchIsStable(w: World, c: S.Config)
    requires Acyclic(NBIOT_GRAPH) && Ready(c)
    ensures Stable(S.Dispatch(NBIOT_GRAPH, w, c))
  {
    TimerCheckStartsDraining(w, c);
    DrainKeepsDraining(w, S.TimerCheck(w, c));
    FlushIsStable(S.Drain(NBIOT_GRAPH, w, S.TimerCheck(w, c)));
  }

  // ----- runs -----

  /** What can happen between dispatches: a call that sends an event, an event posted by the event
      loop, a dispatch by the event loop, a new login name, sleep duration or error number. */
  datatype Op =
    | SendOp(kind: EventType)
    | PostOp(kind: EventType)
    | DispatchOp
    | LoginOp(known: bool)
    | DurationOp(seconds: nat)
    | ErrnoOp(errno: ErrorNumber)

  /** Users may send any event in any state, except that only the machine itself queues Initialize,
      ErrorDisconnect and timer events, and that ReInitialize is for the deep sleep state. */
  predicate Allowed(c: S.Config, op: Op) {
    match op
    case SendOp(kind) =>
      (!IsToken(kind) && kind != TimerEvent) || (kind == ReInitializeEvent && c.state == DeepSleepState)
    case PostOp(kind) => !IsToken(kind) && kind != TimerEvent
    case _ => true
  }

  ghost function Apply(w: World, c: S.Config, op: Op): S.Config
    requires Acyclic(NBIOT_GRAPH)
  {
    match op
    case SendOp(kind) => S.Send(NBIOT_GRAPH, w, c, kind)
    case PostOp(kind) => S.Post(c, kind)
    case DispatchOp => S.Dispatch(NBIOT_GRAPH, w, c)
    case LoginOp(known) => c.(hasLogin := known)
    case DurationOp(seconds) => c.(duration := seconds)
    case ErrnoOp(errno) => c.(errno := errno)
  }

  ghost function Run(w: World, c: S.Config, ops: seq<Op>): S.Config
    requires Acyclic(NBIOT_GRAPH)
    decreases |ops|
  {
    if ops == [] then c else Run(w, Apply(w, c, ops[0]), ops[1..])
  }

  ghost predicate Legal(w: World, c: S.Config, ops: seq<Op>)
    requires Acyclic(NBIOT_GRAPH)
    decreases |ops|
  {
    ops == [] || (Allowed(c, ops[0]) && Legal(w, Apply(w, c, ops[0]), ops[1..]))
  }

  lemma {:induction false} NoTimerPushed(es: seq<StmEvent>, kind: EventType)
    requires !HasTimer(es) && kind != TimerEvent
    ensures !HasTimer(es + [S.NewEvent(kind)])
  {
  }

  lemma {:induction false} PushFits(c: S.Config, kind: EventType)
    requires TokensFit(c.state, c.initialized, Tokens(c.events + c.pending)) && Tokens(c.pending) == []
    requires c.state == DeepSleepState ==> Tokens(c.events) == []
    requires Allowed(c, SendOp(kind))
    ensures TokensFit(c.state, c.initialized, Tokens(S.Push(c, kind).events + c.pending))
  {
    PushTokens(c, kind);
    if c.state == DeepSleepState {
      assert [] + HeadToken(kind) == HeadToken(kind);
    } else {
      assert Tokens(c.events) + [] == Tokens(c.events);
    }
  }

  lemma {:induction false} PushIsReady(c: S.Config, kind: EventType)
    requires Stable(c) && Allowed(c, SendOp(kind))
    ensures Ready(S.Push(c, kind))
  {
    PushFits(c, kind);
    NoTimerPushed(c.events, kind);
  }

  lemma {:induction false} PostTokens(c: S.Config, kind: EventType)
    requires !IsToken(kind)
    ensures Tokens(S.Post(c, kind).pending) == Tokens(c.pending)
    ensures Tokens(c.events + S.Post(c, kind).pending) == Tokens(c.events + c.pending)
  {
    TokensAppend(c.pending, S.NewEvent(kind));
    TokensConcat(c.events, c.pending);
    TokensConcat(c.events, S.Post(c, kind).pending);
  }

  lemma {:induction false} PostIsStable(c: S.Config, kind: EventType)
    requires Stable(c) && Allowed(c, PostOp(kind))
    ensures Stable(S.Post(c, kind))
  {
    PostKeeps(c, kind);
    PostTokens(c, kind);
    NoTimerPushed(c.pending, kind);
  }

  lemma {:induction false} ApplyIsStable(w: World, c: S.Config, op: Op)
    requires Acyclic(NBIOT_GRAPH) && Stable(c) && Allowed(c, op)
    ensures Stable(Apply(w, c, op))
  {
    match op
    case SendOp(kind) =>
      PushIsReady(c, kind);
      DispatchIsStable(w, S.Push(c, kind));
    case PostOp(kind) => PostIsStable(c, kind);
    case DispatchOp => DispatchIsStable(w, c);
    case LoginOp(_) =>
    case DurationOp(_) =>
    case ErrnoOp(_) =>
  }

  lemma {:induction false} RunIsStable(w: World, c: S.Config, ops: seq<Op>)
    requires Acyclic(NBIOT_GRAPH) && Stable(c) && Legal(w, c, ops)
    ensures Stable(Run(w, c, ops))
    decreases |ops|
  {
    if ops != [] {
      ApplyIsStable(w, c, ops[0]);
      RunIsStable(w, Apply(w, c, ops[0]), ops[1..]);
    }
  }

  lemma {:induction false} FirstEventIsReady(c: S.Config, c2: S.Config)
    requires c.state == InitialState && c.events == [] && c.pending == [] && Counted(c)
    requires c.restarts < S.RESTART_MODEM_THRESHOLD && c.eventId <= S.MAX_INT
    requires c2 == S.Push(c, InitializeEvent)
    ensures Ready(c2)
  {
    TokensAppend([], S.NewEvent(InitializeEvent));
    assert c2.events == [S.NewEvent(InitializeEvent)] && c2.events + c2.pending == [] + [S.NewEvent(InitializeEvent)];
  }

  lemma {:induction false} StartIsStable(w: World, hasLogin: bool)
    requires Acyclic(NBIOT_GRAPH)
    ensures Stable(S.Start(NBIOT_GRAPH, w, S.Fresh(hasLogin)))
  {
    var c0 := S.Fresh(hasLogin);
    var c1 := S.Enter(w, c0, InitialState, InvalidEvent);
    EnterDone(w, c0, InitialState, InvalidEvent);
    FirstEventIsReady(c1, S.Push(c1, InitializeEvent));
    DispatchIsStable(w, S.Push(c1, InitializeEvent));
  }
}
