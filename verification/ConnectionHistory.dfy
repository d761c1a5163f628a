/** The event dispatcher over any acyclic graph: every queued event is handled once, in the order it
    was queued; what is posted meanwhile waits, in order, for the next dispatch. */
module ConnectionHistory {
  import opened ConnectionTypes
  import S = ConnectionSpec

  // ----- reading the history -----

  function Last(log: seq<Step>): Step
    requires log != []
  {
    log[|log| - 1]
  }

  function Front(log: seq<Step>): seq<Step>
    requires log != []
  {
    log[..|log| - 1]
  }

  /** The events handled so far. */
  function Done(log: seq<Step>): seq<EventType> {
    if log == [] then []
    else Done(Front(log)) + if Last(log).EventDone? then [Last(log).kind] else []
  }

  /** The events posted so far. */
  function Posts(log: seq<Step>): seq<EventType> {
    if log == [] then []
    else Posts(Front(log)) + if Last(log).Posted? then [Last(log).kind] else []
  }

  /** State entries minus events reported as handled. */
  function Balance(log: seq<Step>): int {
    if log == [] then 0
    else Balance(Front(log)) + match Last(log)
      case Entered(_) => 1
      case EventDone(_, _, _, _, result) => if result == Handled then -1 else 0
      case _ => 0
  }

  /** Events that led into a state. */
  function Handlings(log: seq<Step>): nat {
    if log == [] then 0
    else Handlings(Front(log)) + if Last(log).EventDone? && Last(log).result == Handled then 1 else 0
  }

  lemma {:induction false} Grows(log: seq<Step>, s: Step)
    ensures Handlings(log + [s]) == Handlings(log) + if s.EventDone? && s.result == Handled then 1 else 0
    ensures Done(log + [s]) == Done(log) + if s.EventDone? then [s.kind] else []
    ensures Posts(log + [s]) == Posts(log) + if s.Posted? then [s.kind] else []
    ensures Balance(log + [s]) == Balance(log) + match s
      case Entered(_) => 1
      case EventDone(_, _, _, _, result) => if result == Handled then -1 else 0
      case _ => 0
  {
    assert Front(log + [s]) == log;
  }

  function Kinds(es: seq<StmEvent>): seq<EventType> {
    seq(|es|, i requires 0 <= i < |es| => es[i].kind)
  }

  function NewEvents(kinds: seq<EventType>): seq<StmEvent> {
    seq(|kinds|, i requires 0 <= i < |kinds| => S.NewEvent(kinds[i]))
  }

  /** From `c` to `r` no event was finished, and the pending queue grew by what was posted. */
  ghost predicate Quiet(c: S.Config, r: S.Config) {
    && Done(r.log) == Done(c.log)
    && Handlings(r.log) == Handlings(c.log)
    && Posts(c.log) <= Posts(r.log)
    && r.pending == c.pending + NewEvents(Posts(r.log)[|Posts(c.log)|..])
  }

  lemma {:induction false} QuietTransitive(a: S.Config, b: S.Config, c: S.Config)
    requires Quiet(a, b) && Quiet(b, c)
    ensures Quiet(a, c)
  {
    var p, q := Posts(b.log)[|Posts(a.log)|..], Posts(c.log)[|Posts(b.log)|..];
    assert Posts(c.log)[|Posts(a.log)|..] == p + q;
    assert NewEvents(p + q) == NewEvents(p) + NewEvents(q);
  }

  // ----- the pieces of handling an event -----

  lemma {:induction false} ActionKeepsQueues(c: S.Config, t: TransitionId)
    ensures S.TransitionAction(t, c).log == c.log && S.TransitionAction(t, c).pending == c.pending
  {
  }

  lemma {:induction false} FireQuiet(c: S.Config, t: TransitionId)
    ensures Quiet(c, S.Fire(t, c)) && Balance(S.Fire(t, c).log) == Balance(c.log)
  {
    ActionKeepsQueues(c, t);
    Grows(c.log, Fired(t));
  }

  lemma {:induction false} RouteQuiet(g: Graph, w: World, c: S.Config, t: TransitionId)
    requires Acyclic(g)
    ensures Quiet(c, S.Route(g, w, c, t).config) && Balance(S.Route(g, w, c, t).config.log) == Balance(c.log)
    decreases g.rank(t), 1
  {
    var c1 := S.Fire(t, c);
    FireQuiet(c, t);
    assert Descends(g, t);
    match g.target(t)
    case TransitionNode(u) =>
      RouteQuiet(g, w, c1, u);
      QuietTransitive(c, c1, S.Route(g, w, c, t).config);
    case GuardNode(b) =>
      ChooseQuiet(g, w, c1, b, g.rank(t));
      QuietTransitive(c, c1, S.Route(g, w, c, t).config);
    case _ =>
  }

  lemma {:induction false} ChooseQuiet(g: Graph, w: World, c: S.Config, b: ChoiceId, bound: nat)
    requires Acyclic(g)
    requires g.whenTrue(b).Some? ==> g.rank(g.whenTrue(b).value) < bound
    requires g.whenFalse(b).Some? ==> g.rank(g.whenFalse(b).value) < bound
    ensures
      var r := S.Choose(g, w, c, b, bound).config;
      Quiet(c, r) && Balance(r.log) == Balance(c.log)
    decreases bound, 0
  {
    var (yes, c1) := S.Condition(w, c, b);
    match if yes then g.whenTrue(b) else g.whenFalse(b)
    case Some(t) => RouteQuiet(g, w, c1, t);
    case None =>
  }

  lemma {:induction false} PostQuiet(c: S.Config, kind: EventType)
    ensures Quiet(c, S.Post(c, kind)) && Balance(S.Post(c, kind).log) == Balance(c.log)
  {
    Grows(c.log, Posted(kind));
    assert Posts(c.log + [Posted(kind)])[|Posts(c.log)|..] == [kind];
  }

  lemma {:induction false} RecordQuiet(c: S.Config, s: Step)
    requires !s.EventDone? && !s.Posted?
    ensures Quiet(c, S.Record(c, s))
    ensures Balance(S.Record(c, s).log) == Balance(c.log) + if s.Entered? then 1 else 0
  {
    Grows(c.log, s);
  }

  lemma {:induction false} BringUpQuiet(w: World, c: S.Config, again: bool)
    ensures
      var r := S.BringUp(w, c, again).1;
      Quiet(c, r) && Balance(r.log) == Balance(c.log)
  {
    RecordQuiet(c, Rebooted(InitialState));
  }

  lemma {:induction false} InitialEntryQuiet(w: World, c: S.Config, kind: EventType)
    ensures
      var r := S.InitialEntry(w, c, kind);
      Quiet(c, r) && Balance(r.log) == Balance(c.log)
  {
    var again := kind == ReInitializeEvent || kind == TimerEvent;
    BringUpQuiet(w, c, again);
    var (ok, c1) := S.BringUp(w, c, again);
    if again {
      PostQuiet(c1, InitializeEvent);
      QuietTransitive(c, c1, S.Post(c1, InitializeEvent));
    }
  }

  lemma {:induction false} ErrorEntryQuiet(w: World, c: S.Config)
    ensures
      var r := S.ErrorEntry(w, c);
      Quiet(c, r) && Balance(r.log) == Balance(c.log)
  {
    if c.initialized && S.RESTART_MODEM_THRESHOLD <= c.restarts {
      var c1 := S.Record(c.(restarts := 0), Rebooted(ErrorState));
      RecordQuiet(c.(restarts := 0), Rebooted(ErrorState));
      PostQuiet(c1, ReInitializeEvent);
      QuietTransitive(c, c1, S.Post(c1, ReInitializeEvent));
    } else if c.initialized {
      PostQuiet(c, ErrorDisconnectEvent);
    }
  }

  lemma {:induction false} EntryActionQuiet(w: World, c: S.Config, s: StateId, kind: EventType)
    ensures
      var r := S.EntryAction(w, c, s, kind);
      Quiet(c, r) && Balance(r.log) == Balance(c.log)
  {
    match s
    case InitialState => InitialEntryQuiet(w, c, kind);
    case ErrorState => ErrorEntryQuiet(w, c);
    case _ =>
  }

  lemma {:induction false} ArriveQuiet(c: S.Config, s: StateId)
    ensures Quiet(c, S.Arrive(c, s)) && Balance(S.Arrive(c, s).log) == Balance(c.log) + 1
  {
    RecordQuiet(c.(state := s, timer := S.Arrive(c, s).timer), Entered(s));
  }

  lemma {:induction false} EnterQuiet(w: World, c: S.Config, s: StateId, kind: EventType)
    ensures
      var r := S.Enter(w, c, s, kind);
      Quiet(c, r) && Balance(r.log) == Balance(c.log) + 1
  {
    var c1 := S.Arrive(c, s);
    ArriveQuiet(c, s);
    EntryActionQuiet(w, c1, s, kind);
    QuietTransitive(c, c1, S.EntryAction(w, c1, s, kind));
  }

  /** From `c` to `r` the given events were finished, each report of a handled event stands against
      one state entry, and the pending queue grew by what was posted. */
  ghost predicate Progress(c: S.Config, r: S.Config, kinds: seq<EventType>) {
    && Done(r.log) == Done(c.log) + kinds
    && Handlings(c.log) <= Handlings(r.log)
    && Posts(c.log) <= Posts(r.log)
    && r.pending == c.pending + NewEvents(Posts(r.log)[|Posts(c.log)|..])
    && Balance(r.log) == Balance(c.log)
  }

  lemma {:induction false} ProgressTransitive(a: S.Config, b: S.Config, c: S.Config, first: seq<EventType>, next: seq<EventType>)
    requires Progress(a, b, first) && Progress(b, c, next)
    ensures Progress(a, c, first + next)
  {
    var p, q := Posts(b.log)[|Posts(a.log)|..], Posts(c.log)[|Posts(b.log)|..];
    assert Posts(c.log)[|Posts(a.log)|..] == p + q;
    assert NewEvents(p + q) == NewEvents(p) + NewEvents(q);
  }

  lemma {:induction false} ReportProgresses(c: S.Config, r: S.Config, kind: EventType, id: int, s: StateId, initialized: bool, result: EventState)
    requires Quiet(c, r) && Balance(r.log) == Balance(c.log) + if result == Handled then 1 else 0
    ensures Progress(c, S.Record(r, EventDone(kind, id, s, initialized, result)), [kind])
    ensures Handlings(S.Record(r, EventDone(kind, id, s, initialized, result)).log)
      == Handlings(c.log) + if result == Handled then 1 else 0
  {
    Grows(r.log, EventDone(kind, id, s, initialized, result));
  }

  lemma {:induction false} FinishQuiet(g: Graph, w: World, c: S.Config, t: TransitionId, kind: EventType)
    requires Acyclic(g)
    ensures
      var o := S.Finish(w, S.Route(g, w, c, t), kind);
      && Quiet(c, o.config)
      && Balance(o.config.log) == Balance(c.log) + if o.result == Handled then 1 else 0
  {
    var a := S.Route(g, w, c, t);
    RouteQuiet(g, w, c, t);
    if a.AtState? {
      EnterQuiet(w, a.config, a.state, kind);
      QuietTransitive(c, a.config, S.Enter(w, a.config, a.state, kind));
    }
  }

  lemma {:induction false} HandleFirstProgresses(g: Graph, w: World, c: S.Config)
    requires Acyclic(g) && c.events != []
    ensures Progress(c, S.HandleFirst(g, w, c), [c.events[0].kind])
  {
    var (ev, rest) := S.Take(c);
    match S.FirstMatch(g, g.transitions(rest.state), ev.kind)
    case Some(t) =>
      var o := S.Finish(w, S.Route(g, w, rest, t), ev.kind);
      FinishQuiet(g, w, rest, t, ev.kind);
      ReportProgresses(rest, o.config, ev.kind, ev.id, rest.state, rest.initialized, o.result);
    case None =>
      ReportProgresses(rest, rest, ev.kind, ev.id, rest.state, rest.initialized, Ignored);
  }

  lemma {:induction false} KindsOfRest(es: seq<StmEvent>)
    requires es != []
    ensures Kinds(es) == [es[0].kind] + Kinds(es[1..])
  {
  }

  lemma {:induction false} DrainProgresses(g: Graph, w: World, c: S.Config)
    requires Acyclic(g)
    ensures S.Drain(g, w, c).events == [] && Progress(c, S.Drain(g, w, c), Kinds(c.events))
    decreases |c.events|
  {
    if c.events != [] {
      var c1 := S.HandleFirst(g, w, c);
      HandleFirstProgresses(g, w, c);
      DrainProgresses(g, w, c1);
      KindsOfRest(c.events);
      ProgressTransitive(c, c1, S.Drain(g, w, c), [c.events[0].kind], Kinds(c.events[1..]));
    }
  }

  /** Main result: a dispatch finishes the queued events, a timeout last, each once and in order; it
      leaves the events that were pending before it followed by those posted during it, in order; and
      it enters exactly one state for each event it reports as handled. */
  lemma {:induction false} DispatchIsFifo(g: Graph, w: World, c: S.Config)
    requires Acyclic(g)
    ensures
      var r := S.Dispatch(g, w, c);
      var timeout := c.timer.Armed() && c.timer.Remaining(w.clock(c.ticks)) == 0;
      && Done(r.log) == Done(c.log) + Kinds(c.events) + (if timeout then [TimerEvent] else [])
      && Posts(c.log) <= Posts(r.log)
      && r.events == c.pending + NewEvents(Posts(r.log)[|Posts(c.log)|..])
      && r.pending == []
      && Balance(r.log) == Balance(c.log)
  {
    var c1 := S.TimerCheck(w, c);
    DrainProgresses(g, w, c1);
    assert c1.events != c.events ==> Kinds(c1.events) == Kinds(c.events) + [TimerEvent];
  }
}
