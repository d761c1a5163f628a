/** The cooperative loop controller: clients wait in a queue, and one at a time is started, stepped until
    its step handler says it is done, and stopped. */
module LoopControllers {
  datatype LoopId =
    Unknown | Cgatt | Yield | Connect | Publish | Register | Subscribe | Unsubscribe | Disconnect

  datatype Result = Success | Idle | Pending | Fail

  /** What a handler does when it is called: its verdict, the loop value it leaves, and the clients it
      registers with the controller meanwhile. */
  datatype Answer = Answer(ok: bool, value: int, registered: seq<LoopClient>)

  /** What has happened to the clients, in order: handler calls with their verdicts, handlers that are not
      attached, a start handler that is skipped, and clients that are dropped before or during their turn. */
  datatype Entry =
    | Start(client: LoopClient, ok: bool)
    | NoStart(client: LoopClient)
    | Skipped(client: LoopClient)
    | Step(client: LoopClient, more: bool)
    | NoStep(client: LoopClient)
    | Stop(client: LoopClient, ok: bool)
    | NoStop(client: LoopClient)
    | Dropped(client: LoopClient)
    | Broken(client: LoopClient)

  class LoopClient {
    var result: Result
    var loopCtrl: int
    const id: LoopId
    const hasStart: bool
    const hasStep: bool
    const hasStop: bool
    ghost var calls: seq<Entry>

    constructor (id: LoopId, hasStart: bool, hasStep: bool, hasStop: bool)
      ensures result == Fail && loopCtrl == 0 && this.id == id && calls == []
      ensures this.hasStart == hasStart && this.hasStep == hasStep && this.hasStop == hasStop
    {
      result, loopCtrl := Fail, 0;
      this.id, this.hasStart, this.hasStep, this.hasStop := id, hasStart, hasStep, hasStop;
      calls := [];
    }

    // Each handler notes its own call.

    method CallStart(start: Answer) returns (ok: bool, registered: seq<LoopClient>)
      modifies this`loopCtrl, this`calls
      ensures ok == start.ok && registered == start.registered && loopCtrl == start.value
      ensures calls == old(calls) + [Start(this, ok)]
    {
      ok, registered, loopCtrl := start.ok, start.registered, start.value;
      calls := calls + [Start(this, ok)];
    }

    method CallStep(step: Answer) returns (ok: bool, registered: seq<LoopClient>)
      modifies this`loopCtrl, this`calls
      ensures ok == step.ok && registered == step.registered && loopCtrl == step.value
      ensures calls == old(calls) + [Step(this, ok)]
    {
      ok, registered, loopCtrl := step.ok, step.registered, step.value;
      calls := calls + [Step(this, ok)];
    }

    method CallStop(stop: Answer) returns (ok: bool, registered: seq<LoopClient>)
      modifies this`loopCtrl, this`calls
      ensures ok == stop.ok && registered == stop.registered && loopCtrl == stop.value
      ensures calls == old(calls) + [Stop(this, ok)]
    {
      ok, registered, loopCtrl := stop.ok, stop.registered, stop.value;
      calls := calls + [Stop(this, ok)];
    }

    /** The start handler, once, unless the client is pending already. */
    method PreLoopStep(start: Answer) returns (ret: Result, registered: seq<LoopClient>)
      modifies this
      ensures ret == result
      ensures
        var called := old(result) != Pending && hasStart;
        && result == (if called && !start.ok then Fail else Pending)
        && loopCtrl == (if called then start.value else old(loopCtrl))
        && registered == (if called then start.registered else [])
      ensures calls == old(calls) + [Opening(this, old(result), start)] && TurnTells(old(calls), calls, ret)
    {
      registered := [];
      if Pending != result {
        if hasStart {
          var ok;
          ok, registered := CallStart(start);
          if ok {
            result := Pending;
          } else {
            result := Fail;
          }
        } else {
          calls := calls + [NoStart(this)];
          result := Pending;
        }
      } else {
        calls := calls + [Skipped(this)];
      }
      ret := result;
    }

    /** The step handler, once, and after its last call the stop handler, once; nothing if the client is not
        pending. */
    method LoopStep(step: Answer, stop: Answer) returns (ret: Result, registered: seq<LoopClient>)
      modifies this
      ensures ret == result
      ensures old(result) != Pending ==>
                result == old(result) && loopCtrl == old(loopCtrl) && registered == [] && calls == old(calls)
      ensures old(result) == Pending ==>
                && result == StepResult(this, step, stop) && registered == StepRegisters(this, step, stop)
                && loopCtrl == (if !hasStep then old(loopCtrl)
                                else if step.ok || !hasStop then step.value else stop.value)
                && calls == old(calls) + Stepped(this, step, stop)
      ensures old(result) == Pending ==> TurnTells(old(calls), calls, ret)
    {
      ghost var before, pending := calls, result == Pending;
      registered := [];
      if Pending == result {
        if hasStep {
          var ok;
          ok, registered := CallStep(step);
          if ok {
            result := Pending;
          } else {
            var stopped, more := PostLoopStep(stop);
            registered := registered + more;
            if Success == stopped {
              result := Idle;
            } else {
              result := Fail;
            }
          }
        } else {
          calls := calls + [NoStep(this)];
          result := Fail;
        }
      }
      ret := result;
      if pending {
        SteppedTells(before, calls, this, step, stop);
      }
    }

    method PostLoopStep(stop: Answer) returns (ret: Result, registered: seq<LoopClient>)
      modifies this
      ensures ret == result
      ensures old(result) != Pending ==>
                result == old(result) && loopCtrl == old(loopCtrl) && registered == [] && calls == old(calls)
      ensures old(result) == Pending ==>
                && result == (if hasStop && !stop.ok then Fail else Success)
                && registered == (if hasStop then stop.registered else [])
                && loopCtrl == (if hasStop then stop.value else old(loopCtrl))
                && calls == old(calls) + [if hasStop then Stop(this, stop.ok) else NoStop(this)]
    {
      registered := [];
      if Pending == result {
        if hasStop {
          var ok;
          ok, registered := CallStop(stop);
          if ok {
            result := Success;
          } else {
            result := Fail;
          }
        } else {
          calls := calls + [NoStop(this)];
          result := Success;
        }
      }
      ret := result;
    }
  }

  // ----- what one turn of a client amounts to -----

  function Opening(c: LoopClient, was: Result, start: Answer): Entry {
    if was == Pending then Skipped(c) else if c.hasStart then Start(c, start.ok) else NoStart(c)
  }

  function Stepped(c: LoopClient, step: Answer, stop: Answer): seq<Entry> {
    if !c.hasStep then [NoStep(c)]
    else if step.ok then [Step(c, true)]
    else [Step(c, false), if c.hasStop then Stop(c, stop.ok) else NoStop(c)]
  }

  function StepResult(c: LoopClient, step: Answer, stop: Answer): Result {
    if !c.hasStep then Fail else if step.ok then Pending else if !c.hasStop || stop.ok then Idle else Fail
  }

  function StepRegisters(c: LoopClient, step: Answer, stop: Answer): seq<LoopClient> {
    if !c.hasStep then []
    else if step.ok || !c.hasStop then step.registered
    else step.registered + stop.registered
  }

  // ----- what the log tells of a turn -----

  /** The handler, or its absence, with which a turn fails. */
  predicate Failure(e: Entry) {
    e.NoStep? || (e.Stop? && !e.ok) || (e.Start? && !e.ok)
  }

  /** The result of a turn, read off its last entry: it fails with a failed start or stop handler or without a step
      handler, is done with its stop handler or without one, and goes on otherwise. */
  predicate Tells(e: Entry, ret: Result) {
    && (ret == Fail <==> Failure(e))
    && (ret == Idle <==> e.NoStop? || (e.Stop? && e.ok))
    && (ret == Pending <==> e.NoStart? || e.Skipped? || (e.Start? && e.ok) || (e.Step? && e.more))
  }

  /** The entries of a turn, the last of which tells its result. */
  predicate TurnTells(before: seq<Entry>, after: seq<Entry>, ret: Result) {
    && |before| < |after| && before == after[..|before|] && Tells(after[|after| - 1], ret)
    && forall i :: |before| <= i < |after| ==> !after[i].Dropped? && !after[i].Broken?
  }

  lemma {:induction false} SteppedTells(before: seq<Entry>, after: seq<Entry>, c: LoopClient, step: Answer, stop: Answer)
    requires after == before + Stepped(c, step, stop)
    ensures TurnTells(before, after, StepResult(c, step, stop))
  {
    var entries := Stepped(c, step, stop);
    assert after[|after| - 1] == entries[|entries| - 1];
    forall i | |before| <= i < |after| ensures !after[i].Dropped? && !after[i].Broken? {
      assert after[i] == entries[i - |before|];
    }
  }

  lemma {:induction false} OpeningTells(before: seq<Entry>, after: seq<Entry>, c: LoopClient, was: Result, start: Answer)
    requires after == before + [Opening(c, was, start)]
    ensures TurnTells(before, after, if was == Pending || !c.hasStart || start.ok then Pending else Fail)
  {
  }

  /** Whoever is dropped is dropped because of a failure, and then everyone is. */
  predicate DropsFollowFailure(before: seq<Entry>, after: seq<Entry>) {
    forall i :: |before| <= i < |after| && after[i].Dropped? ==>
      exists k :: |before| <= k < i && Failure(after[k]) && forall j :: k < j < |after| ==> after[j].Dropped?
  }

  lemma {:induction false} DropsAfterTurn(before: seq<Entry>, turn: seq<Entry>, waiting: seq<LoopClient>)
    requires TurnTells(before, turn, Fail)
    ensures DropsFollowFailure(before, turn + AllDropped(waiting))
  {
    var after, k := turn + AllDropped(waiting), |turn| - 1;
    assert Failure(after[k]);
    forall j | k < j < |after| ensures after[j].Dropped? {
      assert after[j] == AllDropped(waiting)[j - |turn|];
    }
    forall i | |before| <= i < |turn| ensures !after[i].Dropped? {
      assert after[i] == turn[i];
    }
  }

  // ----- the log -----

  /** Where the controller is between two entries. */
  datatype Phase = Between | Active(client: LoopClient) | Stopping(client: LoopClient) | Wrong

  /** The phase, and the clients a break has left pending. */
  datatype Track = Track(phase: Phase, stale: set<LoopClient>)

  const WRONG := Track(Wrong, {})

  function Advance(t: Track, e: Entry): Track {
    match e
    case Start(c, ok) =>
      if t.phase != Between || c in t.stale then WRONG else t.(phase := if ok then Active(c) else Between)
    case NoStart(c) => if t.phase != Between || c in t.stale then WRONG else t.(phase := Active(c))
    case Skipped(c) => if t.phase != Between || c !in t.stale then WRONG else Track(Active(c), t.stale - {c})
    case Step(c, more) => if t.phase != Active(c) then WRONG else t.(phase := if more then Active(c) else Stopping(c))
    case NoStep(c) => if t.phase != Active(c) then WRONG else t.(phase := Between)
    case Stop(c, _) => if t.phase != Stopping(c) then WRONG else t.(phase := Between)
    case NoStop(c) => if t.phase != Stopping(c) then WRONG else t.(phase := Between)
    case Dropped(_) => if t.phase != Between then WRONG else t
    case Broken(c) => if t.phase != Active(c) then WRONG else Track(Between, t.stale + {c})
  }

  function TrackOf(log: seq<Entry>): Track {
    if log == [] then Track(Between, {}) else Advance(TrackOf(log[..|log| - 1]), log[|log| - 1])
  }

  predicate Opens(e: Entry) {
    e.Start? || e.NoStart? || e.Skipped? || e.Dropped?
  }

  /** The clients whose turn has come, in the order in which it came. */
  function Served(log: seq<Entry>): seq<LoopClient> {
    if log == [] then []
    else
      var e := log[|log| - 1];
      Served(log[..|log| - 1]) + if Opens(e) then [e.client] else []
  }

  lemma {:induction false} Logged(log: seq<Entry>, e: Entry)
    ensures TrackOf(log + [e]) == Advance(TrackOf(log), e)
    ensures Served(log + [e]) == Served(log) + if Opens(e) then [e.client] else []
  {
    assert (log + [e])[..|log|] == log;
  }

  function AllDropped(clients: seq<LoopClient>): (r: seq<Entry>)
    ensures |r| == |clients|
  {
    seq(|clients|, i requires 0 <= i < |clients| => Dropped(clients[i]))
  }

  lemma {:induction false} DroppedMore(front: seq<LoopClient>, last: LoopClient)
    ensures AllDropped(front + [last]) == AllDropped(front) + [Dropped(last)]
  {
  }

  lemma {:induction false} LoggedDrop(log: seq<Entry>, drops: seq<Entry>, front: seq<LoopClient>, last: LoopClient)
    requires TrackOf(log + drops).phase == Between && TrackOf(log + drops) == TrackOf(log)
    requires Served(log + drops) == Served(log) + front
    ensures TrackOf(log + (drops + [Dropped(last)])) == TrackOf(log)
    ensures Served(log + (drops + [Dropped(last)])) == Served(log) + (front + [last])
  {
    Logged(log + drops, Dropped(last));
    assert log + (drops + [Dropped(last)]) == log + drops + [Dropped(last)];
    assert Served(log) + (front + [last]) == Served(log) + front + [last];
  }

  lemma {:induction false} LoggedDrops(log: seq<Entry>, clients: seq<LoopClient>)
    requires TrackOf(log).phase == Between
    ensures TrackOf(log + AllDropped(clients)) == TrackOf(log)
    ensures Served(log + AllDropped(clients)) == Served(log) + clients
    decreases |clients|
  {
    if clients == [] {
      assert log + AllDropped(clients) == log;
    } else {
      var front, last := clients[..|clients| - 1], clients[|clients| - 1];
      LoggedDrops(log, front);
      LoggedDrop(log, AllDropped(front), front, last);
      DroppedMore(front, last);
      assert clients == front + [last];
    }
  }

  // ----- sessions -----

  /** How a client's turn begins: with its start handler, with none attached, or with one that is skipped. */
  predicate Begins(e: Entry, c: LoopClient) {
    e == Start(c, true) || e == NoStart(c) || e == Skipped(c)
  }

  /** A begun turn and the steps after which it has more to do. */
  predicate OpenSession(s: seq<Entry>, c: LoopClient) {
    s != [] && Begins(s[0], c) && forall i :: 0 < i < |s| ==> s[i] == Step(c, true)
  }

  /** One client's whole turn: dropped, failed to start, or begun, stepped until the first step without more to
      do, and stopped once; or broken off. */
  predicate CompleteSession(s: seq<Entry>) {
    && s != []
    && var c := s[0].client;
       || s == [Dropped(c)]
       || s == [Start(c, false)]
       || (|s| >= 2 && OpenSession(s[..|s| - 1], c) && (s[|s| - 1] == NoStep(c) || s[|s| - 1] == Broken(c)))
       || (|s| >= 3 && OpenSession(s[..|s| - 2], c) && s[|s| - 2] == Step(c, false)
           && (s[|s| - 1].Stop? || s[|s| - 1].NoStop?) && s[|s| - 1].client == c)
  }

  function Concat(sessions: seq<seq<Entry>>): seq<Entry> {
    if sessions == [] then [] else Concat(sessions[..|sessions| - 1]) + sessions[|sessions| - 1]
  }

  /** What a session looks like while it is going on. */
  predicate GoesOn(p: Phase, tail: seq<Entry>) {
    match p
    case Between => tail == []
    case Active(c) => OpenSession(tail, c)
    case Stopping(c) => |tail| >= 2 && OpenSession(tail[..|tail| - 1], c) && tail[|tail| - 1] == Step(c, false)
    case Wrong => false
  }

  lemma {:induction false} StepsEnd(tail: seq<Entry>, c: LoopClient, e: Entry)
    requires OpenSession(tail, c) && (e == NoStep(c) || e == Broken(c))
    ensures CompleteSession(tail + [e])
  {
    var s := tail + [e];
    assert s[..|s| - 1] == tail && s[0] == tail[0];
  }

  lemma {:induction false} StopEnds(open: seq<Entry>, c: LoopClient, e: Entry)
    requires OpenSession(open, c) && (e.Stop? || e.NoStop?) && e.client == c
    ensures CompleteSession(open + [Step(c, false)] + [e])
  {
    var s := open + [Step(c, false)] + [e];
    assert s[..|s| - 2] == open && s[0] == open[0];
  }

  lemma {:induction false} SessionEnds(t: Track, tail: seq<Entry>, e: Entry)
    requires GoesOn(t.phase, tail) && Advance(t, e).phase == Between
    ensures CompleteSession(tail + [e])
  {
    match t.phase
    case Between => assert tail + [e] == [e];
    case Active(c) => StepsEnd(tail, c, e);
    case Stopping(c) =>
      StopEnds(tail[..|tail| - 1], c, e);
      assert tail == tail[..|tail| - 1] + [Step(c, false)];
    case Wrong =>
  }

  lemma {:induction false} OpenGrows(tail: seq<Entry>, c: LoopClient)
    requires OpenSession(tail, c)
    ensures OpenSession(tail + [Step(c, true)], c)
  {
    var s := tail + [Step(c, true)];
    assert s[0] == tail[0];
    forall i | 0 < i < |s| ensures s[i] == Step(c, true) {
      if i < |tail| {
        assert s[i] == tail[i];
      }
    }
  }

  lemma {:induction false} SessionGoesOn(t: Track, tail: seq<Entry>, e: Entry)
    requires GoesOn(t.phase, tail) && Advance(t, e).phase != Between && Advance(t, e).phase != Wrong
    ensures GoesOn(Advance(t, e).phase, tail + [e])
  {
    if t.phase == Between {
      assert tail + [e] == [e];
    } else {
      var c := t.phase.client;
      if e == Step(c, true) {
        OpenGrows(tail, c);
      } else {
        assert e == Step(c, false) && (tail + [e])[..|tail|] == tail;
      }
    }
  }

  lemma {:induction false} ConcatMore(sessions: seq<seq<Entry>>, last: seq<Entry>)
    ensures Concat(sessions + [last]) == Concat(sessions) + last
  {
    assert (sessions + [last])[..|sessions|] == sessions;
  }

  predicate AllComplete(sessions: seq<seq<Entry>>) {
    forall i :: 0 <= i < |sessions| ==> CompleteSession(sessions[i])
  }

  /** One more entry closes the session that is going on, or prolongs it. */
  lemma {:induction false} OneMoreEntry(t: Track, done: seq<seq<Entry>>, part: seq<Entry>, e: Entry)
    returns (sessions: seq<seq<Entry>>, tail: seq<Entry>)
    requires GoesOn(t.phase, part) && AllComplete(done) && Advance(t, e).phase != Wrong
    ensures Concat(sessions) + tail == Concat(done) + (part + [e])
    ensures AllComplete(sessions) && GoesOn(Advance(t, e).phase, tail)
  {
    if Advance(t, e).phase == Between {
      SessionEnds(t, part, e);
      ConcatMore(done, part + [e]);
      sessions, tail := done + [part + [e]], [];
    } else {
      SessionGoesOn(t, part, e);
      sessions, tail := done, part + [e];
    }
  }

  /** A log that is nowhere wrong is a row of complete sessions, none inside another, with at most the last
      one still going on. */
  lemma {:induction false} LogIsSessions(log: seq<Entry>) returns (sessions: seq<seq<Entry>>, tail: seq<Entry>)
    requires TrackOf(log).phase != Wrong
    ensures log == Concat(sessions) + tail
    ensures AllComplete(sessions) && GoesOn(TrackOf(log).phase, tail)
    decreases |log|
  {
    if log == [] {
      sessions, tail := [], [];
    } else {
      var before, e := log[..|log| - 1], log[|log| - 1];
      var done, part := LogIsSessions(before);
      sessions, tail := OneMoreEntry(TrackOf(before), done, part, e);
      assert log == before + [e];
      assert Concat(done) + part + [e] == Concat(done) + (part + [e]);
    }
  }

  // ----- the skipped start handler -----

  /** The client's last turn was broken off. */
  predicate LeftPending(log: seq<Entry>, c: LoopClient) {
    log != [] &&
    var e := log[|log| - 1];
    if e == Broken(c) then true else if e == Skipped(c) then false else LeftPending(log[..|log| - 1], c)
  }

  lemma {:induction false} StaleIsLeftPending(log: seq<Entry>, c: LoopClient)
    requires TrackOf(log).phase != Wrong
    ensures c in TrackOf(log).stale <==> LeftPending(log, c)
  {
    if log != [] {
      StaleIsLeftPending(log[..|log| - 1], c);
    }
  }

  /** In a log that is nowhere wrong, a turn begins without its start handler being asked exactly if the turn
      before it of that client was broken off. */
  lemma {:induction false} SkippedIffBroken(log: seq<Entry>, i: nat, c: LoopClient)
    requires TrackOf(log).phase != Wrong && i < |log| && Begins(log[i], c)
    ensures log[i] == Skipped(c) <==> LeftPending(log[..i], c)
    decreases |log|
  {
    if i == |log| - 1 {
      StaleIsLeftPending(log[..i], c);
    } else {
      SkippedIffBroken(log[..|log| - 1], i, c);
      assert log[..|log| - 1][..i] == log[..i];
    }
  }

  class NbiotLoop {
    var clientList: seq<LoopClient>
    var loopClient: LoopClient?
    var loopValue: int
    var loopId: LoopId
    var breakFlag: bool

    ghost var log: seq<Entry>
    ghost var registered: seq<LoopClient>  // every client that was registered, in order
    ghost var clients: set<LoopClient>

    /** The log is a row of sessions; everyone who was registered has either had a turn or is still waiting, in
        order; and apart from the active client exactly those are pending whose last turn was broken off. */
    ghost predicate Valid()
      reads this, clients
    {
      && Ordered()
      && (loopClient == null || loopClient in clients)
      && (forall c :: c in clients ==> (c.result == Pending <==> c == loopClient || c in Stale()))
    }

    ghost predicate Ordered()
      reads this
    {
      && TrackOf(log).phase == (if loopClient == null then Between else Active(loopClient))
      && Served(log) + clientList == registered
      && Known(registered, clients)
      && (loopClient != null ==> loopId == loopClient.id && loopClient !in Stale())
      && Stale() <= clients
    }

    static ghost predicate Known(registered: seq<LoopClient>, clients: set<LoopClient>) {
      && (forall c :: c in registered ==> c in clients)
      && (forall c :: c in clients ==> c.id != Unknown)
    }

    /** The clients that are pending because a break hit them. */
    ghost function Stale(): set<LoopClient>
      reads this
    {
      TrackOf(log).stale
    }

    /** No client is pending but the active one: no break has hit an active client, or all those it hit have had
        a turn since. */
    ghost predicate Clean()
      reads this
    {
      Stale() == {}
    }

    /** A client the controller may be given: with a real id, and not in a session of its own. */
    ghost predicate Registrable(c: LoopClient)
      reads this, c
    {
      c.id != Unknown && (c in clients || c.result != Pending)
    }

    ghost predicate AllRegistrable(cs: seq<LoopClient>)
      reads this, cs
    {
      forall c :: c in cs ==> Registrable(c)
    }

    constructor ()
      ensures Valid() && clientList == [] && loopClient == null && loopId == Unknown && !breakFlag
      ensures log == [] && registered == [] && clients == {}
    {
      clientList, loopClient, loopValue, loopId, breakFlag := [], null, 0, Unknown, false;
      log, registered, clients := [], [], {};
    }

    predicate IsBusy()
      reads this
    {
      0 < |clientList| || Unknown != loopId
    }

    /** While it is not busy, nobody is waiting and nobody is active. */
    lemma {:induction false} NotBusyMeansEmpty()
      requires Valid()
      ensures !IsBusy() ==> clientList == [] && loopClient == null && Served(log) == registered
    {
      if clientList == [] {
        assert Served(log) + clientList == Served(log);
      }
    }

    /** In a clean controller a client is pending exactly while it is the active one. */
    lemma {:induction false} PendingIsActive(c: LoopClient)
      requires Valid() && c in clients
      ensures Clean() ==> (c.result == Pending <==> c == loopClient)
      ensures c.result == Pending && c != loopClient ==> LeftPending(log, c)
    {
      StaleIsLeftPending(log, c);
    }

    /** The registration of a client, or with null of a clearance. */
    method RegisterLoopClient(client: LoopClient?)
      requires Valid()
      requires client != null ==> Registrable(client)
      modifies this
      ensures Valid() && breakFlag == old(breakFlag)
      ensures
        if client != null then
          && clientList == old(clientList) + [client] && registered == old(registered) + [client]
          && clients == old(clients) + {client} && log == old(log) && loopId == old(loopId)
          && loopClient == old(loopClient)
        else
          && clientList == [] && registered == old(registered) && clients == old(clients) && loopClient == null
          && log == old(log) + Cleared(old(loopClient), old(clientList)) && !IsBusy() && loopValue == 0
          && Stale() == old(Stale()) + Hit(old(loopClient))
    {
      if client != null {
        Append([client]);
      } else {
        Clear();
      }
    }

    method Append(more: seq<LoopClient>)
      requires Valid() && AllRegistrable(more)
      modifies this
      ensures Valid() && clientList == old(clientList) + more && registered == old(registered) + more
      ensures clients == old(clients) + set c | c in more
      ensures loopClient == old(loopClient) && loopId == old(loopId) && breakFlag == old(breakFlag) && log == old(log)
      ensures loopValue == old(loopValue)
    {
      assert Served(log) + (clientList + more) == (Served(log) + clientList) + more;
      clientList := clientList + more;
      registered := registered + more;
      clients := clients + set c | c in more;
    }

    static function Hit(active: LoopClient?): set<LoopClient> {
      if active == null then {} else {active}
    }

    /** A clearance breaks off the active client's turn and drops everyone who waits. */
    static function Cleared(active: LoopClient?, waiting: seq<LoopClient>): seq<Entry> {
      (if active == null then [] else [Broken(active)]) + AllDropped(waiting)
    }

    static lemma {:induction false} LoggedCleared(log: seq<Entry>, active: LoopClient?, waiting: seq<LoopClient>)
      requires TrackOf(log).phase == if active == null then Between else Active(active)
      ensures
        var t := TrackOf(log + Cleared(active, waiting));
        t.phase == Between && t.stale == TrackOf(log).stale + Hit(active)
      ensures Served(log + Cleared(active, waiting)) == Served(log) + waiting
    {
      var ended := if active == null then log else log + [Broken(active)];
      if active == null {
        assert Cleared(active, waiting) == AllDropped(waiting);
      } else {
        Logged(log, Broken(active));
        assert log + Cleared(active, waiting) == ended + AllDropped(waiting);
      }
      LoggedDrops(ended, waiting);
    }

    method Clear()
      requires Valid()
      modifies this
      ensures Valid()
      ensures clientList == [] && loopClient == null && loopValue == 0 && loopId == Unknown
      ensures registered == old(registered) && clients == old(clients) && breakFlag == old(breakFlag)
      ensures log == old(log) + Cleared(old(loopClient), old(clientList))
      ensures Stale() == old(Stale()) + Hit(old(loopClient))
    {
      ghost var cleared := log + Cleared(loopClient, clientList);
      LoggedCleared(log, loopClient, clientList);
      assert Served(cleared) + [] == registered;
      log := cleared;
      clientList := [];
      loopClient := null;
      loopValue := 0;
      loopId := Unknown;
    }

    method LoopBreak()
      requires Valid()
      modifies this`breakFlag
      ensures Valid() && breakFlag == (old(breakFlag) || clientList != [])
    {
      if 0 < |clientList| {
        breakFlag := true;
      }
    }

    static lemma {:induction false} SteppedOn(log: seq<Entry>, c: LoopClient, step: Answer, stop: Answer)
      requires TrackOf(log).phase == Active(c)
      ensures TrackOf(log + Stepped(c, step, stop)) ==
              TrackOf(log).(phase := if StepResult(c, step, stop) == Pending then Active(c) else Between)
      ensures Served(log + Stepped(c, step, stop)) == Served(log)
    {
      var entries := Stepped(c, step, stop);
      Logged(log, entries[0]);
      if |entries| == 2 {
        Logged(log + [entries[0]], entries[1]);
        assert log + entries == log + [entries[0]] + [entries[1]];
      } else {
        assert entries == [entries[0]];
      }
    }

    /** Calls the step handler of the active client, and its stop handler if that was the last step. */
    method StepActive(step: Answer, stop: Answer) returns (ret: Result, more: seq<LoopClient>)
      requires Valid() && loopClient != null
      modifies this, loopClient
      ensures Valid() && breakFlag == old(breakFlag) && registered == old(registered) && clients == old(clients)
      ensures clientList == old(clientList) && more == StepRegisters(old(loopClient), step, stop)
      ensures Stale() == old(Stale())
      ensures
        var c := old(loopClient);
        && ret == StepResult(c, step, stop)
        && loopClient == (if ret == Pending then c else null) && loopId == old(loopId)
        && log == old(log) + Stepped(c, step, stop)
        && loopValue == c.loopCtrl
    {
      var c := loopClient;
      SteppedOn(log, c, step, stop);
      ghost var calls := c.calls;
      ret, more := c.LoopStep(step, stop);
      log := log + c.calls[|calls|..];
      loopValue := c.loopCtrl;
      if Pending != ret {
        ret := c.result;
        loopClient := null;
      }
    }

    method StepClient(step: Answer, stop: Answer) returns (ret: Result)
      requires Valid() && loopClient != null
      requires AllRegistrable(step.registered) && AllRegistrable(stop.registered)
      modifies this, loopClient
      ensures Valid() && breakFlag == old(breakFlag)
      ensures
        var c := old(loopClient);
        && ret == StepResult(c, step, stop)
        && loopClient == (if ret == Pending then c else null) && loopId == old(loopId)
        && log == old(log) + Stepped(c, step, stop)
        && clientList == old(clientList) + StepRegisters(c, step, stop)
        && registered == old(registered) + StepRegisters(c, step, stop)
        && loopValue == c.loopCtrl && Stale() == old(Stale())
    {
      var more;
      ret, more := StepActive(step, stop);
      Append(more);
    }

    lemma {:induction false} HeadIsKnown()
      requires Valid() && clientList != []
      ensures clientList[0] in clients && clientList[0].id != Unknown
    {
      assert clientList[0] == (Served(log) + clientList)[|Served(log)|];
    }

    static lemma {:induction false} OpenedNext(log: seq<Entry>, c: LoopClient, was: Result, start: Answer)
      requires TrackOf(log).phase == Between && (c in TrackOf(log).stale <==> was == Pending)
      ensures TrackOf(log + [Opening(c, was, start)]) ==
              Track(if Starts(c, was, start) then Active(c) else Between, TrackOf(log).stale - {c})
      ensures Served(log + [Opening(c, was, start)]) == Served(log) + [c]
    {
      Logged(log, Opening(c, was, start));
    }

    static predicate Starts(c: LoopClient, was: Result, start: Answer) {
      was == Pending || !c.hasStart || start.ok
    }

    static function StartRegisters(c: LoopClient, was: Result, start: Answer): seq<LoopClient> {
      if was != Pending && c.hasStart then start.registered else []
    }

    /** Apart from `c` exactly those are pending whose last turn was broken off. */
    ghost predicate OthersRest(c: LoopClient)
      reads this, clients
    {
      forall k :: k in clients && k != c ==> (k.result == Pending <==> k in Stale())
    }

    /** The client at the front of the queue is taken to be the active one. */
    method TakeFront() returns (c: LoopClient)
      requires Valid() && loopClient == null && clientList != []
      modifies this`clientList, this`loopClient, this`loopId
      ensures c == old(clientList)[0] && clientList == old(clientList)[1..]
      ensures loopClient == c && loopId == c.id && c in clients
      ensures Served(log) + [c] + clientList == registered
      ensures OthersRest(c) && (c.result == Pending <==> c in Stale())
    {
      HeadIsKnown();
      c := clientList[0];
      loopClient := c;
      clientList := clientList[1..];
      loopId := c.id;
      assert Served(log) + [c] + clientList == Served(log) + old(clientList);
    }

    /** Calls the start handler of the client that has been taken, unless it was left pending. */
    method CallOpening(c: LoopClient, start: Answer) returns (ret: Result, more: seq<LoopClient>)
      requires c in clients && TrackOf(log).phase == Between && (c in Stale() <==> c.result == Pending)
      requires OthersRest(c)
      modifies c, this`log
      ensures ret == c.result == (if Starts(c, old(c.result), start) then Pending else Fail)
      ensures more == StartRegisters(c, old(c.result), start)
      ensures log == old(log) + [Opening(c, old(c.result), start)] && Served(log) == Served(old(log)) + [c]
      ensures TrackOf(log) == Track(if ret == Pending then Active(c) else Between, old(Stale()) - {c})
      ensures OthersRest(c)
    {
      OpenedNext(log, c, c.result, start);
      ghost var calls := c.calls;
      ret, more := c.PreLoopStep(start);
      log := log + c.calls[|calls|..];
    }

    /** After a start handler that failed nobody is active. */
    method Settle(c: LoopClient, ret: Result)
      requires loopClient == c && loopId == c.id && c in clients && ret == c.result
      requires TrackOf(log).phase == (if ret == Pending then Active(c) else Between) && c !in Stale()
      requires OthersRest(c) && Stale() <= clients && Served(log) + clientList == registered
      requires Known(registered, clients)
      modifies this`loopClient, this`loopId
      ensures Valid() && loopClient == (if ret == Pending then c else null)
      ensures loopId == if ret == Pending then c.id else Unknown
    {
      if Pending != ret {
        loopClient := null;
        loopId := Unknown;
      }
    }

    /** Opens the turn of the client that has been taken from the queue. */
    method OpenTurn(c: LoopClient, start: Answer) returns (ret: Result, more: seq<LoopClient>)
      requires loopClient == c && loopId == c.id && c in clients && TrackOf(log).phase == Between
      requires OthersRest(c) && (c.result == Pending <==> c in Stale()) && Stale() <= clients
      requires Served(log) + [c] + clientList == registered && Known(registered, clients)
      modifies this`loopClient, this`loopId, this`log, c
      ensures Valid() && Stale() == old(Stale()) - {c}
      ensures ret == (if Starts(c, old(c.result), start) then Pending else Fail)
      ensures loopClient == (if ret == Pending then c else null)
      ensures loopId == (if ret == Pending then c.id else Unknown)
      ensures log == old(log) + [Opening(c, old(c.result), start)] && more == StartRegisters(c, old(c.result), start)
    {
      ret, more := CallOpening(c, start);
      Settle(c, ret);
    }

    method StartClient(start: Answer) returns (ret: Result)
      requires Valid() && loopClient == null && clientList != []
      requires AllRegistrable(start.registered)
      modifies this, clientList[0]
      ensures Valid() && breakFlag == old(breakFlag)
      ensures
        var c := old(clientList)[0];
        var was := old(clientList[0].result);
        && ret == (if Starts(c, was, start) then Pending else Fail)
        && loopClient == (if ret == Pending then c else null)
        && loopId == (if ret == Pending then c.id else Unknown)
        && log == old(log) + [Opening(c, was, start)]
        && clientList == old(clientList)[1..] + StartRegisters(c, was, start)
        && registered == old(registered) + StartRegisters(c, was, start)
        && Stale() == old(Stale()) - {c}
    {
      var c := TakeFront();
      var more;
      ret, more := OpenTurn(c, start);
      Append(more);
    }

    /** One turn of the loop: first a break that was asked for, and then a step of the active client, or the
        start of the next one. */
    method NbiotLoop(start: Answer, step: Answer, stop: Answer) returns (ret: Result)
      requires Valid()
      requires AllRegistrable(start.registered) && AllRegistrable(step.registered) && AllRegistrable(stop.registered)
      modifies this, clients
      ensures Valid() && !breakFlag
      ensures old(breakFlag) ==>
                ret == Idle && clientList == [] && loopClient == null && !IsBusy() &&
                log == old(log) + Cleared(old(loopClient), old(clientList)) &&
                Stale() == old(Stale()) + Hit(old(loopClient))
      ensures !old(breakFlag) && old(loopClient) != null ==>
                var c := old(loopClient);
                && ret == StepResult(c, step, stop) && loopClient == (if ret == Pending then c else null)
                && loopId == old(loopId) && log == old(log) + Stepped(c, step, stop)
                && clientList == old(clientList) + StepRegisters(c, step, stop) && loopValue == c.loopCtrl
                && Stale() == old(Stale())
      ensures !old(breakFlag) && old(loopClient) == null && old(clientList) != [] ==>
                var c, was := old(clientList)[0], old(clientList[0].result);
                && ret == (if Starts(c, was, start) then Pending else Fail)
                && loopClient == (if ret == Pending then c else null)
                && log == old(log) + [Opening(c, was, start)]
                && clientList == old(clientList)[1..] + StartRegisters(c, was, start)
                && Stale() == old(Stale()) - {c}
      ensures !old(breakFlag) && old(loopClient) == null && old(clientList) == [] ==>
                ret == Idle && log == old(log) && !IsBusy() && Stale() == old(Stale())
      ensures !old(breakFlag) && (old(loopClient) != null || old(clientList) != []) ==> TurnTells(old(log), log, ret)
    {
      ret := Idle;
      if breakFlag {
        Clear();
        breakFlag := false;
      }
      if loopClient != null {
        ghost var c, before := loopClient, log;
        ret := StepClient(step, stop);
        SteppedTells(before, log, c, step, stop);
      } else {
        if |clientList| > 0 {
          HeadIsKnown();
          ghost var c, before := clientList[0], log;
          ghost var was := c.result;
          ret := StartClient(start);
          OpeningTells(before, log, c, was, start);
        } else {
          loopValue := 0;
          loopId := Unknown;
        }
      }
    }

    static lemma {:induction false} CycleDrops(before: seq<Entry>, turn: seq<Entry>, waiting: seq<LoopClient>,
                                               after: seq<Entry>, ret: Result)
      requires TurnTells(before, turn, ret) || (turn == before && ret == Idle)
      requires after == if ret == Fail then turn + Cleared(null, waiting) else turn
      ensures DropsFollowFailure(before, after)
    {
      if ret == Fail {
        DropsAfterTurn(before, turn, waiting);
        assert Cleared(null, waiting) == AllDropped(waiting);
      }
    }

    /** The part of the event loop that runs the controller: after a failure everything is cleared, which then
        finds nobody active. */
    method Cycle(start: Answer, step: Answer, stop: Answer) returns (ret: Result)
      requires Valid()
      requires AllRegistrable(start.registered) && AllRegistrable(step.registered) && AllRegistrable(stop.registered)
      modifies this, clients
      ensures Valid() && (ret == Fail ==> !IsBusy()) && (ret == Pending <==> loopClient != null)
      ensures old(log) <= log
      ensures !old(breakFlag) ==> DropsFollowFailure(old(log), log)
      ensures old(Clean()) && !(old(breakFlag) && old(loopClient) != null) ==> Clean()
      ensures old(breakFlag) && old(loopClient) != null ==> !Clean()
    {
      ghost var before, broken := log, breakFlag;
      ret := NbiotLoop(start, step, stop);
      ghost var turn, waiting := log, clientList;
      if Fail == ret {
        RegisterLoopClient(null);
      }
      if !broken {
        CycleDrops(before, turn, waiting, log, ret);
      }
    }
  }
}
