/** Publish and subscribe sessions: a packet is sent, and sent again while no acknowledgement comes and
    retries are left. */
module RetransmissionSpec {
  import opened Common
  import opened Timers

  const LOOP_INTERVAL := 1000

  datatype Kind = Publish(qos: int) | Subscribe

  /** A packet handed to the network, with its packet id and its DUP flag. */
  datatype Sent = Sent(id: word, dup: byte)

  /** What happens around one send: whether the packet fits its buffer, whether the network takes it, the
      clock afterwards, and what is left then of the time to wait for the acknowledgement. */
  datatype SendOutcome = SendOutcome(fits: bool, delivered: bool, after: int, left: nat) {
    predicate Ok() {
      fits && delivered
    }
  }

  /** One step: the clock when it looks at its timer, the resend if there is one, the clock when it looks again,
      and whether the wait afterwards brings the acknowledgement. */
  datatype StepInput = StepInput(now: int, resend: SendOutcome, later: int, acknowledged: bool)

  /** The acknowledgement a stop handler looks at. */
  datatype Reply = Malformed | Reply(packetId: word, returnCode: byte)

  /** The timer, the retries that are left, the loop value (the packet id for the start handler, afterwards the
      time that is left), the id of the publish in flight, and what has been sent. */
  datatype State = State(marks: TimerMarks, retries: nat, loopCtrl: int, inflight: word, sent: seq<Sent>)

  /** A publish with quality of service 0 waits for nothing. */
  predicate NeedsNoAck(kind: Kind) {
    kind == Publish(0)
  }

  function Fresh(id: word, timeLeft: nat, maxRetry: nat): State {
    State(TimerMarks(0, timeLeft), maxRetry, id, 0, [])
  }

  function AfterSend(kind: Kind, st: State, dup: byte, o: SendOutcome): State {
    var id: word := st.loopCtrl % 65536;
    st.(marks := if o.Ok() then Started(o.after, o.left) else st.marks,
        inflight := if o.fits && kind.Publish? then id else st.inflight,
        sent := st.sent + if o.fits then [Sent(id, dup)] else [])
  }

  predicate Resends(kind: Kind, st: State, i: StepInput) {
    !NeedsNoAck(kind) && st.marks.Remaining(i.now) == 0 && 0 < st.retries
  }

  function AfterStep(kind: Kind, st: State, i: StepInput): State {
    if NeedsNoAck(kind) then st
    else
      var st1 := if Resends(kind, st, i) then AfterSend(kind, st.(retries := st.retries - 1), 1, i.resend) else st;
      st1.(loopCtrl := st1.marks.Remaining(i.later))
  }

  predicate HasMore(kind: Kind, st: State, i: StepInput) {
    !NeedsNoAck(kind) && AfterStep(kind, st, i).loopCtrl != 0 && !i.acknowledged
  }

  /** The verdict of the stop handler, and the loop value it leaves. */
  function Verdict(kind: Kind, st: State, reply: Reply, hasHandler: bool): (bool, int) {
    match kind
    case Publish(qos) =>
      if qos == 0 then (true, st.loopCtrl)
      else if st.loopCtrl == 0 then (false, 0)
      else if reply.Malformed? then (false, 0)
      else if reply.packetId == st.inflight && reply.returnCode != 0 then (false, reply.returnCode)
      else (true, 0)
    case Subscribe =>
      (st.loopCtrl != 0 && reply.Reply? && reply.returnCode == 0 && hasHandler, st.loopCtrl)
  }

  // ----- a whole session -----

  /** The state before step `k`, if the session comes so far. */
  function StateAt(kind: Kind, st: State, steps: seq<StepInput>, k: nat): State
    requires k <= |steps|
    decreases k
  {
    if k == 0 then st else AfterStep(kind, StateAt(kind, st, steps, k - 1), steps[k - 1])
  }

  /** Steps up to the first without more to do are taken: whether step `k` has more to do. */
  predicate MoreAt(kind: Kind, st: State, steps: seq<StepInput>, k: nat)
    requires k < |steps|
  {
    HasMore(kind, StateAt(kind, st, steps, k), steps[k])
  }

  /** A session takes exactly `used` of the steps, and is finished by then or has run out of them. */
  predicate Takes(kind: Kind, st: State, steps: seq<StepInput>, used: nat, finished: bool) {
    && used <= |steps|
    && (forall k :: 0 <= k < used - 1 ==> MoreAt(kind, st, steps, k))
    && (if finished then 0 < used && !MoreAt(kind, st, steps, used - 1)
        else used == |steps| && (0 < used ==> MoreAt(kind, st, steps, used - 1)))
  }

  /** The first packet has DUP 0 and every other one DUP 1. */
  predicate DupMarksResends(sent: seq<Sent>) {
    forall i :: 0 <= i < |sent| ==> sent[i].dup == if i == 0 then 0 else 1
  }

  /** A session sends at most one packet more than it has retries, the first with its own id and DUP 0, the others
      with DUP 1. */
  lemma {:induction false} SendsAreBounded(kind: Kind, st: State, start: SendOutcome, steps: seq<StepInput>, k: nat)
    requires st.sent == [] && start.fits && k <= |steps|
    ensures
      var now := StateAt(kind, AfterSend(kind, st, 0, start), steps, k);
      && |now.sent| + now.retries <= 1 + st.retries
      && DupMarksResends(now.sent) && now.sent != [] && now.sent[0] == Sent(st.loopCtrl % 65536, 0)
    decreases k
  {
    if k > 0 {
      SendsAreBounded(kind, st, start, steps, k - 1);
    }
  }

  /** A timer that is over at both looks, with no retry left or with a resend that fails. */
  predicate Exhausted(kind: Kind, st: State, i: StepInput) {
    && !NeedsNoAck(kind)
    && st.marks.Remaining(i.now) == 0 && st.marks.Remaining(i.later) == 0
    && (st.retries == 0 || !i.resend.Ok())
  }

  predicate SomeExhausted(kind: Kind, st: State, steps: seq<StepInput>, k: nat)
    requires k <= |steps|
  {
    exists j :: 0 <= j < k && Exhausted(kind, StateAt(kind, st, steps, j), steps[j])
  }

  /** Main result: a session that comes to a step which finds the timer expired and no retries left, or fails to
      resend, ends with that step, and in failure whatever has arrived. */
  lemma {:induction false} ExhaustedFails(kind: Kind, st: State, steps: seq<StepInput>, k: nat, used: nat,
                                          finished: bool, reply: Reply, hasHandler: bool)
    requires Takes(kind, st, steps, used, finished) && k < used
    requires Exhausted(kind, StateAt(kind, st, steps, k), steps[k])
    ensures finished && used == k + 1
    ensures !Verdict(kind, StateAt(kind, st, steps, used), reply, hasHandler).0
  {
    assert !MoreAt(kind, st, steps, k);
  }

  lemma {:induction false} SomeExhaustedFails(kind: Kind, st: State, steps: seq<StepInput>, used: nat, finished: bool,
                                              reply: Reply, hasHandler: bool)
    requires Takes(kind, st, steps, used, finished) && SomeExhausted(kind, st, steps, used)
    ensures finished && !Verdict(kind, StateAt(kind, st, steps, used), reply, hasHandler).0
  {
    var k :| 0 <= k < used && Exhausted(kind, StateAt(kind, st, steps, k), steps[k]);
    ExhaustedFails(kind, st, steps, k, used, finished, reply, hasHandler);
  }

  // ----- when a packet is sent again -----

  /** A publish with quality of service 0 is sent once, takes one step, and succeeds whatever happens. */
  lemma {:induction false} UnacknowledgedIsSentOnce(st: State, steps: seq<StepInput>, k: nat, reply: Reply, hasHandler: bool)
    requires k <= |steps|
    ensures StateAt(Publish(0), st, steps, k) == st
    ensures k < |steps| ==> !MoreAt(Publish(0), st, steps, k)
    ensures Verdict(Publish(0), st, reply, hasHandler) == (true, st.loopCtrl)
    decreases k
  {
    if k > 0 {
      UnacknowledgedIsSentOnce(st, steps, k - 1, reply, hasHandler);
    }
  }

  /** The time to wait for the acknowledgement is over when step `k` looks at its timer. */
  predicate OverAt(kind: Kind, st: State, steps: seq<StepInput>, k: nat)
    requires k < |steps|
  {
    var marks := StateAt(kind, st, steps, k).marks;
    marks.endMs == 0 || marks.endMs <= steps[k].now || (marks.endMs - steps[k].now) % 0x1_0000_0000 == 0
  }

  /** Before that time is over nothing is sent, no retry is used up, and the timer runs on. */
  lemma {:induction false} NothingSentInTime(kind: Kind, st: State, steps: seq<StepInput>, k: nat)
    requires k < |steps| && !OverAt(kind, st, steps, k)
    ensures
      var was, now := StateAt(kind, st, steps, k), StateAt(kind, st, steps, k + 1);
      now.sent == was.sent && now.retries == was.retries && now.marks == was.marks && now.inflight == was.inflight
  {
  }

  /** When it is over, each step sends the packet again and uses up a retry, as long as there are any, and the time
      starts anew. */
  lemma {:induction false} SentAgainWhenOver(kind: Kind, st: State, steps: seq<StepInput>, k: nat)
    requires k < |steps| && OverAt(kind, st, steps, k) && !NeedsNoAck(kind) && steps[k].resend.Ok()
    requires 0 < StateAt(kind, st, steps, k).retries
    ensures
      var was, now, o := StateAt(kind, st, steps, k), StateAt(kind, st, steps, k + 1), steps[k].resend;
      && |now.sent| == |was.sent| + 1 && was.sent == now.sent[..|was.sent|] && now.sent[|was.sent|].dup == 1
      && now.retries == was.retries - 1 && now.marks == TimerMarks(o.after, o.after + o.left)
  {
  }

  /** A session that is never answered and whose packets all go out sends `k` packets more in `k` timeouts. */
  lemma {:induction false} SilenceUsesRetries(kind: Kind, st: State, steps: seq<StepInput>, k: nat)
    requires k <= |steps| && k <= st.retries && !NeedsNoAck(kind)
    requires forall j :: 0 <= j < k ==> TimesOutAt(kind, st, steps, j)
    ensures HasSent(st, StateAt(kind, st, steps, k), k)
    decreases k
  {
    if k > 0 {
      SilenceUsesRetries(kind, st, steps, k - 1);
      SentOnceMore(kind, st, steps, k - 1);
    }
  }

  predicate TimesOutAt(kind: Kind, st: State, steps: seq<StepInput>, k: nat)
    requires k < |steps|
  {
    OverAt(kind, st, steps, k) && steps[k].resend.Ok()
  }

  predicate HasSent(st: State, now: State, k: nat) {
    |now.sent| == |st.sent| + k && now.retries == st.retries - k
  }

  lemma {:induction false} SentOnceMore(kind: Kind, st: State, steps: seq<StepInput>, k: nat)
    requires k < |steps| && k < st.retries && !NeedsNoAck(kind) && TimesOutAt(kind, st, steps, k)
    requires HasSent(st, StateAt(kind, st, steps, k), k)
    ensures HasSent(st, StateAt(kind, st, steps, k + 1), k + 1)
  {
    SentAgainWhenOver(kind, st, steps, k);
  }

  // ----- success -----

  /** What the stop handler takes for a success, if there is time left: a SUBACK that accepts, with a handler for the
      messages, or any PUBACK but one that rejects the packet in flight. */
  predicate Accepts(kind: Kind, inflight: word, reply: Reply, hasHandler: bool) {
    match reply
    case Malformed => false
    case Reply(packetId, returnCode) =>
      if kind.Subscribe? then returnCode == 0 && hasHandler else packetId != inflight || returnCode == 0
  }

  /** Main result: a session that waits for an acknowledgement succeeds if and only if its last step had time left,
      which means that it was acknowledged, and the reply is accepted. A rejection is told by the loop value. */
  lemma {:induction false} SucceedsIff(kind: Kind, st: State, steps: seq<StepInput>, used: nat, reply: Reply,
                                       hasHandler: bool)
    requires Takes(kind, st, steps, used, true) && !NeedsNoAck(kind)
    ensures
      var now := StateAt(kind, st, steps, used);
      var (ok, value) := Verdict(kind, now, reply, hasHandler);
      && (ok <==> LeftAfter(kind, st, steps, used - 1) != 0 && Accepts(kind, now.inflight, reply, hasHandler))
      && (ok ==> steps[used - 1].acknowledged)
      && (kind.Publish? && LeftAfter(kind, st, steps, used - 1) != 0 && reply.Reply? && reply.packetId == now.inflight ==>
            value == reply.returnCode)
  {
    LoopValueIsTimeLeft(kind, st, steps, used);
    assert !MoreAt(kind, st, steps, used - 1);
  }

  /** The packet in flight is the one that was sent last. */
  lemma {:induction false} InflightIsLastSent(kind: Kind, st: State, steps: seq<StepInput>, k: nat)
    requires kind.Publish? && k <= |steps|
    requires st.sent != [] && st.inflight == st.sent[|st.sent| - 1].id
    ensures
      var now := StateAt(kind, st, steps, k);
      now.sent != [] && now.inflight == now.sent[|now.sent| - 1].id
    decreases k
  {
    if k > 0 {
      InflightIsLastSent(kind, st, steps, k - 1);
    }
  }

  // ----- the packet id -----

  /** The time that was left when step `k` was over. */
  function LeftAfter(kind: Kind, st: State, steps: seq<StepInput>, k: nat): int
    requires k < |steps|
  {
    StateAt(kind, st, steps, k + 1).marks.Remaining(steps[k].later)
  }

  /** Step `k` sends the packet again under the session's own id: it is the first step, or the time that the step
      before it left happens to be that number. */
  predicate ResendKeepsId(kind: Kind, st: State, steps: seq<StepInput>, k: nat, id: word)
    requires k < |steps|
  {
    k == 0 || LeftAfter(kind, st, steps, k - 1) % 65536 == id
  }

  /** All packets that are sent again in the first `k` steps are. */
  predicate ResendsKeepId(kind: Kind, st: State, steps: seq<StepInput>, k: nat, id: word)
    requires k <= |steps|
  {
    forall j :: 0 <= j < k && SendsAt(kind, st, steps, j) ==> ResendKeepsId(kind, st, steps, j, id)
  }

  /** Step `k` hands a packet to the network. */
  predicate SendsAt(kind: Kind, st: State, steps: seq<StepInput>, k: nat)
    requires k < |steps|
  {
    Resends(kind, StateAt(kind, st, steps, k), steps[k]) && steps[k].resend.fits
  }

  predicate SameId(sent: seq<Sent>, id: word) {
    forall i :: 0 <= i < |sent| ==> sent[i].id == id
  }

  lemma {:induction false} LoopValueIsTimeLeft(kind: Kind, st: State, steps: seq<StepInput>, k: nat)
    requires !NeedsNoAck(kind) && k <= |steps|
    ensures StateAt(kind, st, steps, k).loopCtrl == if k == 0 then st.loopCtrl else LeftAfter(kind, st, steps, k - 1)
  {
  }

  /** Main result: after any number of steps every packet that was sent carries the session's id if and only if
      each resend so far was made by the first step, or after a step that happened to leave that many
      milliseconds. */
  lemma {:induction false} SameIdIff(kind: Kind, st: State, steps: seq<StepInput>, k: nat, id: word)
    requires k <= |steps| && st.loopCtrl == id && SameId(st.sent, id)
    ensures SameId(StateAt(kind, st, steps, k).sent, id) <==> ResendsKeepId(kind, st, steps, k, id)
    decreases k
  {
    if k > 0 {
      SameIdIff(kind, st, steps, k - 1, id);
      KeepsIdOneMore(kind, st, steps, k - 1, id);
      SameIdOneMore(kind, st, steps, k - 1, id, StateAt(kind, st, steps, k - 1), StateAt(kind, st, steps, k));
    }
  }

  lemma {:induction false} SameIdOneMore(kind: Kind, st: State, steps: seq<StepInput>, k: nat, id: word,
                                         was: State, now: State)
    requires k < |steps| && st.loopCtrl == id
    requires was == StateAt(kind, st, steps, k) && now == AfterStep(kind, was, steps[k])
    ensures SameId(now.sent, id) <==>
            SameId(was.sent, id) && (SendsAt(kind, st, steps, k) ==> ResendKeepsId(kind, st, steps, k, id))
  {
    if SendsAt(kind, st, steps, k) {
      LoopValueIsTimeLeft(kind, st, steps, k);
      SameIdGrows(was.sent, was.loopCtrl % 65536, id);
      assert now.sent == was.sent + [Sent(was.loopCtrl % 65536, 1)];
    } else {
      assert now.sent == was.sent;
    }
  }

  lemma {:induction false} KeepsIdOneMore(kind: Kind, st: State, steps: seq<StepInput>, k: nat, id: word)
    requires k < |steps|
    ensures ResendsKeepId(kind, st, steps, k + 1, id) <==>
            && ResendsKeepId(kind, st, steps, k, id)
            && (SendsAt(kind, st, steps, k) ==> ResendKeepsId(kind, st, steps, k, id))
  {
  }

  lemma {:induction false} SameIdGrows(sent: seq<Sent>, last: word, id: word)
    ensures SameId(sent + [Sent(last, 1)], id) <==> SameId(sent, id) && last == id
  {
    var more := sent + [Sent(last, 1)];
    assert more[|sent|].id == last;
    if SameId(more, id) {
      forall i | 0 <= i < |sent| ensures sent[i].id == id {
        assert more[i] == sent[i];
      }
    }
  }

  /** A run in which it does not: the second packet goes out under the 5 ms that the first step left. */
  lemma {:induction false} ResendUnderAnotherId()
    ensures
      var start := AfterSend(Publish(1), Fresh(7, 10, 1), 0, SendOutcome(true, true, 1000, 5));
      var quiet := SendOutcome(true, true, 2000, 5);
      var steps := [StepInput(1000, quiet, 1000, false), StepInput(2000, quiet, 2000, false)];
      && Takes(Publish(1), start, steps, 2, false)
      && StateAt(Publish(1), start, steps, 2).sent == [Sent(7, 0), Sent(5, 1)]
  {
    var kind := Publish(1);
    var start := AfterSend(kind, Fresh(7, 10, 1), 0, SendOutcome(true, true, 1000, 5));
    var quiet := SendOutcome(true, true, 2000, 5);
    var steps := [StepInput(1000, quiet, 1000, false), StepInput(2000, quiet, 2000, false)];
    assert start == State(TimerMarks(1000, 1005), 1, 7, 7, [Sent(7, 0)]);
    assert StateAt(kind, start, steps, 0) == start;
    var st1 := AfterStep(kind, start, steps[0]);
    assert st1 == State(TimerMarks(1000, 1005), 1, 5, 7, [Sent(7, 0)]);
    assert StateAt(kind, start, steps, 1) == st1;
    var st2 := AfterStep(kind, st1, steps[1]);
    assert st2 == State(TimerMarks(2000, 2005), 0, 5, 5, [Sent(7, 0), Sent(5, 1)]);
    assert StateAt(kind, start, steps, 2) == st2;
  }
}

module Retransmissions {
  import opened Common
  import opened Timers
  import S = RetransmissionSpec

  class Session {
    const kind: S.Kind
    const timer: Timer
    var retryCount: nat
    var loopCtrl: int
    var inflightMsgid: word
    ghost var sent: seq<S.Sent>

    ghost function View(): S.State
      reads this, timer
    {
      S.State(timer.Marks(), retryCount, loopCtrl, inflightMsgid, sent)
    }

    /** The set-up of a session, with the id of its packet and the time its caller has left. */
    constructor (kind: S.Kind, id: word, timeLeft: nat, maxRetry: nat)
      ensures View() == S.Fresh(id, timeLeft, maxRetry) && this.kind == kind && fresh(timer)
      ensures retryCount == maxRetry && loopCtrl == id && sent == [] && timer.startMs == 0 && timer.endMs == timeLeft
    {
      this.kind := kind;
      retryCount := maxRetry;
      loopCtrl, inflightMsgid := id, 0;
      sent := [];
      var t := new Timer();
      t.SetTime(timeLeft);
      timer := t;
    }

    method SendPacket(packetId: int, dup: byte, o: S.SendOutcome) returns (ok: bool)
      modifies this`inflightMsgid, this`sent
      ensures ok == o.Ok()
      ensures sent == old(sent) + if o.fits then [S.Sent(packetId % 65536, dup)] else []
      ensures inflightMsgid == if o.fits && kind.Publish? then packetId % 65536 else old(inflightMsgid)
    {
      ok := false;
      var id: word := packetId % 65536;
      if o.fits {
        if kind.Publish? {
          inflightMsgid := id;
        }
        sent := sent + [S.Sent(id, dup)];
        ok := o.delivered;
      }
    }

    /** The start handler: the first send, and on success the timer. */
    method StartLoop(o: S.SendOutcome) returns (ok: bool)
      modifies this`inflightMsgid, this`sent, timer
      ensures ok == o.Ok() && View() == S.AfterSend(kind, old(View()), 0, o)
    {
      ok := SendPacket(loopCtrl, 0, o);
      if ok {
        timer.Start(o.after, o.left);
      }
    }

    /** The step handler: a resend if the timer has expired and retries are left, and a wait for what is left. */
    method DoLoop(i: S.StepInput) returns (more: bool)
      modifies this`retryCount, this`loopCtrl, this`inflightMsgid, this`sent, timer
      ensures more == S.HasMore(kind, old(View()), i) && View() == S.AfterStep(kind, old(View()), i)
    {
      if S.NeedsNoAck(kind) {
        more := false;
      } else {
        if 0 == timer.Marks().Remaining(i.now) && 0 < retryCount {
          retryCount := retryCount - 1;
          var packetId := loopCtrl;
          var ok := SendPacket(packetId, 1, i.resend);
          if ok {
            timer.Start(i.resend.after, i.resend.left);
          }
        }
        loopCtrl := timer.Marks().Remaining(i.later);
        var interval := if S.LOOP_INTERVAL < loopCtrl then S.LOOP_INTERVAL else loopCtrl;
        more := interval != 0 && !i.acknowledged;
      }
    }

    /** The stop handler. Without an acknowledgement in time the session has failed. A PUBACK for another packet
        id is let pass. */
    method FinishLoop(reply: S.Reply, hasHandler: bool) returns (ok: bool)
      modifies this`loopCtrl, this`inflightMsgid
      ensures (ok, loopCtrl) == S.Verdict(kind, old(View()), reply, hasHandler)
    {
      ok := true;
      match kind {
        case Publish(qos) =>
          if qos != 0 {
            if 0 == loopCtrl {
              ok := false;
            } else {
              loopCtrl := 0;
              if reply.Malformed? {
                ok := false;
              } else if inflightMsgid == reply.packetId {
                inflightMsgid := 0;
                if 0 != reply.returnCode {
                  loopCtrl := reply.returnCode;
                  ok := false;
                }
              }
            }
          }
        case Subscribe =>
          if 0 == loopCtrl {
            ok := false;
          } else if reply.Reply? {
            if 0 == reply.returnCode {
              if !hasHandler {
                ok := false;
              }
            } else {
              ok := false;
            }
          } else {
            ok := false;
          }
      }
    }

    /** The steps of a session, up to the first without more to do. */
    method RunSteps(steps: seq<S.StepInput>) returns (used: nat, finished: bool)
      modifies this, timer
      ensures S.Takes(kind, old(View()), steps, used, finished)
      ensures View() == S.StateAt(kind, old(View()), steps, used)
    {
      ghost var st := View();
      used := 0;
      var more := true;
      while more && used < |steps|
        invariant 0 <= used <= |steps| && View() == S.StateAt(kind, st, steps, used)
        invariant forall k :: 0 <= k < used - 1 ==> S.MoreAt(kind, st, steps, k)
        invariant used == 0 ==> more
        invariant 0 < used ==> more == S.MoreAt(kind, st, steps, used - 1)
        decreases |steps| - used
      {
        more := DoLoop(steps[used]);
        used := used + 1;
      }
      finished := !more;
    }

    /** What is known of a session that has taken its steps. */
    lemma {:induction false} SessionIs(before: S.State, start: S.SendOutcome, steps: seq<S.StepInput>, used: nat,
                                       finished: bool, reply: S.Reply, hasHandler: bool)
      requires start.Ok() && S.Takes(kind, S.AfterSend(kind, before, 0, start), steps, used, finished)
      ensures
        var st := S.AfterSend(kind, before, 0, start);
        var now := S.StateAt(kind, st, steps, used);
        && (S.SomeExhausted(kind, st, steps, used) ==>
              finished && !S.Verdict(kind, now, reply, hasHandler).0)
        && (before.sent == [] ==> |now.sent| <= 1 + before.retries && S.DupMarksResends(now.sent))
        && (before.sent == [] && 0 <= before.loopCtrl < 65536 ==>
              (S.SameId(now.sent, before.loopCtrl) <==> S.ResendsKeepId(kind, st, steps, used, before.loopCtrl)))
    {
      var st := S.AfterSend(kind, before, 0, start);
      if S.SomeExhausted(kind, st, steps, used) {
        S.SomeExhaustedFails(kind, st, steps, used, finished, reply, hasHandler);
      }
      if before.sent == [] {
        S.SendsAreBounded(kind, before, start, steps, used);
        if 0 <= before.loopCtrl < 65536 {
          S.SameIdIff(kind, st, steps, used, before.loopCtrl);
        }
      }
    }

    /** A whole session as the loop controller runs it: a start, steps up to the first without more to do, and a
        stop. `used` is the number of steps it took, out of those that are given. */
    method RunSession(start: S.SendOutcome, steps: seq<S.StepInput>, reply: S.Reply, hasHandler: bool)
      returns (started: bool, finished: bool, ok: bool, used: nat)
      modifies this, timer
      ensures started == start.Ok()
      ensures !started ==> !finished && used == 0 && View() == S.AfterSend(kind, old(View()), 0, start)
      ensures started ==>
                var st := S.AfterSend(kind, old(View()), 0, start);
                && S.Takes(kind, st, steps, used, finished) && sent == S.StateAt(kind, st, steps, used).sent
                && (finished ==> ok == S.Verdict(kind, S.StateAt(kind, st, steps, used), reply, hasHandler).0)
      ensures started ==>
                var st := S.AfterSend(kind, old(View()), 0, start);
                S.SomeExhausted(kind, st, steps, used) ==> finished && !ok
      ensures started && old(sent) == [] && 0 <= old(loopCtrl) < 65536 ==>
                var st := S.AfterSend(kind, old(View()), 0, start);
                S.SameId(sent, old(loopCtrl)) <==> S.ResendsKeepId(kind, st, steps, used, old(loopCtrl))
      ensures old(sent) == [] ==> |sent| <= 1 + old(retryCount) && S.DupMarksResends(sent)
    {
      finished, ok, used := false, false, 0;
      ghost var before := View();
      started := StartLoop(start);
      if !started {
        return;
      }
      ghost var st := View();
      used, finished := RunSteps(steps);
      SessionIs(before, start, steps, used, finished, reply, hasHandler);
      if finished {
        ok := FinishLoop(reply, hasHandler);
      }
    }
  }
}
