/** MQTT-SN packets as byte sequences: what the serializers write, and what the readers take from a buffer. */
module PacketFormat {
  import opened Common

  const CONNECT: byte := 4
  const REGISTER: byte := 10
  const REGACK: byte := 11
  const PUBLISH: byte := 12
  const PUBACK: byte := 13
  const SUBSCRIBE: byte := 18
  const SUBACK: byte := 19
  const UNSUBSCRIBE: byte := 20
  const DISCONNECT: byte := 24

  const TOPIC_NORMAL := 0
  const TOPIC_PREDEFINED := 1
  const TOPIC_SHORT := 2

  const PROTOCOL_ID: byte := 1

  const BUFFER_TOO_SHORT := -2
  const READ_ERROR := -1

  // ----- lengths and integers -----

  /** The length of a packet with its length field. */
  function PacketLen(length: nat): nat {
    if length > 255 then length + 3 else length + 1
  }

  function Int(n: int): seq<byte>
    requires n >= 0
  {
    [(n / 256) % 256, n % 256]
  }

  function IntAt(b: seq<byte>, i: nat): word
    requires i + 1 < |b|
  {
    var high: int := b[i];
    256 * high + b[i + 1]
  }

  lemma {:induction false} IntReadsBack(n: nat)
    ensures 256 * (n / 256 % 256) + n % 256 == n % 65536
  {
    var q := n / 256;
    assert n == 256 * q + n % 256 && q == 256 * (q / 256) + q % 256;
    RemainderIs(n, q / 256, 256 * (q % 256) + n % 256);
  }

  lemma {:induction false} RemainderIs(n: nat, p: nat, rest: nat)
    requires n == 65536 * p + rest && rest < 65536
    ensures rest == n % 65536
  {
  }

  /** The length field. In the long form the marker is written first and then overwritten by the length;
      the third byte keeps what the buffer held before. */
  function Header(len: nat, before: seq<byte>): seq<byte>
    requires len > 255 ==> |before| > 2
  {
    if len > 255 then Int(len) + [before[2]] else [len]
  }

  /** How many bytes the length field takes, and the length it tells. */
  function Decode(b: seq<byte>, buflen: int): (int, int)
    requires HeaderReadable(b, buflen)
  {
    if buflen <= 0 then (READ_ERROR, 0)
    else if b[0] == 1 then (3, IntAt(b, 1))
    else (1, b[0])
  }

  predicate HeaderReadable(b: seq<byte>, buflen: int) {
    0 < buflen ==> 0 < |b| && (b[0] == 1 ==> 3 <= buflen <= |b|)
  }

  /** A written length field is read back for every length it is short enough for, and beyond that only if
      the three bytes happen to spell it. */
  lemma {:induction false} HeaderReadsBack(len: nat, before: seq<byte>, rest: seq<byte>, buflen: int)
    requires 2 <= len <= buflen <= |rest| + 1 && |before| > 2
    ensures
      var b := Header(len, before) + rest;
      var spelled := len / 256 % 256 == 1 && len == 256 * (len % 256) + before[2];
      && HeaderReadable(b, buflen)
      && (Decode(b, buflen) == (|Header(len, before)|, len) <==> len <= 255 || spelled)
  {
  }

  // ----- flags -----

  /** The bit fields of the flags byte, from the low end: topic type 2, clean session 1, will 1, retain 1,
      quality of service 2, dup 1. */
  function Flags(dup: int, qos: int, retain: int, will: int, clean: int, topicType: int): byte {
    dup % 2 * 128 + qos % 4 * 32 + retain % 2 * 16 + will % 2 * 8 + clean % 2 * 4 + topicType % 4
  }

  // The dup field is a signed bit, so that a set one is read as -1 and kept as 255.
  function DupOf(flags: byte): byte { if flags / 128 % 2 == 1 then 255 else 0 }
  function QosOf(flags: byte): byte { flags / 32 % 4 }
  function RetainOf(flags: byte): byte { flags / 16 % 2 }
  function WillOf(flags: byte): byte { flags / 8 % 2 }
  function CleanOf(flags: byte): byte { flags / 4 % 2 }

  /** The reserved topic type is read as the normal one. */
  function TypeOf(flags: byte): byte { if flags % 4 == 3 then TOPIC_NORMAL else flags % 4 }

  lemma {:induction false} FlagsReadBack(dup: int, qos: int, retain: int, will: int, clean: int, topicType: int)
    requires 0 <= topicType <= 2
    ensures
      var f := Flags(dup, qos, retain, will, clean, topicType);
      && DupOf(f) == (if dup % 2 == 1 then 255 else 0) && QosOf(f) == qos % 4 && RetainOf(f) == retain % 2
      && WillOf(f) == will % 2 && CleanOf(f) == clean % 2 && TypeOf(f) == topicType
  {
    BitFields(Flags(dup, qos, retain, will, clean, topicType), dup % 2, qos % 4, retain % 2, will % 2, clean % 2,
              topicType);
  }

  lemma {:induction false} BitFields(f: byte, d: int, q: int, r: int, w: int, c: int, t: int)
    requires 0 <= d < 2 && 0 <= q < 4 && 0 <= r < 2 && 0 <= w < 2 && 0 <= c < 2 && 0 <= t <= 2
    requires f == d * 128 + q * 32 + r * 16 + w * 8 + c * 4 + t
    ensures DupOf(f) == (if d == 1 then 255 else 0) && QosOf(f) == q && RetainOf(f) == r
    ensures WillOf(f) == w && CleanOf(f) == c && TypeOf(f) == t
  {
    assert f / 128 == d && f / 32 == 4 * d + q && f / 16 == 8 * d + 2 * q + r;
    assert f / 8 == 16 * d + 4 * q + 2 * r + w && f / 4 == 32 * d + 8 * q + 4 * r + 2 * w + c;
  }

  // ----- messages -----

  /** A run of bytes in a buffer. */
  datatype Span = Span(start: int, len: int)

  predicate Holds(b: seq<byte>, span: Span, data: seq<byte>) {
    0 <= span.start && span.len == |data| && span.start + span.len <= |b| && b[span.start..span.start + span.len] == data
  }

  /** A topic, its long name given as bytes by a writer and as a run of the buffer by a reader. */
  datatype TopicId<N> = NormalId(id: word) | LongName(name: N) | PredefinedId(id: word) | ShortName(first: byte, second: byte)

  function TypeCode<N>(topic: TopicId<N>): byte {
    match topic
    case NormalId(_) => TOPIC_NORMAL
    case LongName(_) => TOPIC_NORMAL
    case PredefinedId(_) => TOPIC_PREDEFINED
    case ShortName(_, _) => TOPIC_SHORT
  }

  /** A topic read from a buffer is the one that was written. */
  predicate SameTopic(b: seq<byte>, read: TopicId<Span>, written: TopicId<seq<byte>>) {
    match written
    case NormalId(id) => read == NormalId(id)
    case LongName(name) => read.LongName? && Holds(b, read.name, name)
    case PredefinedId(id) => read == PredefinedId(id)
    case ShortName(first, second) => read == ShortName(first, second)
  }

  datatype Publish<N> =
    Publish(dup: int, qos: int, retained: int, packetId: word, topic: TopicId<N>, payload: N)
  datatype Ack = Ack(topicId: word, packetId: word, returnCode: byte)
  datatype Register<N> = Register(topicId: word, packetId: word, topicName: N)
  datatype Subscribe<N> = Subscribe(dup: int, qos: int, packetId: word, topicFilter: TopicId<N>)
  datatype Suback = Suback(qos: int, topicId: word, packetId: word, returnCode: byte)
  datatype Unsubscribe<N> = Unsubscribe(packetId: word, topicFilter: TopicId<N>)
  datatype Connect<N> = Connect(cleanSession: int, willFlag: int, duration: word, clientId: N)

  // ----- what the serializers write behind the length field -----

  /** The two bytes of a topic in the fixed part of a PUBLISH: of a long name, its length. */
  function TopicField(topic: TopicId<seq<byte>>): seq<byte> {
    match topic
    case NormalId(id) => Int(id)
    case LongName(name) => Int(|name|)
    case PredefinedId(id) => Int(id)
    case ShortName(first, second) => [first, second]
  }

  function PublishBody(m: Publish<seq<byte>>): seq<byte> {
    [PUBLISH, Flags(m.dup, m.qos, m.retained, 0, 0, TypeCode(m.topic))] + TopicField(m.topic) + Int(m.packetId)
    + (if m.topic.LongName? then m.topic.name else []) + m.payload
  }

  lemma {:induction false} PublishLength(m: Publish<seq<byte>>)
    ensures |PublishBody(m)| == 6 + |m.payload| + if m.topic.LongName? then |m.topic.name| else 0
  {
  }

  function AckBody(kind: byte, m: Ack): seq<byte> {
    [kind] + Int(m.topicId) + Int(m.packetId) + [m.returnCode]
  }

  function RegisterBody(m: Register<seq<byte>>): seq<byte> {
    [REGISTER] + Int(m.topicId) + Int(m.packetId) + m.topicName
  }

  /** A topic filter at the end of a packet: a name in full, or two bytes. */
  function FilterField(topic: TopicId<seq<byte>>): seq<byte>
    requires !topic.NormalId?
  {
    match topic
    case LongName(name) => name
    case PredefinedId(id) => Int(id)
    case ShortName(first, second) => [first, second]
  }

  function SubscribeBody(m: Subscribe<seq<byte>>): seq<byte>
    requires !m.topicFilter.NormalId?
  {
    [SUBSCRIBE, Flags(m.dup, m.qos, 0, 0, 0, TypeCode(m.topicFilter))] + Int(m.packetId) + FilterField(m.topicFilter)
  }

  function SubackBody(m: Suback): seq<byte> {
    [SUBACK, Flags(0, m.qos, 0, 0, 0, 0)] + Int(m.topicId) + Int(m.packetId) + [m.returnCode]
  }

  function UnsubscribeBody(m: Unsubscribe<seq<byte>>): seq<byte>
    requires !m.topicFilter.NormalId?
  {
    [UNSUBSCRIBE, TypeCode(m.topicFilter)] + Int(m.packetId) + FilterField(m.topicFilter)
  }

  function ConnectBody(m: Connect<seq<byte>>): seq<byte> {
    [CONNECT, Flags(0, 0, 0, m.willFlag, m.cleanSession, 0), PROTOCOL_ID] + Int(m.duration) + m.clientId
  }

  function DisconnectBody(duration: int): seq<byte> {
    [DISCONNECT] + if duration >= 0 then Int(duration) else []
  }

  /** What a serializer does with a buffer: nothing if its packet is too long, and otherwise it writes the
      length field and the body at the front and reports how many bytes that was. */
  predicate Serialized(body: seq<byte>, buflen: int, before: seq<byte>, after: seq<byte>, rc: int)
    requires Affordable(body, buflen, |before|)
  {
    var len := PacketLen(|body|);
    if len > buflen then rc == BUFFER_TOO_SHORT && after == before
    else
      var packet := Header(len, before) + body;
      rc == |packet| && |after| == |before| && after == packet + before[rc..]
  }

  /** The memory a serializer writes to is there. */
  predicate Affordable(body: seq<byte>, buflen: int, size: nat) {
    var len := PacketLen(|body|);
    len <= buflen ==> (if len > 255 then 3 else 1) + |body| <= size
  }

  /** The reported length is the one in the length octet, and the one compared with the buffer, for every body
      of up to 254 bytes. A body of 255 is the one length for which the report exceeds the comparison. */
  lemma {:induction false} ReportIsLength(body: seq<byte>, buflen: int, before: seq<byte>, after: seq<byte>, rc: int)
    requires Affordable(body, buflen, |before|) && PacketLen(|body|) <= buflen
    requires Serialized(body, buflen, before, after, rc)
    ensures |body| <= 254 ==> after[0] == rc && rc <= buflen && after[..rc] == [rc] + body
    ensures rc == PacketLen(|body|) <==> |body| != 255
  {
    if |body| <= 254 {
      assert after[..rc] == [rc] + body;
    }
  }

  /** What a serializer puts into a buffer of at most 255 bytes is a packet that a reader can open. */
  lemma {:induction false} SerializedIsFramed(body: seq<byte>, buflen: int, before: seq<byte>, after: seq<byte>, rc: int)
    requires body != [] && buflen <= 255 && Affordable(body, buflen, |before|)
    requires Serialized(body, buflen, before, after, rc) && rc != BUFFER_TOO_SHORT
    ensures Framed(body, after, rc) && Framed(body, after, buflen)
  {
    ReportIsLength(body, buflen, before, after, rc);
    assert after[..rc] == [1 + |body|] + body;
  }

  // ----- what the readers take out of a buffer -----

  /** The cursor behind the type byte and the end of the packet, if the packet is accepted. */
  function Opened(kind: byte, b: seq<byte>, buflen: int): Option<(nat, int)>
    requires TypeReadable(b, buflen)
  {
    var (len, value) := Decode(b, buflen);
    if value - len > buflen || b[len] != kind then None else Some((len + 1, value))
  }

  predicate TypeReadable(b: seq<byte>, buflen: int) {
    HeaderReadable(b, buflen) &&
    var (len, value) := Decode(b, buflen); value - len <= buflen ==> 0 <= len < |b|
  }

  /** The `n` fixed bytes that a reader of an accepted packet looks at are in memory. */
  predicate Readable(kind: byte, b: seq<byte>, buflen: int, n: nat) {
    TypeReadable(b, buflen) && (Opened(kind, b, buflen).Some? ==> Opened(kind, b, buflen).value.0 + n <= |b|)
  }

  /** A topic filter behind the fixed bytes: two more of them, unless it is a name. */
  predicate FilterReadable(kind: byte, b: seq<byte>, buflen: int) {
    Readable(kind, b, buflen, 3) &&
    (Opened(kind, b, buflen).Some? ==>
       var cur := Opened(kind, b, buflen).value.0;
       TypeOf(b[cur]) != TOPIC_NORMAL ==> cur + 5 <= |b|)
  }

  function TwoByteTopic(topicType: byte, b: seq<byte>, i: nat): TopicId<Span>
    requires i + 2 <= |b|
  {
    if topicType == TOPIC_NORMAL then NormalId(IntAt(b, i))
    else if topicType == TOPIC_PREDEFINED then PredefinedId(IntAt(b, i))
    else ShortName(b[i], b[i + 1])
  }

  function FilterAt(topicType: byte, b: seq<byte>, i: nat, end: int): TopicId<Span>
    requires topicType != TOPIC_NORMAL ==> i + 2 <= |b|
  {
    if topicType == TOPIC_NORMAL then LongName(Span(i, end - i)) else TwoByteTopic(topicType, b, i)
  }

  predicate HasLongName(flags: byte) {
    TypeOf(flags) == TOPIC_NORMAL && QosOf(flags) == 3
  }

  function PublishAt(b: seq<byte>, cur: nat, end: int): Publish<Span>
    requires cur + 5 <= |b|
  {
    var f := b[cur];
    var nameLen := if HasLongName(f) then IntAt(b, cur + 1) else 0;
    var topic := if HasLongName(f) then LongName(Span(cur + 5, nameLen)) else TwoByteTopic(TypeOf(f), b, cur + 1);
    var start := cur + 5 + nameLen;
    Publish(DupOf(f), QosOf(f), RetainOf(f), IntAt(b, cur + 3), topic, Span(start, end - start))
  }

  function AckAt(b: seq<byte>, cur: nat): Ack
    requires cur + 5 <= |b|
  {
    Ack(IntAt(b, cur), IntAt(b, cur + 2), b[cur + 4])
  }

  function RegisterAt(b: seq<byte>, cur: nat, end: int): Register<Span>
    requires cur + 4 <= |b|
  {
    Register(IntAt(b, cur), IntAt(b, cur + 2), Span(cur + 4, end - (cur + 4)))
  }

  function SubscribeAt(b: seq<byte>, cur: nat, end: int): Subscribe<Span>
    requires cur + 3 <= |b| && (TypeOf(b[cur]) != TOPIC_NORMAL ==> cur + 5 <= |b|)
  {
    Subscribe(DupOf(b[cur]), QosOf(b[cur]), IntAt(b, cur + 1), FilterAt(TypeOf(b[cur]), b, cur + 3, end))
  }

  function SubackAt(b: seq<byte>, cur: nat): Suback
    requires cur + 6 <= |b|
  {
    Suback(QosOf(b[cur]), IntAt(b, cur + 1), IntAt(b, cur + 3), b[cur + 5])
  }

  function UnsubscribeAt(b: seq<byte>, cur: nat, end: int): Unsubscribe<Span>
    requires cur + 3 <= |b| && (TypeOf(b[cur]) != TOPIC_NORMAL ==> cur + 5 <= |b|)
  {
    Unsubscribe(IntAt(b, cur + 1), FilterAt(TypeOf(b[cur]), b, cur + 3, end))
  }

  // CONNECT and DISCONNECT do not compare the told length with the buffer, only with a minimum.

  function Enough(kind: byte, b: seq<byte>, buflen: int, least: nat): Option<(nat, int)>
    requires EnoughReadable(b, buflen, least)
  {
    var (len, value) := Decode(b, buflen);
    if value - len < least || b[len] != kind then None else Some((len + 1, value))
  }

  predicate EnoughReadable(b: seq<byte>, buflen: int, least: nat) {
    HeaderReadable(b, buflen) &&
    var (len, value) := Decode(b, buflen); value - len >= least ==> 0 <= len < |b|
  }

  function ConnectAt(b: seq<byte>, cur: nat, end: int): Option<Connect<Span>>
    requires cur + 4 <= |b|
  {
    if b[cur + 1] != PROTOCOL_ID then None
    else Some(Connect(CleanOf(b[cur]), WillOf(b[cur]), IntAt(b, cur + 2), Span(cur + 4, end - (cur + 4))))
  }

  /** The duration, if the packet has one; accepted are packets with exactly two more bytes and with none. */
  function DisconnectAt(b: seq<byte>, cur: nat, end: int): Option<Option<word>>
    requires end - cur == 2 ==> cur + 2 <= |b|
  {
    if end - cur == 2 then Some(Some(IntAt(b, cur))) else if end == cur then Some(None) else None
  }

  // ----- round trips -----

  /** A buffer starts with a packet of at most 255 bytes, and the reader is told of at least that many. */
  predicate Framed(body: seq<byte>, b: seq<byte>, buflen: int) {
    body != [] && |body| < 255 && [1 + |body|] + body <= b && |body| < buflen
  }

  lemma {:induction false} OpensPacket(body: seq<byte>, b: seq<byte>, buflen: int)
    requires Framed(body, b, buflen)
    ensures TypeReadable(b, buflen) && Opened(body[0], b, buflen) == Some((2, 1 + |body|))
    ensures EnoughReadable(b, buflen, |body|) && Enough(body[0], b, buflen, |body|) == Some((2, 1 + |body|))
    ensures |b| > |body| && forall i :: 0 <= i < |body| ==> b[i + 1] == body[i]
    ensures Decode(b, buflen) == (1, 1 + |body|)
  {
    var p := [1 + |body|] + body;
    assert forall i :: 0 <= i < |p| ==> p[i] == b[i];
    assert forall i :: 0 <= i < |body| ==> p[i + 1] == body[i];
  }

  /** A packet of another type is refused. */
  lemma {:induction false} OtherTypeIsRefused(kind: byte, body: seq<byte>, b: seq<byte>, buflen: int, least: nat)
    requires Framed(body, b, buflen) && body[0] != kind
    ensures TypeReadable(b, buflen) && Opened(kind, b, buflen) == None
    ensures EnoughReadable(b, buflen, least) && Enough(kind, b, buflen, least) == None
  {
    OpensPacket(body, b, buflen);
    assert b[0 + 1] == body[0];
  }

  /** So is one that announces more than the buffer holds, a CONNECT of another protocol, and a DISCONNECT with other than
      no octets or two. */
  lemma {:induction false} MalformedIsRefused(kind: byte, b: seq<byte>, buflen: int)
    requires 0 < buflen <= |b| && b[0] != 1
    ensures b[0] > buflen + 1 ==> TypeReadable(b, buflen) && Opened(kind, b, buflen) == None
    ensures 6 <= |b| && b[3] != 1 ==> ConnectAt(b, 2, b[0]) == None
    ensures b[0] != 2 && b[0] != 4 ==> DisconnectAt(b, 2, b[0]) == None
  {
  }

  /** The reserved topic type counts as the normal one, and a set dup bit as 255. */
  lemma {:induction false} ReservedTypeIsNormal(f: byte)
    ensures f % 4 == 3 ==> TypeOf(f) == 0
    ensures f >= 128 ==> DupOf(f) == 255
    ensures f < 128 ==> DupOf(f) == 0
  {
  }

  /** Where the parts of a PUBLISH are found again. */
  lemma {:induction false} PublishParts(flags: byte, topic: TopicId<seq<byte>>, packetId: word, name: seq<byte>,
                                        payload: seq<byte>, b: seq<byte>, buflen: int)
    requires name == if topic.LongName? then topic.name else []
    requires Framed([PUBLISH, flags] + TopicField(topic) + Int(packetId) + name + payload, b, buflen)
    ensures Readable(PUBLISH, b, buflen, 5) && Opened(PUBLISH, b, buflen) == Some((2, 7 + |name| + |payload|))
    ensures 7 <= |b| && b[2] == flags && b[3] == TopicField(topic)[0] && b[4] == TopicField(topic)[1]
    ensures IntAt(b, 5) == packetId
    ensures Holds(b, Span(7, |name|), name) && Holds(b, Span(7 + |name|, |payload|), payload)
  {
    var fixed := [PUBLISH, flags] + TopicField(topic) + Int(packetId);
    var body := fixed + name + payload;
    OpensPacket(body, b, buflen);
    assert b[1 + 1] == body[1] && b[2 + 1] == body[2] && b[3 + 1] == body[3] && b[4 + 1] == body[4] && b[5 + 1] == body[5];
    assert b[7..7 + |name|] == body[6..6 + |name|] == name;
    assert b[7 + |name|..7 + |name| + |payload|] == body[6 + |name|..] == payload;
  }

  /** The topic and payload that a reader makes of those parts. */
  lemma {:induction false} PublishTopicReadsBack(flags: byte, topic: TopicId<seq<byte>>, qos: int, name: seq<byte>,
                                                 payload: seq<byte>, b: seq<byte>, end: int)
    requires name == (if topic.LongName? then topic.name else []) && end == 7 + |name| + |payload| < 0x1_0000
    requires TypeOf(flags) == TypeCode(topic) && QosOf(flags) == qos % 4 && (topic.LongName? ==> qos == 3)
    requires 7 <= |b| && b[2] == flags && b[3] == TopicField(topic)[0] && b[4] == TopicField(topic)[1]
    requires Holds(b, Span(7, |name|), name) && Holds(b, Span(7 + |name|, |payload|), payload)
    ensures
      var r := PublishAt(b, 2, end);
      SameTopic(b, r.topic, topic) && Holds(b, r.payload, payload) <==> !(topic.NormalId? && qos % 4 == 3)
  {
  }

  /** A PUBLISH is read back as written, except that a normal topic id loses its meaning if the quality of
      service, cut to two bits, reads as 3: then, and only then, the reader takes it for the length of a name. */
  lemma {:induction false} PublishRoundTrip(m: Publish<seq<byte>>, b: seq<byte>, buflen: int)
    requires m.topic.LongName? ==> m.qos == 3
    requires Framed(PublishBody(m), b, buflen)
    ensures Readable(PUBLISH, b, buflen, 5) && Opened(PUBLISH, b, buflen) == Some((2, 1 + |PublishBody(m)|))
    ensures
      var r := PublishAt(b, 2, 1 + |PublishBody(m)|);
      && r.dup == (if m.dup % 2 == 1 then 255 else 0) && r.qos == m.qos % 4 && r.retained == m.retained % 2
      && r.packetId == m.packetId
      && (SameTopic(b, r.topic, m.topic) && Holds(b, r.payload, m.payload)
          <==> !(m.topic.NormalId? && m.qos % 4 == 3))
  {
    var f := Flags(m.dup, m.qos, m.retained, 0, 0, TypeCode(m.topic));
    var name := if m.topic.LongName? then m.topic.name else [];
    FlagsReadBack(m.dup, m.qos, m.retained, 0, 0, TypeCode(m.topic));
    PublishParts(f, m.topic, m.packetId, name, m.payload, b, buflen);
    PublishLength(m);
    PublishTopicReadsBack(f, m.topic, m.qos, name, m.payload, b, 1 + |PublishBody(m)|);
  }

  lemma {:induction false} AckRoundTrip(kind: byte, m: Ack, b: seq<byte>, buflen: int)
    requires Framed(AckBody(kind, m), b, buflen)
    ensures Readable(kind, b, buflen, 5) && Opened(kind, b, buflen) == Some((2, 7)) && AckAt(b, 2) == m
  {
    var body := AckBody(kind, m);
    OpensPacket(body, b, buflen);
    assert forall i :: 0 <= i < 6 ==> b[i + 1] == body[i];
    assert b[1 + 1] == body[1] && b[2 + 1] == body[2] && b[3 + 1] == body[3] && b[4 + 1] == body[4] && b[5 + 1] == body[5];
  }

  lemma {:induction false} RegisterRoundTrip(m: Register<seq<byte>>, b: seq<byte>, buflen: int)
    requires Framed(RegisterBody(m), b, buflen)
    ensures Readable(REGISTER, b, buflen, 4) && Opened(REGISTER, b, buflen) == Some((2, 1 + |RegisterBody(m)|))
    ensures
      var r := RegisterAt(b, 2, 1 + |RegisterBody(m)|);
      r.topicId == m.topicId && r.packetId == m.packetId && Holds(b, r.topicName, m.topicName)
  {
    var body := RegisterBody(m);
    OpensPacket(body, b, buflen);
    assert b[1 + 1] == body[1] && b[2 + 1] == body[2] && b[3 + 1] == body[3] && b[4 + 1] == body[4];
    assert b[6..1 + |body|] == body[5..] == m.topicName;
  }

  lemma {:induction false} FilterReadsBack(topic: TopicId<seq<byte>>, b: seq<byte>, i: nat, end: int)
    requires !topic.NormalId? && i <= end == i + |FilterField(topic)| <= |b| && b[i..end] == FilterField(topic)
    ensures SameTopic(b, FilterAt(TypeCode(topic), b, i, end), topic)
  {
    if !topic.LongName? {
      assert b[i..end][0] == b[i] && b[i..end][1] == b[i + 1];
    }
  }

  /** The part that SUBSCRIBE and UNSUBSCRIBE share: type, flags, packet id and topic filter. */
  lemma {:induction false} FilterPacketReadsBack(kind: byte, flags: byte, packetId: word, topic: TopicId<seq<byte>>,
                                                 b: seq<byte>, buflen: int)
    returns (end: int)
    requires !topic.NormalId? && TypeOf(flags) == TypeCode(topic)
    requires Framed([kind, flags] + Int(packetId) + FilterField(topic), b, buflen)
    ensures end == 5 + |FilterField(topic)| && FilterReadable(kind, b, buflen)
    ensures Opened(kind, b, buflen) == Some((2, end))
    ensures 5 <= |b| && b[2] == flags && IntAt(b, 3) == packetId
    ensures TypeCode(topic) != TOPIC_NORMAL ==> 7 <= |b|
    ensures SameTopic(b, FilterAt(TypeCode(topic), b, 5, end), topic)
  {
    var body := [kind, flags] + Int(packetId) + FilterField(topic);
    end := 1 + |body|;
    OpensPacket(body, b, buflen);
    assert b[1 + 1] == body[1] && b[2 + 1] == body[2] && b[3 + 1] == body[3];
    assert b[5..end] == body[4..] == FilterField(topic);
    FilterReadsBack(topic, b, 5, end);
  }

  lemma {:induction false} SubscribeRoundTrip(m: Subscribe<seq<byte>>, b: seq<byte>, buflen: int)
    requires !m.topicFilter.NormalId? && Framed(SubscribeBody(m), b, buflen)
    ensures FilterReadable(SUBSCRIBE, b, buflen)
    ensures Opened(SUBSCRIBE, b, buflen) == Some((2, 1 + |SubscribeBody(m)|))
    ensures
      var r := SubscribeAt(b, 2, 1 + |SubscribeBody(m)|);
      && r.dup == (if m.dup % 2 == 1 then 255 else 0) && r.qos == m.qos % 4 && r.packetId == m.packetId
      && SameTopic(b, r.topicFilter, m.topicFilter)
  {
    FlagsReadBack(m.dup, m.qos, 0, 0, 0, TypeCode(m.topicFilter));
    var f := Flags(m.dup, m.qos, 0, 0, 0, TypeCode(m.topicFilter));
    var end := FilterPacketReadsBack(SUBSCRIBE, f, m.packetId, m.topicFilter, b, buflen);
  }

  lemma {:induction false} SubackRoundTrip(m: Suback, b: seq<byte>, buflen: int)
    requires Framed(SubackBody(m), b, buflen)
    ensures Readable(SUBACK, b, buflen, 6) && Opened(SUBACK, b, buflen) == Some((2, 8))
    ensures SubackAt(b, 2) == m.(qos := m.qos % 4)
  {
    var body, f := SubackBody(m), Flags(0, m.qos, 0, 0, 0, 0);
    OpensPacket(body, b, buflen);
    FlagsReadBack(0, m.qos, 0, 0, 0, 0);
    assert b[1 + 1] == body[1] && b[2 + 1] == body[2] && b[3 + 1] == body[3] && b[4 + 1] == body[4];
    assert b[5 + 1] == body[5] && b[6 + 1] == body[6];
    SubackReadsBack(m, f, b);
  }

  lemma {:induction false} SubackReadsBack(m: Suback, flags: byte, b: seq<byte>)
    requires 8 <= |b| && b[2] == flags && QosOf(flags) == m.qos % 4
    requires b[3] == Int(m.topicId)[0] && b[4] == Int(m.topicId)[1]
    requires b[5] == Int(m.packetId)[0] && b[6] == Int(m.packetId)[1] && b[7] == m.returnCode
    ensures SubackAt(b, 2) == m.(qos := m.qos % 4)
  {
  }

  lemma {:induction false} UnsubscribeRoundTrip(m: Unsubscribe<seq<byte>>, b: seq<byte>, buflen: int)
    requires !m.topicFilter.NormalId? && Framed(UnsubscribeBody(m), b, buflen)
    ensures FilterReadable(UNSUBSCRIBE, b, buflen)
    ensures Opened(UNSUBSCRIBE, b, buflen) == Some((2, 1 + |UnsubscribeBody(m)|))
    ensures
      var r := UnsubscribeAt(b, 2, 1 + |UnsubscribeBody(m)|);
      r.packetId == m.packetId && SameTopic(b, r.topicFilter, m.topicFilter)
  {
    var end := FilterPacketReadsBack(UNSUBSCRIBE, TypeCode(m.topicFilter), m.packetId, m.topicFilter, b, buflen);
  }

  lemma {:induction false} ConnectRoundTrip(m: Connect<seq<byte>>, b: seq<byte>, buflen: int)
    requires Framed(ConnectBody(m), b, buflen)
    ensures EnoughReadable(b, buflen, 2) && Enough(CONNECT, b, buflen, 2) == Some((2, 1 + |ConnectBody(m)|))
    ensures 6 <= |b| && ConnectAt(b, 2, 1 + |ConnectBody(m)|).Some?
    ensures
      var r := ConnectAt(b, 2, 1 + |ConnectBody(m)|).value;
      && r.cleanSession == m.cleanSession % 2 && r.willFlag == m.willFlag % 2 && r.duration == m.duration
      && Holds(b, r.clientId, m.clientId)
  {
    var body := ConnectBody(m);
    OpensPacket(body, b, buflen);
    FlagsReadBack(0, 0, 0, m.willFlag, m.cleanSession, 0);
    assert b[1 + 1] == body[1] && b[2 + 1] == body[2] && b[3 + 1] == body[3] && b[4 + 1] == body[4];
    assert b[6..1 + |body|] == body[5..] == m.clientId;
  }

  lemma {:induction false} DisconnectRoundTrip(duration: int, b: seq<byte>, buflen: int)
    requires Framed(DisconnectBody(duration), b, buflen)
    ensures EnoughReadable(b, buflen, 1)
    ensures Enough(DISCONNECT, b, buflen, 1) == Some((2, if duration >= 0 then 4 else 2))
    ensures duration >= 0 ==> 4 <= |b| && DisconnectAt(b, 2, 4) == Some(Some(duration % 65536))
    ensures duration < 0 ==> DisconnectAt(b, 2, 2) == Some(None)
  {
    var body := DisconnectBody(duration);
    OpensPacket(body, b, buflen);
    if duration >= 0 {
      assert body == [DISCONNECT] + Int(duration);
      assert b[1 + 1] == body[1] && b[2 + 1] == body[2];
      IntReadsBack(duration);
    }
  }
}
