/** The packets octet by octet, as sections 5.2 to 5.4 of the MQTT-SN specification, version 1.2, lay them out. */
module PacketOctets {
  import opened Common
  import opened PacketFormat

  /** A number in two octets, the high one first. */
  predicate Number(b: seq<byte>, i: nat, n: int) {
    i + 1 < |b| && var high: int := b[i]; 256 * high + b[i + 1] == n
  }

  /** A run of octets from `i` up to `end`. */
  predicate Run(b: seq<byte>, i: nat, end: nat, data: seq<byte>) {
    i <= end <= |b| && b[i..end] == data
  }

  /** The flags octet: dup, two bits of quality of service, retain, will, clean session, and two bits that tell a topic's
      name or id, its predefined id, and its short name apart. */
  predicate FlagsOctet(f: byte, dup: int, qos: int, retain: int, will: int, clean: int, topicType: int) {
    && f / 128 == dup % 2 && f / 32 % 4 == qos % 4 && f / 16 % 2 == retain % 2 && f / 8 % 2 == will % 2
    && f / 4 % 2 == clean % 2 && f % 4 == topicType
  }

  function TopicType(topic: TopicId<seq<byte>>): int {
    if topic.PredefinedId? then 1 else if topic.ShortName? then 2 else 0
  }

  /** The two topic octets of a PUBLISH: an id, a short name, or the length of a long one. */
  predicate TopicOctets(b: seq<byte>, i: nat, topic: TopicId<seq<byte>>) {
    match topic
    case NormalId(id) => Number(b, i, id)
    case PredefinedId(id) => Number(b, i, id)
    case ShortName(first, second) => i + 1 < |b| && b[i] == first && b[i + 1] == second
    case LongName(name) => Number(b, i, |name|)
  }

  /** A topic at the end of a packet. */
  predicate FilterOctets(b: seq<byte>, i: nat, end: nat, topic: TopicId<seq<byte>>) {
    match topic
    case NormalId(id) => false
    case PredefinedId(id) => end == i + 2 && Number(b, i, id)
    case ShortName(first, second) => end == i + 2 && i + 1 < |b| && b[i] == first && b[i + 1] == second
    case LongName(name) => Run(b, i, end, name)
  }

  predicate Starts(b: seq<byte>, rc: int, kind: byte) {
    2 <= rc <= |b| && b[0] == rc && b[1] == kind
  }

  predicate PublishOctets(m: Publish<seq<byte>>, b: seq<byte>, rc: int) {
    var name := if m.topic.LongName? then m.topic.name else [];
    && Starts(b, rc, 0x0c) && rc == 7 + |name| + |m.payload|
    && FlagsOctet(b[2], m.dup, m.qos, m.retained, 0, 0, TopicType(m.topic))
    && TopicOctets(b, 3, m.topic) && Number(b, 5, m.packetId)
    && Run(b, 7, 7 + |name|, name) && Run(b, 7 + |name|, rc, m.payload)
  }

  predicate AckOctets(kind: byte, m: Ack, b: seq<byte>, rc: int) {
    Starts(b, rc, kind) && rc == 7 && Number(b, 2, m.topicId) && Number(b, 4, m.packetId) && b[6] == m.returnCode
  }

  predicate RegisterOctets(m: Register<seq<byte>>, b: seq<byte>, rc: int) {
    && Starts(b, rc, 0x0a) && Number(b, 2, m.topicId) && Number(b, 4, m.packetId)
    && Run(b, 6, rc, m.topicName)
  }

  predicate SubscribeOctets(m: Subscribe<seq<byte>>, b: seq<byte>, rc: int) {
    && Starts(b, rc, 0x12) && 5 <= rc && FlagsOctet(b[2], m.dup, m.qos, 0, 0, 0, TopicType(m.topicFilter))
    && Number(b, 3, m.packetId) && FilterOctets(b, 5, rc, m.topicFilter)
  }

  predicate SubackOctets(m: Suback, b: seq<byte>, rc: int) {
    && Starts(b, rc, 0x13) && rc == 8 && FlagsOctet(b[2], 0, m.qos, 0, 0, 0, 0)
    && Number(b, 3, m.topicId) && Number(b, 5, m.packetId) && b[7] == m.returnCode
  }

  predicate UnsubscribeOctets(m: Unsubscribe<seq<byte>>, b: seq<byte>, rc: int) {
    && Starts(b, rc, 0x14) && 5 <= rc && FlagsOctet(b[2], 0, 0, 0, 0, 0, TopicType(m.topicFilter))
    && Number(b, 3, m.packetId) && FilterOctets(b, 5, rc, m.topicFilter)
  }

  predicate ConnectOctets(m: Connect<seq<byte>>, b: seq<byte>, rc: int) {
    && Starts(b, rc, 0x04) && 6 <= rc && FlagsOctet(b[2], 0, 0, 0, m.willFlag, m.cleanSession, 0)
    && b[3] == 1 && Number(b, 4, m.duration) && Run(b, 6, rc, m.clientId)
  }

  predicate DisconnectOctets(duration: int, b: seq<byte>, rc: int) {
    && Starts(b, rc, 0x18) && rc == (if duration >= 0 then 4 else 2)
    && (duration >= 0 ==> Number(b, 2, duration % 65536))
  }

  // ----- what is written is laid out so -----

  /** A body behind its length octet. */
  predicate Written(body: seq<byte>, b: seq<byte>, rc: int) {
    body != [] && rc == 1 + |body| && rc <= |b| && b[0] == rc && forall i :: 0 <= i < |body| ==> b[i + 1] == body[i]
  }

  /** What a serializer reports of a buffer of at most 255 octets. */
  lemma {:induction false} ShortIsWritten(body: seq<byte>, buflen: int, before: seq<byte>, after: seq<byte>, rc: int)
    requires body != [] && buflen <= 255 && Affordable(body, buflen, |before|)
    requires Serialized(body, buflen, before, after, rc)
    ensures if buflen < 1 + |body| then rc == -2 && after == before else Written(body, after, rc)
  {
    if buflen >= 1 + |body| {
      ReportIsLength(body, buflen, before, after, rc);
      forall i | 0 <= i < |body| ensures after[i + 1] == body[i] {
        assert after[..rc][i + 1] == ([rc] + body)[i + 1];
      }
    }
  }

  lemma {:induction false} IntIsNumber(b: seq<byte>, i: nat, n: nat)
    requires i + 1 < |b| && b[i] == Int(n)[0] && b[i + 1] == Int(n)[1]
    ensures Number(b, i, n % 65536)
  {
    IntReadsBack(n);
  }

  lemma {:induction false} FlagsAreOctet(dup: int, qos: int, retain: int, will: int, clean: int, topicType: int)
    requires 0 <= topicType <= 2
    ensures FlagsOctet(Flags(dup, qos, retain, will, clean, topicType), dup, qos, retain, will, clean, topicType)
  {
    BitsOf(Flags(dup, qos, retain, will, clean, topicType), dup % 2, qos % 4, retain % 2, will % 2, clean % 2, topicType);
  }

  lemma {:induction false} BitsOf(f: byte, d: int, q: int, r: int, w: int, c: int, t: int)
    requires 0 <= d < 2 && 0 <= q < 4 && 0 <= r < 2 && 0 <= w < 2 && 0 <= c < 2 && 0 <= t <= 2
    requires f == d * 128 + q * 32 + r * 16 + w * 8 + c * 4 + t
    ensures f / 128 == d && f / 32 % 4 == q && f / 16 % 2 == r && f / 8 % 2 == w && f / 4 % 2 == c && f % 4 == t
  {
    assert f / 128 == d && f / 32 == 4 * d + q && f / 16 == 8 * d + 2 * q + r;
    assert f / 8 == 16 * d + 4 * q + 2 * r + w && f / 4 == 32 * d + 8 * q + 4 * r + 2 * w + c;
  }

  lemma {:induction false} TypeAloneIsFlags(topicType: byte)
    requires 0 <= topicType <= 2
    ensures FlagsOctet(topicType, 0, 0, 0, 0, 0, topicType)
  {
    BitsOf(topicType, 0, 0, 0, 0, 0, topicType);
  }

  /** A part of the body, at its place in the buffer. */
  lemma {:induction false} PartIsRun(body: seq<byte>, b: seq<byte>, rc: int, i: nat, j: nat, data: seq<byte>)
    requires Written(body, b, rc) && i <= j <= |body| && body[i..j] == data
    ensures Run(b, i + 1, j + 1, data)
  {
    assert forall k :: 0 <= k < |data| ==> b[i + 1..j + 1][k] == b[i + k + 1] == body[i + k] == data[k];
  }

  lemma {:induction false} FieldIsTopic(b: seq<byte>, i: nat, topic: TopicId<seq<byte>>)
    requires i + 1 < |b| && b[i] == TopicField(topic)[0] && b[i + 1] == TopicField(topic)[1]
    requires topic.LongName? ==> |topic.name| < 65536
    ensures TopicOctets(b, i, topic)
  {
    match topic
    case NormalId(id) => IntIsNumber(b, i, id);
    case PredefinedId(id) => IntIsNumber(b, i, id);
    case ShortName(_, _) =>
    case LongName(name) => IntIsNumber(b, i, |name|);
  }

  lemma {:induction false} FieldIsFilter(body: seq<byte>, b: seq<byte>, rc: int, topic: TopicId<seq<byte>>)
    requires Written(body, b, rc) && |body| >= 4 && !topic.NormalId? && body[4..] == FilterField(topic)
    ensures FilterOctets(b, 5, rc, topic)
  {
    match topic
    case PredefinedId(id) =>
      assert body[4] == body[4..][0] && body[5] == body[4..][1];
      assert b[4 + 1] == body[4] && b[5 + 1] == body[5];
      IntIsNumber(b, 5, id);
    case ShortName(first, second) =>
      assert body[4] == body[4..][0] && body[5] == body[4..][1];
      assert b[4 + 1] == body[4] && b[5 + 1] == body[5];
    case LongName(name) =>
      assert body[4..|body|] == body[4..];
      PartIsRun(body, b, rc, 4, |body|, name);
  }

  lemma {:induction false} PublishIsLaidOut(m: Publish<seq<byte>>, b: seq<byte>, rc: int)
    requires Written(PublishBody(m), b, rc) && rc <= 255
    ensures PublishOctets(m, b, rc)
  {
    var body, name := PublishBody(m), if m.topic.LongName? then m.topic.name else [];
    PublishLength(m);
    FlagsAreOctet(m.dup, m.qos, m.retained, 0, 0, TypeCode(m.topic));
    assert b[0 + 1] == body[0] && b[1 + 1] == body[1] && b[2 + 1] == body[2] && b[3 + 1] == body[3];
    assert b[4 + 1] == body[4] && b[5 + 1] == body[5];
    FieldIsTopic(b, 3, m.topic);
    IntIsNumber(b, 5, m.packetId);
    assert body[6..6 + |name|] == name;
    PartIsRun(body, b, rc, 6, 6 + |name|, name);
    assert body[6 + |name|..|body|] == m.payload;
    PartIsRun(body, b, rc, 6 + |name|, |body|, m.payload);
  }

  lemma {:induction false} AckIsLaidOut(kind: byte, m: Ack, b: seq<byte>, rc: int)
    requires Written(AckBody(kind, m), b, rc)
    ensures AckOctets(kind, m, b, rc)
  {
    var body := AckBody(kind, m);
    assert b[0 + 1] == body[0] && b[1 + 1] == body[1] && b[2 + 1] == body[2] && b[3 + 1] == body[3];
    assert b[4 + 1] == body[4] && b[5 + 1] == body[5];
    IntIsNumber(b, 2, m.topicId);
    IntIsNumber(b, 4, m.packetId);
  }

  lemma {:induction false} RegisterIsLaidOut(m: Register<seq<byte>>, b: seq<byte>, rc: int)
    requires Written(RegisterBody(m), b, rc)
    ensures RegisterOctets(m, b, rc)
  {
    var body := RegisterBody(m);
    assert b[0 + 1] == body[0] && b[1 + 1] == body[1] && b[2 + 1] == body[2] && b[3 + 1] == body[3] && b[4 + 1] == body[4];
    IntIsNumber(b, 2, m.topicId);
    IntIsNumber(b, 4, m.packetId);
    assert body[5..|body|] == m.topicName;
    PartIsRun(body, b, rc, 5, |body|, m.topicName);
  }

  lemma {:induction false} SubscribeIsLaidOut(m: Subscribe<seq<byte>>, b: seq<byte>, rc: int)
    requires !m.topicFilter.NormalId? && Written(SubscribeBody(m), b, rc)
    ensures SubscribeOctets(m, b, rc)
  {
    var body := SubscribeBody(m);
    FlagsAreOctet(m.dup, m.qos, 0, 0, 0, TypeCode(m.topicFilter));
    assert b[0 + 1] == body[0] && b[1 + 1] == body[1] && b[2 + 1] == body[2] && b[3 + 1] == body[3];
    IntIsNumber(b, 3, m.packetId);
    assert body[4..] == FilterField(m.topicFilter);
    FieldIsFilter(body, b, rc, m.topicFilter);
  }

  lemma {:induction false} SubackIsLaidOut(m: Suback, b: seq<byte>, rc: int)
    requires Written(SubackBody(m), b, rc)
    ensures SubackOctets(m, b, rc)
  {
    var body := SubackBody(m);
    FlagsAreOctet(0, m.qos, 0, 0, 0, 0);
    assert b[0 + 1] == body[0] && b[1 + 1] == body[1] && b[2 + 1] == body[2] && b[3 + 1] == body[3];
    assert b[4 + 1] == body[4] && b[5 + 1] == body[5] && b[6 + 1] == body[6];
    IntIsNumber(b, 3, m.topicId);
    IntIsNumber(b, 5, m.packetId);
  }

  lemma {:induction false} UnsubscribeIsLaidOut(m: Unsubscribe<seq<byte>>, b: seq<byte>, rc: int)
    requires !m.topicFilter.NormalId? && Written(UnsubscribeBody(m), b, rc)
    ensures UnsubscribeOctets(m, b, rc)
  {
    var body := UnsubscribeBody(m);
    TypeAloneIsFlags(TypeCode(m.topicFilter));
    assert b[0 + 1] == body[0] && b[1 + 1] == body[1] && b[2 + 1] == body[2] && b[3 + 1] == body[3];
    IntIsNumber(b, 3, m.packetId);
    assert body[4..] == FilterField(m.topicFilter);
    FieldIsFilter(body, b, rc, m.topicFilter);
  }

  lemma {:induction false} ConnectIsLaidOut(m: Connect<seq<byte>>, b: seq<byte>, rc: int)
    requires Written(ConnectBody(m), b, rc)
    ensures ConnectOctets(m, b, rc)
  {
    var body := ConnectBody(m);
    FlagsAreOctet(0, 0, 0, m.willFlag, m.cleanSession, 0);
    assert b[0 + 1] == body[0] && b[1 + 1] == body[1] && b[2 + 1] == body[2] && b[3 + 1] == body[3] && b[4 + 1] == body[4];
    IntIsNumber(b, 4, m.duration);
    assert body[5..|body|] == m.clientId;
    PartIsRun(body, b, rc, 5, |body|, m.clientId);
  }

  lemma {:induction false} DisconnectIsLaidOut(duration: int, b: seq<byte>, rc: int)
    requires Written(DisconnectBody(duration), b, rc)
    ensures DisconnectOctets(duration, b, rc)
  {
    var body := DisconnectBody(duration);
    assert b[0 + 1] == body[0];
    if duration >= 0 {
      assert b[1 + 1] == body[1] && b[2 + 1] == body[2];
      IntIsNumber(b, 2, duration);
    }
  }

  // ----- what a serializer does with a buffer of at most 255 octets -----

  function NameLength(topic: TopicId<seq<byte>>): nat {
    if topic.LongName? then |topic.name| else 0
  }

  function FilterLength(topic: TopicId<seq<byte>>): nat {
    if topic.LongName? then |topic.name| else 2
  }

  /** It takes `size` octets, or the buffer is too short for them and stays as it was. */
  predicate TakesOctets(size: nat, buflen: int, before: seq<byte>, after: seq<byte>, rc: int) {
    if buflen < size then rc == -2 && after == before else rc == size
  }

  lemma {:induction false} PublishOnWire(m: Publish<seq<byte>>, buflen: int, before: seq<byte>, after: seq<byte>, rc: int)
    requires buflen <= 255 && Affordable(PublishBody(m), buflen, |before|)
    requires Serialized(PublishBody(m), buflen, before, after, rc)
    ensures TakesOctets(7 + NameLength(m.topic) + |m.payload|, buflen, before, after, rc)
    ensures rc != -2 ==> PublishOctets(m, after, rc)
  {
    PublishLength(m);
    ShortIsWritten(PublishBody(m), buflen, before, after, rc);
    if rc != -2 {
      PublishIsLaidOut(m, after, rc);
    }
  }

  lemma {:induction false} AckOnWire(kind: byte, m: Ack, buflen: int, before: seq<byte>, after: seq<byte>, rc: int)
    requires buflen <= 255 && Affordable(AckBody(kind, m), buflen, |before|)
    requires Serialized(AckBody(kind, m), buflen, before, after, rc)
    ensures TakesOctets(7, buflen, before, after, rc)
    ensures rc != -2 ==> AckOctets(kind, m, after, rc)
  {
    ShortIsWritten(AckBody(kind, m), buflen, before, after, rc);
    if rc != -2 {
      AckIsLaidOut(kind, m, after, rc);
    }
  }

  lemma {:induction false} RegisterOnWire(m: Register<seq<byte>>, buflen: int, before: seq<byte>, after: seq<byte>, rc: int)
    requires buflen <= 255 && Affordable(RegisterBody(m), buflen, |before|)
    requires Serialized(RegisterBody(m), buflen, before, after, rc)
    ensures TakesOctets(6 + |m.topicName|, buflen, before, after, rc)
    ensures rc != -2 ==> RegisterOctets(m, after, rc)
  {
    ShortIsWritten(RegisterBody(m), buflen, before, after, rc);
    if rc != -2 {
      RegisterIsLaidOut(m, after, rc);
    }
  }

  lemma {:induction false} SubscribeOnWire(m: Subscribe<seq<byte>>, buflen: int, before: seq<byte>, after: seq<byte>,
                                           rc: int)
    requires !m.topicFilter.NormalId? && buflen <= 255 && Affordable(SubscribeBody(m), buflen, |before|)
    requires Serialized(SubscribeBody(m), buflen, before, after, rc)
    ensures TakesOctets(5 + FilterLength(m.topicFilter), buflen, before, after, rc)
    ensures rc != -2 ==> SubscribeOctets(m, after, rc)
  {
    ShortIsWritten(SubscribeBody(m), buflen, before, after, rc);
    if rc != -2 {
      SubscribeIsLaidOut(m, after, rc);
    }
  }

  lemma {:induction false} SubackOnWire(m: Suback, buflen: int, before: seq<byte>, after: seq<byte>, rc: int)
    requires buflen <= 255 && Affordable(SubackBody(m), buflen, |before|)
    requires Serialized(SubackBody(m), buflen, before, after, rc)
    ensures TakesOctets(8, buflen, before, after, rc)
    ensures rc != -2 ==> SubackOctets(m, after, rc)
  {
    ShortIsWritten(SubackBody(m), buflen, before, after, rc);
    if rc != -2 {
      SubackIsLaidOut(m, after, rc);
    }
  }

  lemma {:induction false} UnsubscribeOnWire(m: Unsubscribe<seq<byte>>, buflen: int, before: seq<byte>, after: seq<byte>,
                                             rc: int)
    requires !m.topicFilter.NormalId? && buflen <= 255 && Affordable(UnsubscribeBody(m), buflen, |before|)
    requires Serialized(UnsubscribeBody(m), buflen, before, after, rc)
    ensures TakesOctets(5 + FilterLength(m.topicFilter), buflen, before, after, rc)
    ensures rc != -2 ==> UnsubscribeOctets(m, after, rc)
  {
    ShortIsWritten(UnsubscribeBody(m), buflen, before, after, rc);
    if rc != -2 {
      UnsubscribeIsLaidOut(m, after, rc);
    }
  }

  lemma {:induction false} ConnectOnWire(m: Connect<seq<byte>>, buflen: int, before: seq<byte>, after: seq<byte>, rc: int)
    requires buflen <= 255 && Affordable(ConnectBody(m), buflen, |before|)
    requires Serialized(ConnectBody(m), buflen, before, after, rc)
    ensures TakesOctets(6 + |m.clientId|, buflen, before, after, rc)
    ensures rc != -2 ==> ConnectOctets(m, after, rc)
  {
    ShortIsWritten(ConnectBody(m), buflen, before, after, rc);
    if rc != -2 {
      ConnectIsLaidOut(m, after, rc);
    }
  }

  lemma {:induction false} DisconnectOnWire(duration: int, buflen: int, before: seq<byte>, after: seq<byte>, rc: int)
    requires buflen <= 255 && Affordable(DisconnectBody(duration), buflen, |before|)
    requires Serialized(DisconnectBody(duration), buflen, before, after, rc)
    ensures TakesOctets(if duration >= 0 then 4 else 2, buflen, before, after, rc)
    ensures rc != -2 ==> DisconnectOctets(duration, after, rc)
  {
    ShortIsWritten(DisconnectBody(duration), buflen, before, after, rc);
    if rc != -2 {
      DisconnectIsLaidOut(duration, after, rc);
    }
  }
}
