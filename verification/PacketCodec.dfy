/** The serializers and deserializers, which move a cursor over a byte buffer. */
module PacketCodec {
  import opened Common
  import opened PacketFormat

  // ----- cursor primitives -----

  /** A pointer that moves over the buffer it writes to. */
  class Writer {
    const buf: array<byte>
    var ptr: nat
    ghost const before: seq<byte>  // what the buffer held at first
    ghost var header: seq<byte>    // the length field that has been written
    ghost var body: seq<byte>      // and what has been written behind it

    ghost predicate Valid()
      reads this, buf
    {
      && |before| == buf.Length && ptr == |header| + |body| <= buf.Length
      && buf[..] == header + body + before[ptr..]
    }

    constructor (buf: array<byte>)
      ensures Valid() && this.buf == buf && ptr == 0 && before == buf[..] && header == body == []
    {
      this.buf := buf;
      ptr, before, header, body := 0, buf[..], [], [];
    }

    /** The length field. Its two length bytes go to the start of the buffer again, over the marker. */
    method Encode(length: nat)
      requires Valid() && ptr == 0 && (if length > 255 then 3 else 1) <= buf.Length
      modifies this, buf
      ensures Valid() && header == Header(length, before) && body == []
    {
      if length > 255 {
        buf[0] := 1;
        buf[0] := (length / 256) % 256;
        buf[1] := length % 256;
        ptr := 3;
      } else {
        buf[0] := length;
        ptr := 1;
      }
      header, body := Header(length, before), [];
    }

    method WriteChar(c: byte)
      requires Valid() && ptr < buf.Length
      modifies this, buf
      ensures Valid() && header == old(header) && body == old(body) + [c]
    {
      buf[ptr] := c;
      ptr := ptr + 1;
      body := body + [c];
    }

    /** The length field and the message type. */
    method Begin(length: nat, kind: byte)
      requires Valid() && ptr == 0 && (if length > 255 then 4 else 2) <= buf.Length
      modifies this, buf
      ensures Valid() && header == Header(length, before) && body == [kind]
    {
      Encode(length);
      WriteChar(kind);
    }

    method WriteInt(n: nat)
      requires Valid() && ptr + 2 <= buf.Length
      modifies this, buf
      ensures Valid() && header == old(header) && body == old(body) + Int(n)
    {
      buf[ptr] := (n / 256) % 256;
      ptr := ptr + 1;
      buf[ptr] := n % 256;
      ptr := ptr + 1;
      body := body + Int(n);
    }

    method CopyBytes(data: seq<byte>)
      requires Valid() && ptr + |data| <= buf.Length
      modifies this, buf
      ensures Valid() && header == old(header) && body == old(body) + data
    {
      var i := 0;
      while i < |data|
        invariant 0 <= i <= |data| && ptr + |data| <= buf.Length
        invariant ptr == old(ptr) && header == old(header) && body == old(body)
        invariant buf[..] == header + body + data[..i] + before[ptr + i..]
      {
        buf[ptr + i] := data[i];
        i := i + 1;
      }
      assert data[..i] == data;
      ptr := ptr + |data|;
      body := body + data;
      assert buf[..] == header + body + before[ptr..];
    }

    /** The two bytes that stand for a topic. */
    method WriteTopicField(topic: TopicId<seq<byte>>)
      requires Valid() && ptr + 2 <= buf.Length
      modifies this, buf
      ensures Valid() && header == old(header) && body == old(body) + TopicField(topic)
    {
      match topic
      case LongName(name) => WriteInt(|name|);
      case NormalId(id) => WriteInt(id);
      case PredefinedId(id) => WriteInt(id);
      case ShortName(first, second) =>
        WriteChar(first);
        WriteChar(second);
    }

    method WriteCharAndInt(c: byte, n: nat)
      requires Valid() && ptr + 3 <= buf.Length
      modifies this, buf
      ensures Valid() && header == old(header) && body == old(body) + [c] + Int(n)
    {
      WriteChar(c);
      WriteInt(n);
    }

    /** The fixed part of a CONNECT behind its type. */
    method WriteConnectHead(flags: byte, duration: word)
      requires Valid() && ptr + 4 <= buf.Length
      modifies this, buf
      ensures Valid() && header == old(header) && body == old(body) + ([flags, PROTOCOL_ID] + Int(duration))
    {
      WriteChar(flags);
      WriteChar(PROTOCOL_ID);
      WriteInt(duration);
      assert old(body) + [flags] + [PROTOCOL_ID] + Int(duration) == old(body) + ([flags, PROTOCOL_ID] + Int(duration));
    }

    /** The fixed part of a PUBLISH behind its type. */
    method WritePublishHead(flags: byte, topic: TopicId<seq<byte>>, packetId: word)
      requires Valid() && ptr + 5 <= buf.Length
      modifies this, buf
      ensures Valid() && header == old(header) && body == old(body) + [flags] + TopicField(topic) + Int(packetId)
    {
      WriteChar(flags);
      WriteTopicField(topic);
      WriteInt(packetId);
    }

    /** A long topic name, if there is one, and the payload. */
    method WritePublishTail(name: seq<byte>, payload: seq<byte>)
      requires Valid() && ptr + |name| + |payload| <= buf.Length
      modifies this, buf
      ensures Valid() && header == old(header) && body == old(body) + name + payload
    {
      CopyBytes(name);
      CopyBytes(payload);
    }

    method WriteFilter(topic: TopicId<seq<byte>>)
      requires Valid() && !topic.NormalId? && ptr + |FilterField(topic)| <= buf.Length
      modifies this, buf
      ensures Valid() && header == old(header) && body == old(body) + FilterField(topic)
    {
      match topic
      case LongName(name) => CopyBytes(name);
      case PredefinedId(id) => WriteInt(id);
      case ShortName(first, second) =>
        WriteChar(first);
        WriteChar(second);
    }
  }

  method ReadInt(buf: array<byte>, ptr: nat) returns (n: word, next: nat)
    requires ptr + 2 <= buf.Length
    ensures n == IntAt(buf[..], ptr) && next == ptr + 2
  {
    var high: int := buf[ptr];
    n := 256 * high + buf[ptr + 1];
    next := ptr + 2;
  }

  method ReadChar(buf: array<byte>, ptr: nat) returns (c: byte, next: nat)
    requires ptr < buf.Length
    ensures c == buf[..][ptr] && next == ptr + 1
  {
    c := buf[ptr];
    next := ptr + 1;
  }

  method DecodeLength(buf: array<byte>, buflen: int) returns (len: int, value: int)
    requires HeaderReadable(buf[..], buflen)
    ensures (len, value) == Decode(buf[..], buflen)
  {
    len, value := READ_ERROR, 0;
    if buflen <= 0 {
      return;
    }
    if buf[0] == 1 {
      value, len := ReadInt(buf, 1);
    } else {
      value, len := buf[0], 1;
    }
  }

  // ----- serializers -----

  method SerializePublish(buf: array<byte>, buflen: int, m: Publish<seq<byte>>) returns (rc: int)
    requires m.topic.LongName? <==> TypeCode(m.topic) == TOPIC_NORMAL && m.qos == 3
    requires Affordable(PublishBody(m), buflen, buf.Length)
    modifies buf
    ensures Serialized(PublishBody(m), buflen, old(buf[..]), buf[..], rc)
  {
    PublishLength(m);
    var length := 6 + |m.payload|;
    if m.topic.LongName? {
      length := length + |m.topic.name|;
    }
    var len := PacketLen(length);
    if len > buflen {
      return BUFFER_TOO_SHORT;
    }
    var w := new Writer(buf);
    var flags := Flags(m.dup, m.qos, m.retained, 0, 0, TypeCode(m.topic));
    w.Begin(len, PUBLISH);
    w.WritePublishHead(flags, m.topic, m.packetId);
    ghost var name := if m.topic.LongName? then m.topic.name else [];
    w.WritePublishTail(if m.topic.LongName? then m.topic.name else [], m.payload);
    rc := w.ptr;
    PublishBodyIs(m, flags, name, w.body);
  }

  lemma {:induction false} PublishBodyIs(m: Publish<seq<byte>>, flags: byte, name: seq<byte>, body: seq<byte>)
    requires flags == Flags(m.dup, m.qos, m.retained, 0, 0, TypeCode(m.topic))
    requires name == if m.topic.LongName? then m.topic.name else []
    requires body == [PUBLISH] + [flags] + TopicField(m.topic) + Int(m.packetId) + name + m.payload
    ensures body == PublishBody(m)
  {
    assert [PUBLISH] + [flags] == [PUBLISH, flags];
  }

  method SerializeAck(buf: array<byte>, buflen: int, kind: byte, m: Ack) returns (rc: int)
    requires Affordable(AckBody(kind, m), buflen, buf.Length)
    modifies buf
    ensures Serialized(AckBody(kind, m), buflen, old(buf[..]), buf[..], rc)
  {
    var len := PacketLen(6);
    if len > buflen {
      return BUFFER_TOO_SHORT;
    }
    var w := new Writer(buf);
    w.Begin(len, kind);
    w.WriteInt(m.topicId);
    w.WriteInt(m.packetId);
    w.WriteChar(m.returnCode);
    rc := w.ptr;
    assert w.body == AckBody(kind, m);
  }

  method SerializePuback(buf: array<byte>, buflen: int, m: Ack) returns (rc: int)
    requires Affordable(AckBody(PUBACK, m), buflen, buf.Length)
    modifies buf
    ensures Serialized(AckBody(PUBACK, m), buflen, old(buf[..]), buf[..], rc)
  {
    rc := SerializeAck(buf, buflen, PUBACK, m);
  }

  method SerializeRegack(buf: array<byte>, buflen: int, m: Ack) returns (rc: int)
    requires Affordable(AckBody(REGACK, m), buflen, buf.Length)
    modifies buf
    ensures Serialized(AckBody(REGACK, m), buflen, old(buf[..]), buf[..], rc)
  {
    rc := SerializeAck(buf, buflen, REGACK, m);
  }

  method SerializeRegister(buf: array<byte>, buflen: int, m: Register<seq<byte>>) returns (rc: int)
    requires Affordable(RegisterBody(m), buflen, buf.Length)
    modifies buf
    ensures Serialized(RegisterBody(m), buflen, old(buf[..]), buf[..], rc)
  {
    var len := PacketLen(|m.topicName| + 5);
    if len > buflen {
      return BUFFER_TOO_SHORT;
    }
    var w := new Writer(buf);
    w.Begin(len, REGISTER);
    w.WriteInt(m.topicId);
    w.WriteInt(m.packetId);
    w.CopyBytes(m.topicName);
    rc := w.ptr;
    assert w.body == RegisterBody(m);
  }

  method SerializeSubscribe(buf: array<byte>, buflen: int, m: Subscribe<seq<byte>>) returns (rc: int)
    requires !m.topicFilter.NormalId? && Affordable(SubscribeBody(m), buflen, buf.Length)
    modifies buf
    ensures Serialized(SubscribeBody(m), buflen, old(buf[..]), buf[..], rc)
  {
    var len := PacketLen(4 + if m.topicFilter.LongName? then |m.topicFilter.name| else 2);
    if len > buflen {
      return BUFFER_TOO_SHORT;
    }
    var w := new Writer(buf);
    var flags := Flags(m.dup, m.qos, 0, 0, 0, TypeCode(m.topicFilter));
    w.Begin(len, SUBSCRIBE);
    w.WriteCharAndInt(flags, m.packetId);
    w.WriteFilter(m.topicFilter);
    rc := w.ptr;
    assert [SUBSCRIBE] + [flags] == [SUBSCRIBE, flags];
    assert w.body == SubscribeBody(m);
  }

  method SerializeSuback(buf: array<byte>, buflen: int, m: Suback) returns (rc: int)
    requires Affordable(SubackBody(m), buflen, buf.Length)
    modifies buf
    ensures Serialized(SubackBody(m), buflen, old(buf[..]), buf[..], rc)
  {
    var len := PacketLen(7);
    if len > buflen {
      return BUFFER_TOO_SHORT;
    }
    var w := new Writer(buf);
    var flags := Flags(0, m.qos, 0, 0, 0, 0);
    w.Begin(len, SUBACK);
    w.WriteCharAndInt(flags, m.topicId);
    w.WriteInt(m.packetId);
    w.WriteChar(m.returnCode);
    rc := w.ptr;
    assert [SUBACK] + [flags] == [SUBACK, flags];
    assert w.body == SubackBody(m);
  }

  method SerializeUnsubscribe(buf: array<byte>, buflen: int, m: Unsubscribe<seq<byte>>) returns (rc: int)
    requires !m.topicFilter.NormalId? && Affordable(UnsubscribeBody(m), buflen, buf.Length)
    modifies buf
    ensures Serialized(UnsubscribeBody(m), buflen, old(buf[..]), buf[..], rc)
  {
    var len := PacketLen(4 + if m.topicFilter.LongName? then |m.topicFilter.name| else 2);
    if len > buflen {
      return BUFFER_TOO_SHORT;
    }
    var w := new Writer(buf);
    w.Begin(len, UNSUBSCRIBE);
    w.WriteCharAndInt(TypeCode(m.topicFilter), m.packetId);
    w.WriteFilter(m.topicFilter);
    rc := w.ptr;
    assert w.body == UnsubscribeBody(m);
  }

  method SerializeConnect(buf: array<byte>, buflen: int, m: Connect<seq<byte>>) returns (rc: int)
    requires Affordable(ConnectBody(m), buflen, buf.Length)
    modifies buf
    ensures Serialized(ConnectBody(m), buflen, old(buf[..]), buf[..], rc)
  {
    var len := PacketLen(5 + |m.clientId|);
    if len > buflen {
      return BUFFER_TOO_SHORT;
    }
    var w := new Writer(buf);
    var flags := Flags(0, 0, 0, m.willFlag, m.cleanSession, 0);
    w.Begin(len, CONNECT);
    w.WriteConnectHead(flags, m.duration);
    w.CopyBytes(m.clientId);
    rc := w.ptr;
    ConnectBodyIs(m, flags, w.body);
  }

  lemma {:induction false} ConnectBodyIs(m: Connect<seq<byte>>, flags: byte, body: seq<byte>)
    requires flags == Flags(0, 0, 0, m.willFlag, m.cleanSession, 0)
    requires body == [CONNECT] + ([flags, PROTOCOL_ID] + Int(m.duration)) + m.clientId
    ensures body == ConnectBody(m)
  {
  }

  method SerializeDisconnect(buf: array<byte>, buflen: int, duration: int) returns (rc: int)
    requires Affordable(DisconnectBody(duration), buflen, buf.Length)
    modifies buf
    ensures Serialized(DisconnectBody(duration), buflen, old(buf[..]), buf[..], rc)
  {
    var len := PacketLen(if duration >= 0 then 3 else 1);
    if len > buflen {
      return BUFFER_TOO_SHORT;
    }
    var w := new Writer(buf);
    w.Begin(len, DISCONNECT);
    if duration >= 0 {
      w.WriteInt(duration);
    }
    rc := w.ptr;
    assert w.body == DisconnectBody(duration);
  }

  // ----- deserializers -----

  /** Reads the length and the type. On a packet that is not accepted `rc` keeps the size of the length field. */
  method Open(buf: array<byte>, buflen: int, kind: byte) returns (packet: Option<(nat, int)>, rc: int)
    requires TypeReadable(buf[..], buflen)
    ensures packet == Opened(kind, buf[..], buflen) && rc == Decode(buf[..], buflen).0
  {
    var curdata, enddata := DecodeLength(buf, buflen);
    packet, rc := None, curdata;
    if enddata - curdata > buflen {
      return;
    }
    var c, next := ReadChar(buf, curdata);
    if c == kind {
      packet := Some((next, enddata));
    }
  }

  method ReadTwoByteTopic(buf: array<byte>, topicType: byte, ptr: nat) returns (topic: TopicId<Span>, next: nat)
    requires ptr + 2 <= buf.Length
    ensures topic == TwoByteTopic(topicType, buf[..], ptr) && next == ptr + 2
  {
    if topicType == TOPIC_NORMAL {
      var id;
      id, next := ReadInt(buf, ptr);
      topic := NormalId(id);
    } else if topicType == TOPIC_PREDEFINED {
      var id;
      id, next := ReadInt(buf, ptr);
      topic := PredefinedId(id);
    } else {
      var first, second;
      first, next := ReadChar(buf, ptr);
      second, next := ReadChar(buf, next);
      topic := ShortName(first, second);
    }
  }

  method DeserializePublish(buf: array<byte>, buflen: int) returns (rc: int, out: Option<Publish<Span>>)
    requires Readable(PUBLISH, buf[..], buflen, 5)
    ensures
      match Opened(PUBLISH, buf[..], buflen)
      case None => out == None && rc == Decode(buf[..], buflen).0
      case Some((cur, end)) => out == Some(PublishAt(buf[..], cur, end)) && rc == 1
  {
    out := None;
    var packet;
    packet, rc := Open(buf, buflen, PUBLISH);
    if packet.Some? {
      var (curdata, enddata) := packet.value;
      var flags, topic, packetId;
      flags, curdata := ReadChar(buf, curdata);
      var nameLen := 0;
      if HasLongName(flags) {
        // where another topic has its id there is the number of bytes of the name
        nameLen, curdata := ReadInt(buf, curdata);
      } else {
        topic, curdata := ReadTwoByteTopic(buf, TypeOf(flags), curdata);
      }
      packetId, curdata := ReadInt(buf, curdata);
      if HasLongName(flags) {
        topic := LongName(Span(curdata, nameLen));
        curdata := curdata + nameLen;
      }
      out := Some(Publish(DupOf(flags), QosOf(flags), RetainOf(flags), packetId, topic, Span(curdata, enddata - curdata)));
      rc := 1;
    }
  }

  method DeserializeAck(buf: array<byte>, buflen: int, kind: byte) returns (rc: int, out: Option<Ack>)
    requires Readable(kind, buf[..], buflen, 5)
    ensures
      match Opened(kind, buf[..], buflen)
      case None => out == None && rc == Decode(buf[..], buflen).0
      case Some((cur, end)) => out == Some(AckAt(buf[..], cur)) && rc == 1
  {
    out := None;
    var packet;
    packet, rc := Open(buf, buflen, kind);
    if packet.Some? {
      var curdata := packet.value.0;
      var topicId, packetId, returnCode;
      topicId, curdata := ReadInt(buf, curdata);
      packetId, curdata := ReadInt(buf, curdata);
      returnCode, curdata := ReadChar(buf, curdata);
      out, rc := Some(Ack(topicId, packetId, returnCode)), 1;
    }
  }

  method DeserializeRegister(buf: array<byte>, buflen: int) returns (rc: int, out: Option<Register<Span>>)
    requires Readable(REGISTER, buf[..], buflen, 4)
    ensures
      match Opened(REGISTER, buf[..], buflen)
      case None => out == None && rc == Decode(buf[..], buflen).0
      case Some((cur, end)) => out == Some(RegisterAt(buf[..], cur, end)) && rc == 1
  {
    out := None;
    var packet;
    packet, rc := Open(buf, buflen, REGISTER);
    if packet.Some? {
      var (curdata, enddata) := packet.value;
      var topicId, packetId;
      topicId, curdata := ReadInt(buf, curdata);
      packetId, curdata := ReadInt(buf, curdata);
      out, rc := Some(Register(topicId, packetId, Span(curdata, enddata - curdata))), 1;
    }
  }

  method ReadFilter(buf: array<byte>, topicType: byte, ptr: nat, end: int) returns (topic: TopicId<Span>)
    requires topicType != TOPIC_NORMAL ==> ptr + 2 <= buf.Length
    ensures topic == FilterAt(topicType, buf[..], ptr, end)
  {
    if topicType == TOPIC_NORMAL {
      topic := LongName(Span(ptr, end - ptr));
    } else {
      var next;
      topic, next := ReadTwoByteTopic(buf, topicType, ptr);
    }
  }

  method DeserializeSubscribe(buf: array<byte>, buflen: int) returns (rc: int, out: Option<Subscribe<Span>>)
    requires FilterReadable(SUBSCRIBE, buf[..], buflen)
    ensures
      match Opened(SUBSCRIBE, buf[..], buflen)
      case None => out == None && rc == Decode(buf[..], buflen).0
      case Some((cur, end)) => out == Some(SubscribeAt(buf[..], cur, end)) && rc == 1
  {
    out := None;
    var packet;
    packet, rc := Open(buf, buflen, SUBSCRIBE);
    if packet.Some? {
      var (curdata, enddata) := packet.value;
      var flags, packetId;
      flags, curdata := ReadChar(buf, curdata);
      packetId, curdata := ReadInt(buf, curdata);
      var topic := ReadFilter(buf, TypeOf(flags), curdata, enddata);
      out, rc := Some(Subscribe(DupOf(flags), QosOf(flags), packetId, topic)), 1;
    }
  }

  method DeserializeSuback(buf: array<byte>, buflen: int) returns (rc: int, out: Option<Suback>)
    requires Readable(SUBACK, buf[..], buflen, 6)
    ensures
      match Opened(SUBACK, buf[..], buflen)
      case None => out == None && rc == Decode(buf[..], buflen).0
      case Some((cur, end)) => out == Some(SubackAt(buf[..], cur)) && rc == 1
  {
    out := None;
    var packet;
    packet, rc := Open(buf, buflen, SUBACK);
    if packet.Some? {
      var curdata := packet.value.0;
      var flags, topicId, packetId, returnCode;
      flags, curdata := ReadChar(buf, curdata);
      topicId, curdata := ReadInt(buf, curdata);
      packetId, curdata := ReadInt(buf, curdata);
      returnCode, curdata := ReadChar(buf, curdata);
      out, rc := Some(Suback(QosOf(flags), topicId, packetId, returnCode)), 1;
    }
  }

  method DeserializeUnsubscribe(buf: array<byte>, buflen: int) returns (rc: int, out: Option<Unsubscribe<Span>>)
    requires FilterReadable(UNSUBSCRIBE, buf[..], buflen)
    ensures
      match Opened(UNSUBSCRIBE, buf[..], buflen)
      case None => out == None && rc == Decode(buf[..], buflen).0
      case Some((cur, end)) => out == Some(UnsubscribeAt(buf[..], cur, end)) && rc == 1
  {
    out := None;
    var packet;
    packet, rc := Open(buf, buflen, UNSUBSCRIBE);
    if packet.Some? {
      var (curdata, enddata) := packet.value;
      var flags, packetId;
      flags, curdata := ReadChar(buf, curdata);
      packetId, curdata := ReadInt(buf, curdata);
      var topic := ReadFilter(buf, TypeOf(flags), curdata, enddata);
      out, rc := Some(Unsubscribe(packetId, topic)), 1;
    }
  }

  /** Like Open, but the told length is compared with a minimum. */
  method OpenAtLeast(buf: array<byte>, buflen: int, kind: byte, least: nat) returns (packet: Option<(nat, int)>, rc: int)
    requires EnoughReadable(buf[..], buflen, least)
    ensures packet == Enough(kind, buf[..], buflen, least) && rc == Decode(buf[..], buflen).0
  {
    var curdata, enddata := DecodeLength(buf, buflen);
    packet, rc := None, curdata;
    if enddata - curdata < least {
      return;
    }
    var c, next := ReadChar(buf, curdata);
    if c == kind {
      packet := Some((next, enddata));
    }
  }

  method DeserializeConnect(buf: array<byte>, buflen: int) returns (rc: int, out: Option<Connect<Span>>)
    requires EnoughReadable(buf[..], buflen, 2)
    requires var e := Enough(CONNECT, buf[..], buflen, 2); e.Some? ==> e.value.0 + 4 <= buf.Length
    ensures
      match Enough(CONNECT, buf[..], buflen, 2)
      case None => out == None
      case Some((cur, end)) => out == ConnectAt(buf[..], cur, end)
    ensures rc == if out.Some? then 1 else Decode(buf[..], buflen).0
  {
    out := None;
    var packet;
    packet, rc := OpenAtLeast(buf, buflen, CONNECT, 2);
    if packet.Some? {
      var (curdata, enddata) := packet.value;
      var flags, version, duration;
      flags, curdata := ReadChar(buf, curdata);
      version, curdata := ReadChar(buf, curdata);
      if version != 1 {
        return;
      }
      duration, curdata := ReadInt(buf, curdata);
      out := Some(Connect(CleanOf(flags), WillOf(flags), duration, Span(curdata, enddata - curdata)));
      rc := 1;
    }
  }

  method DeserializeDisconnect(buf: array<byte>, buflen: int) returns (rc: int, out: Option<Option<word>>)
    requires EnoughReadable(buf[..], buflen, 1)
    requires
      var e := Enough(DISCONNECT, buf[..], buflen, 1);
      e.Some? && e.value.1 - e.value.0 == 2 ==> e.value.0 + 2 <= buf.Length
    ensures
      match Enough(DISCONNECT, buf[..], buflen, 1)
      case None => out == None
      case Some((cur, end)) => out == DisconnectAt(buf[..], cur, end)
    ensures rc == if out.Some? then 1 else Decode(buf[..], buflen).0
  {
    out := None;
    var packet;
    packet, rc := OpenAtLeast(buf, buflen, DISCONNECT, 1);
    if packet.Some? {
      var (curdata, enddata) := packet.value;
      if enddata - curdata == 2 {
        var duration;
        duration, curdata := ReadInt(buf, curdata);
        out := Some(Some(duration));
      } else if enddata != curdata {
        return;
      } else {
        out := Some(None);
      }
      rc := 1;
    }
  }
}
