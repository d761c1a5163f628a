/** Each packet through a buffer of at most 255 bytes: a serializer reports that it is too short, or the
    deserializer that is told the reported length gives back what was put in. */
module PacketRoundTrips {
  import opened Common
  import opened PacketFormat
  import opened PacketCodec
  import opened PacketOctets

  lemma {:induction false} ShortBuffer(body: seq<byte>, buflen: int, size: nat)
    requires buflen <= 255 && buflen <= size
    ensures Affordable(body, buflen, size)
  {
  }

  lemma {:induction false} ReportIsRight(body: seq<byte>, buflen: int, before: seq<byte>, after: seq<byte>, written: int)
    requires body != [] && buflen <= 255 && Affordable(body, buflen, |before|)
    requires Serialized(body, buflen, before, after, written)
    ensures written != BUFFER_TOO_SHORT ==> Framed(body, after, written)
  {
    if written != BUFFER_TOO_SHORT {
      SerializedIsFramed(body, buflen, before, after, written);
    }
  }

  method PublishThrough(buf: array<byte>, buflen: int, m: Publish<seq<byte>>)
    returns (written: int, rc: int, out: Option<Publish<Span>>)
    requires buflen <= 255 && buflen <= buf.Length
    requires m.topic.LongName? <==> TypeCode(m.topic) == TOPIC_NORMAL && m.qos == 3
    modifies buf
    ensures TakesOctets(7 + NameLength(m.topic) + |m.payload|, buflen, old(buf[..]), buf[..], written)
    ensures written != BUFFER_TOO_SHORT ==> PublishOctets(m, buf[..], written)
    ensures written != BUFFER_TOO_SHORT ==> rc == 1 && out.Some?
    ensures written != BUFFER_TOO_SHORT ==>
              && out.value.dup == (if m.dup % 2 == 1 then 255 else 0) && out.value.qos == m.qos % 4
              && out.value.retained == m.retained % 2 && out.value.packetId == m.packetId
              && (SameTopic(buf[..], out.value.topic, m.topic) && Holds(buf[..], out.value.payload, m.payload)
                  <==> !(m.topic.NormalId? && m.qos % 4 == 3))
  {
    ghost var before := buf[..];
    ShortBuffer(PublishBody(m), buflen, buf.Length);
    rc, out := 0, None;
    written := SerializePublish(buf, buflen, m);
    ReportIsRight(PublishBody(m), buflen, before, buf[..], written);
    PublishOnWire(m, buflen, before, buf[..], written);
    if written != BUFFER_TOO_SHORT {
      PublishRoundTrip(m, buf[..], written);
      rc, out := DeserializePublish(buf, written);
    }
  }

  method AckThrough(buf: array<byte>, buflen: int, kind: byte, m: Ack)
    returns (written: int, rc: int, out: Option<Ack>)
    requires buflen <= 255 && buflen <= buf.Length && (kind == PUBACK || kind == REGACK)
    modifies buf
    ensures TakesOctets(7, buflen, old(buf[..]), buf[..], written)
    ensures written != BUFFER_TOO_SHORT ==> AckOctets(if kind == PUBACK then 0x0d else 0x0b, m, buf[..], written)
    ensures written != BUFFER_TOO_SHORT ==> rc == 1 && out == Some(m)
  {
    ghost var before := buf[..];
    ShortBuffer(AckBody(kind, m), buflen, buf.Length);
    rc, out := 0, None;
    if kind == PUBACK {
      written := SerializePuback(buf, buflen, m);
    } else {
      written := SerializeRegack(buf, buflen, m);
    }
    ReportIsRight(AckBody(kind, m), buflen, before, buf[..], written);
    AckOnWire(kind, m, buflen, before, buf[..], written);
    if written != BUFFER_TOO_SHORT {
      AckRoundTrip(kind, m, buf[..], written);
      rc, out := DeserializeAck(buf, written, kind);
    }
  }

  method RegisterThrough(buf: array<byte>, buflen: int, m: Register<seq<byte>>)
    returns (written: int, rc: int, out: Option<Register<Span>>)
    requires buflen <= 255 && buflen <= buf.Length
    modifies buf
    ensures TakesOctets(6 + |m.topicName|, buflen, old(buf[..]), buf[..], written)
    ensures written != BUFFER_TOO_SHORT ==> RegisterOctets(m, buf[..], written)
    ensures written != BUFFER_TOO_SHORT ==>
              && rc == 1 && out.Some? && out.value.topicId == m.topicId && out.value.packetId == m.packetId
              && Holds(buf[..], out.value.topicName, m.topicName)
  {
    ghost var before := buf[..];
    ShortBuffer(RegisterBody(m), buflen, buf.Length);
    rc, out := 0, None;
    written := SerializeRegister(buf, buflen, m);
    ReportIsRight(RegisterBody(m), buflen, before, buf[..], written);
    RegisterOnWire(m, buflen, before, buf[..], written);
    if written != BUFFER_TOO_SHORT {
      RegisterRoundTrip(m, buf[..], written);
      rc, out := DeserializeRegister(buf, written);
    }
  }

  method SubscribeThrough(buf: array<byte>, buflen: int, m: Subscribe<seq<byte>>)
    returns (written: int, rc: int, out: Option<Subscribe<Span>>)
    requires buflen <= 255 && buflen <= buf.Length && !m.topicFilter.NormalId?
    modifies buf
    ensures TakesOctets(5 + FilterLength(m.topicFilter), buflen, old(buf[..]), buf[..], written)
    ensures written != BUFFER_TOO_SHORT ==> SubscribeOctets(m, buf[..], written)
    ensures written != BUFFER_TOO_SHORT ==>
              && rc == 1 && out.Some? && out.value.dup == (if m.dup % 2 == 1 then 255 else 0)
              && out.value.qos == m.qos % 4 && out.value.packetId == m.packetId
              && SameTopic(buf[..], out.value.topicFilter, m.topicFilter)
  {
    ghost var before := buf[..];
    ShortBuffer(SubscribeBody(m), buflen, buf.Length);
    rc, out := 0, None;
    written := SerializeSubscribe(buf, buflen, m);
    ReportIsRight(SubscribeBody(m), buflen, before, buf[..], written);
    SubscribeOnWire(m, buflen, before, buf[..], written);
    if written != BUFFER_TOO_SHORT {
      SubscribeRoundTrip(m, buf[..], written);
      rc, out := DeserializeSubscribe(buf, written);
    }
  }

  method SubackThrough(buf: array<byte>, buflen: int, m: Suback)
    returns (written: int, rc: int, out: Option<Suback>)
    requires buflen <= 255 && buflen <= buf.Length
    modifies buf
    ensures TakesOctets(8, buflen, old(buf[..]), buf[..], written)
    ensures written != BUFFER_TOO_SHORT ==> SubackOctets(m, buf[..], written)
    ensures written != BUFFER_TOO_SHORT ==> rc == 1 && out == Some(m.(qos := m.qos % 4))
  {
    ghost var before := buf[..];
    ShortBuffer(SubackBody(m), buflen, buf.Length);
    rc, out := 0, None;
    written := SerializeSuback(buf, buflen, m);
    ReportIsRight(SubackBody(m), buflen, before, buf[..], written);
    SubackOnWire(m, buflen, before, buf[..], written);
    if written != BUFFER_TOO_SHORT {
      SubackRoundTrip(m, buf[..], written);
      rc, out := DeserializeSuback(buf, written);
    }
  }

  method UnsubscribeThrough(buf: array<byte>, buflen: int, m: Unsubscribe<seq<byte>>)
    returns (written: int, rc: int, out: Option<Unsubscribe<Span>>)
    requires buflen <= 255 && buflen <= buf.Length && !m.topicFilter.NormalId?
    modifies buf
    ensures TakesOctets(5 + FilterLength(m.topicFilter), buflen, old(buf[..]), buf[..], written)
    ensures written != BUFFER_TOO_SHORT ==> UnsubscribeOctets(m, buf[..], written)
    ensures written != BUFFER_TOO_SHORT ==>
              && rc == 1 && out.Some? && out.value.packetId == m.packetId
              && SameTopic(buf[..], out.value.topicFilter, m.topicFilter)
  {
    ghost var before := buf[..];
    ShortBuffer(UnsubscribeBody(m), buflen, buf.Length);
    rc, out := 0, None;
    written := SerializeUnsubscribe(buf, buflen, m);
    ReportIsRight(UnsubscribeBody(m), buflen, before, buf[..], written);
    UnsubscribeOnWire(m, buflen, before, buf[..], written);
    if written != BUFFER_TOO_SHORT {
      UnsubscribeRoundTrip(m, buf[..], written);
      rc, out := DeserializeUnsubscribe(buf, written);
    }
  }

  method ConnectThrough(buf: array<byte>, buflen: int, m: Connect<seq<byte>>)
    returns (written: int, rc: int, out: Option<Connect<Span>>)
    requires buflen <= 255 && buflen <= buf.Length
    modifies buf
    ensures TakesOctets(6 + |m.clientId|, buflen, old(buf[..]), buf[..], written)
    ensures written != BUFFER_TOO_SHORT ==> ConnectOctets(m, buf[..], written)
    ensures written != BUFFER_TOO_SHORT ==>
              && rc == 1 && out.Some? && out.value.cleanSession == m.cleanSession % 2
              && out.value.willFlag == m.willFlag % 2 && out.value.duration == m.duration
              && Holds(buf[..], out.value.clientId, m.clientId)
  {
    ghost var before := buf[..];
    ShortBuffer(ConnectBody(m), buflen, buf.Length);
    rc, out := 0, None;
    written := SerializeConnect(buf, buflen, m);
    ReportIsRight(ConnectBody(m), buflen, before, buf[..], written);
    ConnectOnWire(m, buflen, before, buf[..], written);
    if written != BUFFER_TOO_SHORT {
      ConnectRoundTrip(m, buf[..], written);
      rc, out := DeserializeConnect(buf, written);
    }
  }

  method DisconnectThrough(buf: array<byte>, buflen: int, duration: int)
    returns (written: int, rc: int, out: Option<Option<word>>)
    requires buflen <= 255 && buflen <= buf.Length
    modifies buf
    ensures TakesOctets(if duration >= 0 then 4 else 2, buflen, old(buf[..]), buf[..], written)
    ensures written != BUFFER_TOO_SHORT ==> DisconnectOctets(duration, buf[..], written)
    ensures written != BUFFER_TOO_SHORT ==>
              rc == 1 && out == Some(if duration >= 0 then Some(duration % 65536) else None)
  {
    ghost var before := buf[..];
    ShortBuffer(DisconnectBody(duration), buflen, buf.Length);
    rc, out := 0, None;
    written := SerializeDisconnect(buf, buflen, duration);
    ReportIsRight(DisconnectBody(duration), buflen, before, buf[..], written);
    DisconnectOnWire(duration, buflen, before, buf[..], written);
    if written != BUFFER_TOO_SHORT {
      DisconnectRoundTrip(duration, buf[..], written);
      rc, out := DeserializeDisconnect(buf, written);
    }
  }
}
