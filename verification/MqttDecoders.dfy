/** The decoders, their loops as written, and the PUBLISH round trip. */
module MqttDecoders {
  import opened Bytes
  import opened MqttPackets

  function Kind(first: Byte): nat { first / 16 }

  function Qos(first: Byte): nat { first / 2 % 4 }

  function Retain(first: Byte): nat { first % 2 }

  /** Where the length bytes end: past the first byte below 128, or at the end of the data. */
  function ScanEnd(d: seq<Byte>, length: nat, i: nat): nat
    requires length <= |d|
    decreases length - i
  {
    if i >= length then i else if d[i] < 128 then i + 1 else ScanEnd(d, length, i + 1)
  }

  function ScanSum(d: seq<Byte>, length: nat, i: nat, weight: nat): nat
    requires length <= |d|
    decreases length - i
  {
    if i >= length then 0
    else d[i] % 128 * weight + if d[i] < 128 then 0 else ScanSum(d, length, i + 1, weight * 128)
  }

  function TotalLength(d: seq<Byte>, length: nat): nat
    requires length <= |d|
  {
    ScanSum(d, length, 1, 1) + ScanEnd(d, length, 1)
  }

  /** Offset and length of the topic. */
  function PublishTopic(d: seq<Byte>, length: nat): Option<(nat, nat)>
    requires length <= |d|
  {
    var i := ScanEnd(d, length, 1);
    if i + 2 >= length then None
    else
      var topicLength := U16(d[i], d[i + 1]);
      if i + 2 + topicLength > length then None else Some((i + 2, topicLength))
  }

  /** Offset and length of the payload bytes present; a missing pointer comes with length 0. */
  function PublishData(d: seq<Byte>, length: nat): (Option<nat>, nat)
    requires length <= |d|
  {
    var i := ScanEnd(d, length, 1);
    if i + 2 >= length then (None, 0)
    else
      var afterTopic := i + 2 + U16(d[i], d[i + 1]);
      if afterTopic >= length || (Qos(d[0]) > 0 && afterTopic + 2 >= length) then (None, 0)
      else
        var at := if Qos(d[0]) > 0 then afterTopic + 2 else afterTopic;
        var total := TotalLength(d, length);
        if total < at then (None, 0)
        else (Some(at), if total <= length then total - at else length - at)
  }

  function GetId(d: seq<Byte>, length: nat): nat
    requires length <= |d|
  {
    if length < 1 then 0
    else if Kind(d[0]) == PUBLISH then
      var i := ScanEnd(d, length, 1);
      if i + 2 >= length then 0
      else
        var afterTopic := i + 2 + U16(d[i], d[i + 1]);
        if afterTopic >= length || Qos(d[0]) == 0 || afterTopic + 2 >= length then 0
        else U16(d[afterTopic], d[afterTopic + 1])
    else if Kind(d[0]) in {PUBACK, PUBREC, PUBREL, PUBCOMP, SUBACK, UNSUBACK, SUBSCRIBE} then
      if length >= 4 && d[1] < 128 then U16(d[2], d[3]) else 0
    else 0
  }

  // ---- the code ----

  lemma ScanStep(d: seq<Byte>, length: nat, i: nat, weight: nat)
    requires i < length <= |d|
    ensures var part: nat := d[i] % 128 * weight;
            if d[i] < 128 then ScanEnd(d, length, i) == i + 1 && ScanSum(d, length, i, weight) == part
            else
              && ScanEnd(d, length, i) == ScanEnd(d, length, i + 1)
              && ScanSum(d, length, i, weight) == part + ScanSum(d, length, i + 1, weight * 128)
  {
  }

  /** The loop that three of the decoders open with. */
  method ScanLength(d: seq<Byte>, length: nat) returns (i: nat, total: nat)
    requires length <= |d|
    ensures i == ScanEnd(d, length, 1) && total == ScanSum(d, length, 1, 1) + i
  {
    i, total := 1, 0;
    var weight: nat := 1;
    while i < length
      invariant ScanEnd(d, length, i) == ScanEnd(d, length, 1)
      invariant total + ScanSum(d, length, i, weight) == ScanSum(d, length, 1, 1)
    {
      ScanStep(d, length, i, weight);
      var part: nat := d[i] % 128 * weight;
      total := total + part;
      if d[i] < 128 {
        return i + 1, total + i + 1;
      }
      weight := weight * 128;
      i := i + 1;
    }
    total := total + i;
  }

  method ReadTotalLength(d: seq<Byte>, length: nat) returns (total: nat)
    requires length <= |d|
    ensures total == TotalLength(d, length)
  {
    var i;
    i, total := ScanLength(d, length);
  }

  method ReadPublishTopic(d: seq<Byte>, length: nat) returns (topic: Option<(nat, nat)>)
    requires length <= |d|
    ensures topic == PublishTopic(d, length)
  {
    var i, _ := ScanLength(d, length);
    if i + 2 >= length {
      return None;
    }
    var topicLength := U16(d[i], d[i + 1]);
    i := i + 2;
    if i + topicLength > length {
      return None;
    }
    return Some((i, topicLength));
  }

  method ReadPublishData(d: seq<Byte>, length: nat) returns (start: Option<nat>, size: nat)
    requires length <= |d|
    ensures (start, size) == PublishData(d, length)
  {
    var i, total := ScanLength(d, length);
    if i + 2 >= length {
      return None, 0;
    }
    var topicLength := U16(d[i], d[i + 1]);
    i := i + 2;
    if i + topicLength >= length {
      return None, 0;
    }
    i := i + topicLength;
    if Qos(d[0]) > 0 {
      if i + 2 >= length {
        return None, 0;
      }
      i := i + 2;
    }
    if total < i {
      return None, 0;
    }
    if total <= length {
      return Some(i), total - i;
    }
    return Some(i), length - i;
  }

  method ReadId(d: seq<Byte>, length: nat) returns (id: nat)
    requires length <= |d|
    ensures id == GetId(d, length)
  {
    if length < 1 {
      return 0;
    }
    if Kind(d[0]) == PUBLISH {
      var i := 1;
      while i < length
        invariant ScanEnd(d, length, i) == ScanEnd(d, length, 1)
      {
        if d[i] < 128 {
          i := i + 1;
          break;
        }
        i := i + 1;
      }
      assert i == ScanEnd(d, length, 1);
      if i + 2 >= length {
        return 0;
      }
      var topicLength := U16(d[i], d[i + 1]);
      i := i + 2;
      if i + topicLength >= length {
        return 0;
      }
      i := i + topicLength;
      if Qos(d[0]) > 0 {
        if i + 2 >= length {
          return 0;
        }
      } else {
        return 0;
      }
      return U16(d[i], d[i + 1]);
    }
    if Kind(d[0]) in {PUBACK, PUBREC, PUBREL, PUBCOMP, SUBACK, UNSUBACK, SUBSCRIBE} {
      if length >= 4 && d[1] < 128 {
        return U16(d[2], d[3]);
      }
      return 0;
    }
    return 0;
  }

  // ---- round trip ----

  /** The first `length` bytes of d hold the packet, or as much of it as has arrived; what follows the
      packet is arbitrary. */
  ghost predicate Carries(d: seq<Byte>, length: nat, p: seq<Byte>) {
    length <= |d| && forall i :: 0 <= i < Min(length, |p|) ==> d[i] == p[i]
  }

  /** A PUBLISH as the builder sends it, within the two-byte length limit. */
  datatype Publish = Publish(topic: seq<Byte>, qos: nat, id: nat, retain: nat, payload: seq<Byte>) {
    function Body(): seq<Byte> { PublishBody(topic, qos, id, payload) }

    function Bytes(): seq<Byte> { PublishPacket(topic, qos, id, retain, payload) }

    function HeaderSize(): nat { PublishHeaderSize(topic, qos, payload) }

    function FixedSize(): nat { if |Body()| > 127 then 3 else 2 }

    predicate Valid() {
      topic != [] && qos <= 2 && id < 65536 && retain <= 1 && |Body()| <= MAX_REMAINING
    }
  }

  lemma TopicParts(topic: seq<Byte>, rest: seq<Byte>)
    requires |topic| < 65536
    ensures var s, t := Str(topic) + rest, |topic|;
            && U16(s[0], s[1]) == t && s[2..2 + t] == topic && s[2 + t..] == rest
            && (forall i :: 0 <= i < |rest| ==> s[2 + t + i] == rest[i])
  {
    SixteenBits(|topic|);
  }

  lemma IdParts(id: nat, payload: seq<Byte>)
    requires id < 65536
    ensures var s := Be16(id) + payload; U16(s[0], s[1]) == id && s[2..] == payload
  {
    SixteenBits(id);
  }

  lemma DropTwice(s: seq<Byte>, i: nat, j: nat)
    requires i + j <= |s|
    ensures s[i..][j..] == s[i + j..]
  {
  }

  lemma BodyLayout(m: Publish)
    requires m.Valid()
    ensures var b, t, h := m.Body(), |m.topic|, m.HeaderSize() - m.FixedSize();
            && |b| == h + |m.payload| && h >= 2 + t
            && U16(b[0], b[1]) == t && b[2..2 + t] == m.topic
            && (m.qos > 0 ==> h == 4 + t && U16(b[2 + t], b[3 + t]) == m.id)
            && (m.qos == 0 ==> h == 2 + t)
            && b[h..] == m.payload
  {
    var id := if m.qos > 0 then Be16(m.id) else [];
    assert m.Body() == Str(m.topic) + (id + m.payload);
    TopicParts(m.topic, id + m.payload);
    if m.qos > 0 {
      IdParts(m.id, m.payload);
      DropTwice(m.Body(), 2 + |m.topic|, 2);
    }
  }

  /** Where the parts of a PUBLISH stand, for any bytes with its body behind a header of f bytes. */
  lemma LayoutBehindHeader(m: Publish, p: seq<Byte>, f: nat)
    requires m.Valid() && f == m.FixedSize() <= |p| && p[f..] == m.Body()
    ensures var t := |m.topic|;
            && |p| == f + |m.Body()| == m.HeaderSize() + |m.payload|
            && U16(p[f], p[f + 1]) == t
            && p[f + 2..f + 2 + t] == m.topic
            && (m.qos > 0 ==> U16(p[f + 2 + t], p[f + 3 + t]) == m.id)
            && p[m.HeaderSize()..] == m.payload
  {
    BodyLayout(m);
    var b, t := m.Body(), |m.topic|;
    ShiftedSlice(p, f, b, 2, 2 + t);
    ShiftedSlice(p, f, b, m.HeaderSize() - f, |b|);
    ShiftedByte(p, f, b, 0);
    ShiftedByte(p, f, b, 1);
    if m.qos > 0 {
      ShiftedByte(p, f, b, 2 + t);
      ShiftedByte(p, f, b, 3 + t);
    }
  }

  lemma Layout(m: Publish)
    requires m.Valid()
    ensures var p, f, t := m.Bytes(), m.FixedSize(), |m.topic|;
            && |p| == f + |m.Body()| == m.HeaderSize() + |m.payload|
            && p[0] == FirstByte(PUBLISH, m.qos, m.retain)
            && U16(p[f], p[f + 1]) == t
            && p[f + 2..f + 2 + t] == m.topic
            && (m.qos > 0 ==> U16(p[f + 2 + t], p[f + 3 + t]) == m.id)
            && p[m.HeaderSize()..] == m.payload
  {
    BodyLayout(m);
    PacketBytes(PUBLISH, m.qos, m.retain, m.Body());
    LayoutBehindHeader(m, m.Bytes(), m.FixedSize());
  }

  /** The scans over a one-byte and a two-byte length. */
  lemma ScanHeader(d: seq<Byte>, length: nat, n: nat)
    requires length <= |d| && n <= MAX_REMAINING
    requires if n > 127 then length >= 3 && d[1] == 128 + n % 128 && d[2] == n / 128 else length >= 2 && d[1] == n
    ensures ScanEnd(d, length, 1) == if n > 127 then 3 else 2
    ensures ScanSum(d, length, 1, 1) == n
  {
    if n > 127 {
      assert ScanEnd(d, length, 2) == 3 && ScanSum(d, length, 2, 128) == n / 128 * 128;
    }
  }

  lemma ScanReadBackWithin(m: Publish, d: seq<Byte>, present: nat, length: nat)
    requires m.Valid() && Carries(d, present, m.Bytes()) && m.FixedSize() <= present <= length <= |d|
    ensures ScanEnd(d, length, 1) == m.FixedSize()
    ensures TotalLength(d, length) == |m.Bytes()|
  {
    PacketBytes(PUBLISH, m.qos, m.retain, m.Body());
    assert d[1] == m.Bytes()[1] && (|m.Body()| > 127 ==> d[2] == m.Bytes()[2]);
    ScanHeader(d, length, |m.Body()|);
  }

  /** Every scan of the length bytes stops where the fixed header does, with the right total. */
  lemma ScanReadBack(m: Publish, d: seq<Byte>, length: nat)
    requires m.Valid() && Carries(d, length, m.Bytes()) && m.FixedSize() <= length
    ensures ScanEnd(d, length, 1) == m.FixedSize()
    ensures TotalLength(d, length) == |m.Bytes()|
  {
    ScanReadBackWithin(m, d, length, length);
  }

  lemma FirstByteReadBack(kind: nat, qos: nat, retain: nat)
    requires kind < 16 && qos < 4 && retain < 2
    ensures var b := FirstByte(kind, qos, retain); Kind(b) == kind && Qos(b) == qos && Retain(b) == retain
  {
    FirstByteParts(kind, qos, retain);
  }

  lemma SameSlice(d: seq<Byte>, p: seq<Byte>, i: nat, j: nat)
    requires i <= j <= |d| && j <= |p| && forall k :: 0 <= k < j ==> d[k] == p[k]
    ensures d[i..j] == p[i..j]
  {
  }

  lemma TopicReadBack(m: Publish, d: seq<Byte>, length: nat)
    requires m.Valid() && Carries(d, length, m.Bytes()) && m.HeaderSize() <= length
    ensures var f, t := m.FixedSize(), |m.topic|;
            PublishTopic(d, length) == Some((f + 2, t)) && d[f + 2..f + 2 + t] == m.topic
    ensures U16(d[m.FixedSize()], d[m.FixedSize() + 1]) == |m.topic|
  {
    Layout(m);
    ScanReadBack(m, d, length);
    var p, f, t := m.Bytes(), m.FixedSize(), |m.topic|;
    assert d[f] == p[f] && d[f + 1] == p[f + 1];
    SameSlice(d, p, f + 2, f + 2 + t);
  }

  lemma FlagsReadBack(m: Publish, d: seq<Byte>, length: nat)
    requires m.Valid() && Carries(d, length, m.Bytes()) && 1 <= length
    ensures Kind(d[0]) == PUBLISH && Qos(d[0]) == m.qos && Retain(d[0]) == m.retain
  {
    PacketBytes(PUBLISH, m.qos, m.retain, m.Body());
    FirstByteReadBack(PUBLISH, m.qos, m.retain);
  }

  /** What the bound tests leave when the header ends at h, within the given length. */
  lemma DataBehindHeader(d: seq<Byte>, length: nat, f: nat, t: nat, h: nat)
    requires 1 <= length <= |d| && f == ScanEnd(d, length, 1) && f + 2 <= h <= length
    requires t == U16(d[f], d[f + 1]) && h == f + 2 + t + (if Qos(d[0]) > 0 then 2 else 0)
    requires h <= TotalLength(d, length)
    ensures PublishData(d, length)
            == if h == length then (None, 0) else (Some(h), Min(TotalLength(d, length), length) - h)
  {
  }

  lemma PayloadReadBack(m: Publish, d: seq<Byte>, length: nat)
    requires m.Valid() && Carries(d, length, m.Bytes()) && m.HeaderSize() <= length
    ensures var (start, size) := PublishData(d, length);
            && size == Min(length - m.HeaderSize(), |m.payload|)
            && (size > 0 ==> start == Some(m.HeaderSize())
                             && d[m.HeaderSize()..m.HeaderSize() + size] == m.payload[..size])
  {
    Layout(m);
    ScanReadBack(m, d, length);
    TopicReadBack(m, d, length);
    FlagsReadBack(m, d, length);
    DataBehindHeader(d, length, m.FixedSize(), |m.topic|, m.HeaderSize());
    var size := Min(length - m.HeaderSize(), |m.payload|);
    SameSlice(d, m.Bytes(), m.HeaderSize(), m.HeaderSize() + size);
    assert m.Bytes()[m.HeaderSize()..m.HeaderSize() + size] == m.Bytes()[m.HeaderSize()..][..size];
  }

  /** Main result: once the header, topic and id have arrived, the decoders give back the type, QoS,
      retain flag, total length and topic, and as much of the payload as is there. */
  lemma {:induction false} PublishReadBack(m: Publish, d: seq<Byte>, length: nat)
    requires m.Valid() && Carries(d, length, m.Bytes()) && m.HeaderSize() <= length
    ensures var at := PublishTopic(d, length);
            at.Some? && d[at.value.0..at.value.0 + at.value.1] == m.topic
    ensures TotalLength(d, length) == |m.Bytes()|
    ensures Kind(d[0]) == PUBLISH && Qos(d[0]) == m.qos && Retain(d[0]) == m.retain
    ensures var (start, size) := PublishData(d, length);
            && size == Min(length - m.HeaderSize(), |m.payload|)
            && (size > 0 ==> start == Some(m.HeaderSize())
                             && d[m.HeaderSize()..m.HeaderSize() + size] == m.payload[..size])
  {
    ScanReadBack(m, d, length);
    TopicReadBack(m, d, length);
    FlagsReadBack(m, d, length);
    PayloadReadBack(m, d, length);
  }

  lemma PublishIdPosition(m: Publish, d: seq<Byte>, present: nat)
    requires m.Valid() && m.qos > 0 && Carries(d, present, m.Bytes()) && m.HeaderSize() <= present
    ensures var f, t := m.FixedSize(), |m.topic|;
            && Kind(d[0]) == PUBLISH && Qos(d[0]) == m.qos && U16(d[f], d[f + 1]) == t
            && m.HeaderSize() == f + 4 + t && U16(d[f + 2 + t], d[f + 3 + t]) == m.id
  {
    Layout(m);
    FirstByteReadBack(PUBLISH, m.qos, m.retain);
    var p, f, t := m.Bytes(), m.FixedSize(), |m.topic|;
    assert d[0] == p[0] && d[f] == p[f] && d[f + 1] == p[f + 1];
    assert d[f + 2 + t] == p[f + 2 + t] && d[f + 3 + t] == p[f + 3 + t];
  }

  /** The message id of a packet of which `present` bytes are in the buffer comes back exactly for QoS 1 and 2 when
      the length asked about goes past the id, and reads as 0 otherwise: the strict bound test turns an empty
      payload at the end of that length into id 0. The client asks about the whole buffer, however little was
      read. */
  lemma PublishIdReadBack(m: Publish, d: seq<Byte>, present: nat, length: nat)
    requires m.Valid() && Carries(d, present, m.Bytes()) && m.HeaderSize() <= present <= length <= |d|
    ensures GetId(d, length) == if m.qos > 0 && length > m.HeaderSize() then m.id else 0
  {
    ScanReadBackWithin(m, d, present, length);
    FlagsReadBack(m, d, present);
    if m.qos > 0 {
      PublishIdPosition(m, d, present);
    }
  }

  /** Before the header is complete nothing comes back but the topic, as soon as it is there. */
  lemma PartialReadBack(m: Publish, d: seq<Byte>, length: nat)
    requires m.Valid() && Carries(d, length, m.Bytes()) && m.FixedSize() <= length < m.HeaderSize()
    ensures var f, t := m.FixedSize(), |m.topic|;
            PublishTopic(d, length) == if length >= f + 2 + t then Some((f + 2, t)) else None
    ensures PublishData(d, length) == (None, 0) && GetId(d, length) == 0
  {
    Layout(m);
    ScanReadBack(m, d, length);
    FlagsReadBack(m, d, length);
    var p, f := m.Bytes(), m.FixedSize();
    if f + 2 < length {
      assert d[f] == p[f] && d[f + 1] == p[f + 1];
    }
  }

  /** The topic is found exactly when its length and all of it lie within the given length, with something behind
      the length bytes. */
  lemma TopicFoundIff(d: seq<Byte>, length: nat)
    requires length <= |d|
    ensures var f := ScanEnd(d, length, 1);
            PublishTopic(d, length).Some? <==> f + 2 < length && f + 2 + U16(d[f], d[f + 1]) <= length
  {
  }

  /** Other packets have no id to read. */
  lemma NoIdOtherwise(d: seq<Byte>, length: nat)
    requires length <= |d|
    requires length > 0 ==>
               Kind(d[0]) !in {PUBLISH, PUBACK, PUBREC, PUBREL, PUBCOMP, SUBACK, UNSUBACK, SUBSCRIBE}
    ensures GetId(d, length) == 0
  {
  }

  lemma AcknowledgementLayout(kind: nat, qos: nat, id: nat, rest: seq<Byte>)
    requires id < 65536
    ensures var p := Packet(kind, qos, 0, Be16(id) + rest);
            && |p| >= 4 && p[0] == FirstByte(kind, qos, 0)
            && (p[1] < 128 <==> 2 + |rest| <= 127)
            && (2 + |rest| <= 127 ==> U16(p[2], p[3]) == id)
  {
    var body := Be16(id) + rest;
    var p := Packet(kind, qos, 0, body);
    if |body| <= 127 {
      assert p[2] == body[0] && p[3] == body[1];
    }
  }

  /** Acknowledgements, and subscriptions short enough for one length byte, give their id back. */
  lemma AcknowledgementIdReadBack(kind: nat, qos: nat, id: nat, rest: seq<Byte>, d: seq<Byte>, length: nat)
    requires kind in {PUBACK, PUBREC, PUBREL, PUBCOMP, SUBACK, UNSUBACK, SUBSCRIBE} && qos < 2
    requires id < 65536 && 2 + |rest| <= MAX_REMAINING
    requires var p := Packet(kind, qos, 0, Be16(id) + rest); Carries(d, length, p) && |p| <= length
    ensures GetId(d, length) == if 2 + |rest| <= 127 then id else 0
  {
    var p := Packet(kind, qos, 0, Be16(id) + rest);
    AcknowledgementLayout(kind, qos, id, rest);
    FirstByteReadBack(kind, qos, 0);
    assert d[0] == p[0] && d[1] == p[1] && d[2] == p[2] && d[3] == p[3];
  }
}
