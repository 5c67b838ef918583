/** The MQTT packets that the builders produce, byte for byte, and their fixed header. */
module MqttPackets {
  import opened Bytes

  const CONNECT := 1
  const PUBLISH := 3
  const PUBACK := 4
  const PUBREC := 5
  const PUBREL := 6
  const PUBCOMP := 7
  const SUBSCRIBE := 8
  const SUBACK := 9
  const UNSUBSCRIBE := 10
  const UNSUBACK := 11
  const PINGREQ := 12
  const PINGRESP := 13
  const DISCONNECT := 14

  /** The longest remaining length that two length bytes can carry. */
  const MAX_REMAINING := 16383

  /** A 16-bit number, most significant byte first; the casts to uint8_t keep the low bits. */
  function Be16(n: nat): (b: seq<Byte>)
    ensures |b| == 2
  {
    [n / 256 % 256, n % 256]
  }

  function U16(msb: Byte, lsb: Byte): nat { (msb as int) * 256 + lsb as int }

  function Str(s: seq<Byte>): seq<Byte> { Be16(|s|) + s }

  function FirstByte(kind: nat, qos: nat, retain: nat): Byte {
    kind % 16 * 16 + qos % 4 * 2 + retain % 2
  }

  /** One length byte up to 127; otherwise two, the second truncated to a byte. */
  function FixedHeader(kind: nat, qos: nat, retain: nat, remaining: nat): (h: seq<Byte>)
    ensures |h| == if remaining > 127 then 3 else 2
  {
    if remaining > 127 then [FirstByte(kind, qos, retain), 128 + remaining % 128, remaining / 128 % 256]
    else [FirstByte(kind, qos, retain), remaining]
  }

  function Packet(kind: nat, qos: nat, retain: nat, body: seq<Byte>): seq<Byte> {
    FixedHeader(kind, qos, retain, |body|) + body
  }

  function PublishBody(topic: seq<Byte>, qos: nat, id: nat, payload: seq<Byte>): seq<Byte> {
    Str(topic) + (if qos > 0 then Be16(id) else []) + payload
  }

  function PublishPacket(topic: seq<Byte>, qos: nat, id: nat, retain: nat, payload: seq<Byte>): seq<Byte> {
    Packet(PUBLISH, qos, retain, PublishBody(topic, qos, id, payload))
  }

  /** How much of a PUBLISH precedes its payload. */
  function PublishHeaderSize(topic: seq<Byte>, qos: nat, payload: seq<Byte>): nat {
    var rest := 2 + |topic| + if qos > 0 then 2 else 0;
    (if rest + |payload| > 127 then 3 else 2) + rest
  }

  // ---- remaining length, as section 2.2.3 of MQTT 3.1.1 defines it ----

  function ReadRemainingFrom(p: seq<Byte>, i: nat, weight: nat): Option<(nat, nat)>
    decreases 5 - i
  {
    if i >= |p| || i > 4 then None
    else if p[i] < 128 then Some((p[i] * weight, i + 1))
    else
      match ReadRemainingFrom(p, i + 1, weight * 128)
      case None => None
      case Some((value, size)) => Some((p[i] % 128 * weight + value, size))
  }

  /** Reads up to four length bytes from the second byte on; answers the value and the header size. */
  function ReadRemaining(p: seq<Byte>): Option<(nat, nat)> { ReadRemainingFrom(p, 1, 1) }

  lemma HeaderSizeGrows(p: seq<Byte>, i: nat, weight: nat)
    ensures var r := ReadRemainingFrom(p, i, weight); r.Some? ==> r.value.1 > i
    decreases 5 - i
  {
  }

  /** The fixed header is right exactly up to the two-byte limit: a longer packet announces a
      length that is not its own. */
  lemma RemainingLengthIsRight(kind: nat, qos: nat, retain: nat, body: seq<Byte>)
    requires |body| <= 65532
    ensures var p := Packet(kind, qos, retain, body);
            ReadRemaining(p) == Some((|body|, |p| - |body|)) <==> |body| <= MAX_REMAINING
  {
    var n, p := |body|, Packet(kind, qos, retain, body);
    if n > 127 {
      var tail := ReadRemainingFrom(p, 2, 128);
      assert ReadRemaining(p) == match tail { case None => None case Some((v, s)) => Some((n % 128 + v, s)) };
      if n > MAX_REMAINING {
        if p[2] < 128 {
          assert tail == Some((n / 128 % 256 * 128, 3));
        } else if tail.Some? {
          HeaderSizeGrows(p, 3, 128 * 128);
        }
      }
    }
  }

  /** The bytes of a packet within the two-byte limit, one by one. */
  lemma PacketBytes(kind: nat, qos: nat, retain: nat, body: seq<Byte>)
    requires |body| <= MAX_REMAINING
    ensures var p, n := Packet(kind, qos, retain, body), |body|;
            && |p| == (if n > 127 then 3 else 2) + n
            && p[0] == FirstByte(kind, qos, retain)
            && (if n > 127 then p[1] == 128 + n % 128 && p[2] == n / 128 else p[1] == n)
            && p[|p| - n..] == body
            && forall k :: 0 <= k < n ==> p[|p| - n + k] == body[k]
  {
  }

  lemma ShiftedByte(p: seq<Byte>, f: nat, body: seq<Byte>, i: nat)
    requires f <= |p| && p[f..] == body && i < |body|
    ensures p[f + i] == body[i]
  {
  }

  /** A slice of a packet's body, found behind its header. */
  lemma ShiftedSlice(p: seq<Byte>, f: nat, body: seq<Byte>, i: nat, j: nat)
    requires f <= |p| && p[f..] == body && i <= j <= |body|
    ensures p[f + i..f + j] == body[i..j]
  {
    assert forall k :: 0 <= k < |body| ==> p[f + k] == p[f..][k];
  }

  lemma SixteenBits(n: nat)
    ensures U16(n / 256 % 256, n % 256) == n % 65536
  {
  }

  lemma FirstByteParts(kind: nat, qos: nat, retain: nat)
    ensures var b := FirstByte(kind, qos, retain);
            && b / 16 == kind % 16 && b / 2 % 4 == qos % 4 && b % 2 == retain % 2
            && b % 16 == 2 * (qos % 4) + retain % 2
  {
    var b, low := FirstByte(kind, qos, retain), 2 * (qos % 4) + retain % 2;
    assert b == 16 * (kind % 16) + low && low < 8;
    assert b / 2 == 4 * (2 * (kind % 16)) + qos % 4;
  }
}
