/** The 54-byte record that the firmware assembles, queues, stores and publishes. */
module Packets {
  import opened Bytes

  const FUEL_FIELD: Byte := 64
  const TEMP_FIELD: Byte := 128
  const SPEED_FIELD: Byte := 32
  const LONG_FIELD: Byte := 16
  const LAT_FIELD: Byte := 8
  const TIME_FIELD: Byte := 4
  const VIN_FIELD: Byte := 2
  const MISC_FIELD: Byte := 1

  // Bit positions of the flags above.
  const TEMP_BIT := 7
  const FUEL_BIT := 6
  const SPEED_BIT := 5
  const LONG_BIT := 4
  const LAT_BIT := 3
  const TIME_BIT := 2
  const VIN_BIT := 1
  const MISC_BIT := 0

  datatype RawPacket = Packet(
    temp: Byte, fuel: Byte, speed: Byte,
    lon: seq<Byte>, lat: seq<Byte>, time: seq<Byte>, vin: seq<Byte>,
    fields: Byte)

  predicate WellSized(p: RawPacket) {
    |p.lon| == 11 && |p.lat| == 10 && |p.time| == 12 && |p.vin| == 17
  }

  type Packet = p: RawPacket | WellSized(p)
    witness RawPacket.Packet(0, 0, 0, seq(11, _ => 0), seq(10, _ => 0), seq(12, _ => 0), seq(17, _ => 0), 0)

  const RECORD_SIZE := 54

  /** The memory image of the struct, field after field; every member is a byte, so there is no padding. */
  function ToBytes(p: Packet): (b: seq<Byte>)
    ensures |b| == RECORD_SIZE && b[RECORD_SIZE - 1] == p.fields
  {
    [p.temp, p.fuel, p.speed] + p.lon + p.lat + p.time + p.vin + [p.fields]
  }

  function FromBytes(b: seq<Byte>): Packet
    requires |b| == RECORD_SIZE
  {
    Packet(b[0], b[1], b[2], b[3..14], b[14..24], b[24..36], b[36..53], b[53])
  }

  /** The image gives the packet back, and has each member at its place in the struct. */
  lemma BytesRoundTrip(p: Packet)
    ensures FromBytes(ToBytes(p)) == p
    ensures var b := ToBytes(p);
            && b[0] == p.temp && b[1] == p.fuel && b[2] == p.speed && b[3..14] == p.lon && b[14..24] == p.lat
            && b[24..36] == p.time && b[36..53] == p.vin && b[53] == p.fields
  {
    var b := ToBytes(p);
    assert b[3..14] == p.lon;
    assert b[14..24] == p.lat;
    assert b[24..36] == p.time;
    assert b[36..53] == p.vin;
  }

  predicate HasMisc(p: Packet) { Bit(p.fields, MISC_BIT) }

  /** What one GPS sentence contributes to the packet: a position, a time, both or neither. */
  datatype Fix = Fix(position: Option<(seq<Byte>, seq<Byte>)>, time: Option<seq<Byte>>)

  predicate ValidFix(f: Fix) {
    && (f.position.Some? ==> |f.position.value.0| == 10 && |f.position.value.1| == 11)
    && (f.time.Some? ==> |f.time.value| == 12)
  }

  function WithPosition(p: Packet, lat: seq<Byte>, lon: seq<Byte>): Packet
    requires |lat| == 10 && |lon| == 11
  {
    p.(lat := lat, lon := lon, fields := Or(Or(p.fields, LAT_FIELD), LONG_FIELD))
  }

  function WithTime(p: Packet, time: seq<Byte>): Packet
    requires |time| == 12
  {
    p.(time := time, fields := Or(p.fields, TIME_FIELD))
  }

  function WithFix(p: Packet, f: Fix): Packet
    requires ValidFix(f)
  {
    var q := if f.position.Some? then WithPosition(p, f.position.value.0, f.position.value.1) else p;
    if f.time.Some? then WithTime(q, f.time.value) else q
  }

  /** A fix stores what it carries and nothing else. */
  lemma FixReadings(p: Packet, f: Fix)
    requires ValidFix(f)
    ensures var q := WithFix(p, f);
            && (q.lat, q.lon) == (if f.position.Some? then f.position.value else (p.lat, p.lon))
            && q.time == (if f.time.Some? then f.time.value else p.time)
            && (q.temp, q.fuel, q.speed, q.vin) == (p.temp, p.fuel, p.speed, p.vin)
  {
  }

  /** Which flag bit each of the three GPS constants is. */
  lemma GpsFlagBits(k: nat)
    ensures Bit(LAT_FIELD, k) == (k == LAT_BIT)
    ensures Bit(LONG_FIELD, k) == (k == LONG_BIT)
    ensures Bit(TIME_FIELD, k) == (k == TIME_BIT)
  {
    assert Pow2(2) == TIME_FIELD && Pow2(3) == LAT_FIELD && Pow2(4) == LONG_FIELD;
    FlagBit(LAT_BIT, k);
    FlagBit(LONG_BIT, k);
    FlagBit(TIME_BIT, k);
  }

  lemma ReadingFlagBits(k: nat)
    ensures Bit(TEMP_FIELD, k) == (k == TEMP_BIT)
    ensures Bit(FUEL_FIELD, k) == (k == FUEL_BIT)
    ensures Bit(SPEED_FIELD, k) == (k == SPEED_BIT)
    ensures Bit(VIN_FIELD, k) == (k == VIN_BIT)
  {
    assert Pow2(1) == VIN_FIELD && Pow2(4) == 16;
    assert Pow2(5) == SPEED_FIELD && Pow2(6) == FUEL_FIELD && Pow2(7) == TEMP_FIELD;
    FlagBit(TEMP_BIT, k);
    FlagBit(FUEL_BIT, k);
    FlagBit(SPEED_BIT, k);
    FlagBit(VIN_BIT, k);
  }

  /** A fix sets LAT and LONG exactly when it carries a position, TIME exactly when it carries
      a time, and leaves every other flag as it was; in particular MISC. */
  lemma FixFlags(p: Packet, f: Fix, k: nat)
    requires ValidFix(f) && k < 8
    ensures Bit(WithFix(p, f).fields, k) ==
            (|| Bit(p.fields, k)
             || (f.position.Some? && (k == LAT_BIT || k == LONG_BIT))
             || (f.time.Some? && k == TIME_BIT))
  {
    GpsFlagBits(k);
    var q := if f.position.Some? then WithPosition(p, f.position.value.0, f.position.value.1) else p;
    OrBit(p.fields, LAT_FIELD, k);
    OrBit(Or(p.fields, LAT_FIELD), LONG_FIELD, k);
    OrBit(q.fields, TIME_FIELD, k);
  }
}
