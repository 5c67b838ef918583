/** The GPS sentence parser, against sentences of the RMC form of NMEA 0183. */
module RmcParser {
  import opened Bytes
  import opened Packets

  const COMMA: Byte := 44
  const DOT: Byte := 46
  const EIGHT: Byte := 56

  /** The position part of a sentence: fixed-width when present; when the latitude is blank the other
      three fields may hold anything without a comma. */
  datatype Position =
    | Located(latDegMin: seq<Byte>, latFrac: seq<Byte>, northSouth: Byte,
              lonDegMin: seq<Byte>, lonFrac: seq<Byte>, eastWest: Byte)
    | Unlocated(northSouthField: seq<Byte>, lonField: seq<Byte>, eastWestField: seq<Byte>)

  /** A sentence: the talker field, the time with any fraction, the status, the position, speed and
      course of any width, the date, and whatever follows. A receiver without time prints no time. */
  datatype Rmc =
    | NoTime(talker: seq<Byte>, tail: seq<Byte>)
    | Timed(talker: seq<Byte>, clock: seq<Byte>, fraction: seq<Byte>, status: seq<Byte>,
            position: Position, speed: seq<Byte>, course: seq<Byte>, date: seq<Byte>, tail: seq<Byte>)

  predicate Field(s: seq<Byte>) { COMMA !in s }

  predicate ValidPosition(p: Position) {
    match p
    case Located(latDegMin, latFrac, ns, lonDegMin, lonFrac, ew) =>
      && |latDegMin| == 4 && |latFrac| == 4 && |lonDegMin| == 5 && |lonFrac| == 4
      && latDegMin[0] != COMMA
    case Unlocated(ns, lon, ew) => Field(ns) && Field(lon) && Field(ew)
  }

  predicate ValidRmc(r: Rmc) {
    && Field(r.talker)
    && (r.Timed? ==>
          && |r.clock| == 6 && Field(r.clock) && Field(r.fraction) && Field(r.status)
          && ValidPosition(r.position) && Field(r.speed) && Field(r.course) && |r.date| == 6)
  }

  /** Fields, each ended by a comma. */
  function Join(fields: seq<seq<Byte>>): seq<Byte> {
    if fields == [] then [] else fields[0] + [COMMA] + Join(fields[1..])
  }

  function PrintPosition(p: Position): seq<Byte>
    requires ValidPosition(p)
  {
    match p
    case Located(latDegMin, latFrac, ns, lonDegMin, lonFrac, ew) =>
      latDegMin + [DOT] + latFrac + [COMMA, ns, COMMA] + lonDegMin + [DOT] + lonFrac + [COMMA, ew, COMMA]
    case Unlocated(ns, lon, ew) =>
      Join([[], ns, lon, ew])
  }

  function AfterTalker(r: Rmc): seq<Byte>
    requires ValidRmc(r)
  {
    if r.NoTime? then [COMMA] + r.tail
    else
      (r.clock + r.fraction) + [COMMA]
      + (r.status + [COMMA] + (PrintPosition(r.position) + Join([r.speed, r.course]) + (r.date + r.tail)))
  }

  function Print(r: Rmc): seq<Byte>
    requires ValidRmc(r)
  {
    r.talker + [COMMA] + AfterTalker(r)
  }

  /** What the sentence says: degrees, minutes, fraction and hemisphere as printed, and time then date.
      A year whose tens digit is 8 is the receiver's power-up date and counts as no time. */
  function Meaning(r: Rmc): (f: Fix)
    requires ValidRmc(r)
    ensures ValidFix(f)
  {
    if r.NoTime? then Fix(None, None)
    else
      Fix(
        if r.position.Located? then
          Some((r.position.latDegMin + r.position.latFrac + [COMMA, r.position.northSouth],
                r.position.lonDegMin + r.position.lonFrac + [COMMA, r.position.eastWest]))
        else None,
        if r.date[4] == EIGHT then None else Some(r.clock + r.date))
  }

  /** The sentence prints a position, and a time that counts. */
  predicate HasPosition(r: Rmc) { r.Timed? && r.position.Located? }

  predicate HasTime(r: Rmc)
    requires ValidRmc(r)
  {
    r.Timed? && r.date[4] != EIGHT
  }

  lemma MeaningStored(packet: Packet, r: Rmc)
    requires ValidRmc(r)
    ensures var q := WithFix(packet, Meaning(r));
            && (if HasPosition(r) then
                  && q.lat == r.position.latDegMin + r.position.latFrac + [COMMA, r.position.northSouth]
                  && q.lon == r.position.lonDegMin + r.position.lonFrac + [COMMA, r.position.eastWest]
                else q.lat == packet.lat && q.lon == packet.lon)
            && q.time == (if HasTime(r) then r.clock + r.date else packet.time)
            && q.temp == packet.temp && q.fuel == packet.fuel && q.speed == packet.speed && q.vin == packet.vin
    ensures forall k | 0 <= k < 8 ::
              Bit(WithFix(packet, Meaning(r)).fields, k) ==
              (|| Bit(packet.fields, k)
               || (HasPosition(r) && (k == LAT_BIT || k == LONG_BIT))
               || (HasTime(r) && k == TIME_BIT))
  {
    FixReadings(packet, Meaning(r));
    forall k | 0 <= k < 8
      ensures Bit(WithFix(packet, Meaning(r)).fields, k) ==
              (|| Bit(packet.fields, k)
               || (HasPosition(r) && (k == LAT_BIT || k == LONG_BIT))
               || (HasTime(r) && k == TIME_BIT))
    {
      FixFlags(packet, Meaning(r), k);
    }
  }

  /** Moves past the field at index and the comma that ends it. */
  method SkipField(data: seq<Byte>, index: nat, ghost field: seq<Byte>, ghost rest: seq<Byte>)
    returns (next: nat)
    requires index <= |data| && data[index..] == field + [COMMA] + rest && Field(field)
    ensures next == index + |field| + 1 <= |data| && data[next..] == rest
  {
    ghost var end := index + |field|;
    assert data[index..][|field|] == data[end] == COMMA;
    assert forall i :: index <= i < end ==> data[i] == data[index..][i - index] == field[i - index];
    next := index;
    while data[next] != COMMA
      invariant index <= next <= end
      decreases end - next
    {
      next := next + 1;
    }
    next := next + 1;
    assert data[next..] == data[index..][|field| + 1..];
  }

  /** `memcpy(.., index, n)`. */
  function Take(data: seq<Byte>, index: nat, n: nat): seq<Byte>
    requires index + n <= |data|
  {
    data[index..index + n]
  }

  lemma {:induction false} JoinConcat(a: seq<seq<Byte>>, b: seq<seq<Byte>>)
    ensures Join(a + b) == Join(a) + Join(b)
  {
    if a == [] {
      assert a + b == b;
    } else {
      assert (a + b)[1..] == a[1..] + b;
      JoinConcat(a[1..], b);
    }
  }

  method SkipFields(data: seq<Byte>, index: nat, count: nat, ghost fields: seq<seq<Byte>>, ghost rest: seq<Byte>)
    returns (next: nat)
    requires |fields| == count && forall f :: f in fields ==> Field(f)
    requires index <= |data| && data[index..] == Join(fields) + rest
    ensures next <= |data| && data[next..] == rest
  {
    next := index;
    for i := 0 to count
      invariant next <= |data| && data[next..] == Join(fields[i..]) + rest
    {
      assert fields[i..][1..] == fields[i + 1..];
      var after := Join(fields[i + 1..]) + rest;
      assert data[next..] == fields[i] + [COMMA] + after;
      next := SkipField(data, next, fields[i], after);
    }
  }

  lemma TakeFrom(data: seq<Byte>, index: nat, k: nat, n: nat)
    requires index + k + n <= |data|
    ensures Take(data, index + k, n) == data[index..][k..k + n]
  {
  }

  lemma PositionParts(p: Position, rest: seq<Byte>)
    requires ValidPosition(p) && p.Located?
    ensures var d := PrintPosition(p) + rest;
            && |d| >= 25 && d[25..] == rest
            && d[..4] == p.latDegMin && d[5..11] == p.latFrac + [COMMA, p.northSouth]
            && d[12..17] == p.lonDegMin && d[18..24] == p.lonFrac + [COMMA, p.eastWest]
  {
  }

  /** Where the fixed offsets of the parser land in a printed position. */
  lemma LocatedOffsets(data: seq<Byte>, index: nat, p: Position, rest: seq<Byte>)
    requires ValidPosition(p) && p.Located?
    requires index <= |data| && data[index..] == PrintPosition(p) + rest
    ensures index + 25 <= |data| && data[index + 25..] == rest
    ensures Take(data, index, 4) == p.latDegMin
    ensures Take(data, index + 5, 6) == p.latFrac + [COMMA, p.northSouth]
    ensures Take(data, index + 12, 5) == p.lonDegMin
    ensures Take(data, index + 18, 6) == p.lonFrac + [COMMA, p.eastWest]
  {
    PositionParts(p, rest);
    assert data[index + 25..] == data[index..][25..];
    TakeFrom(data, index, 0, 4);
    TakeFrom(data, index, 5, 6);
    TakeFrom(data, index, 12, 5);
    TakeFrom(data, index, 18, 6);
  }

  /** The copies of latitude and longitude, without the dot that the sentence has in them. */
  method CopyPosition(data: seq<Byte>, index: nat, packet: Packet, ghost p: Position, ghost rest: seq<Byte>)
    returns (result: Packet, next: nat)
    requires ValidPosition(p) && p.Located?
    requires index <= |data| && data[index..] == PrintPosition(p) + rest
    ensures result == WithPosition(packet, p.latDegMin + p.latFrac + [COMMA, p.northSouth],
                                   p.lonDegMin + p.lonFrac + [COMMA, p.eastWest])
    ensures next <= |data| && data[next..] == rest
  {
    LocatedOffsets(data, index, p, rest);
    next := index;
    var lat := Take(data, next, 4) + Take(data, next + 5, 6);
    next := next + 12;
    var lon := Take(data, next, 5) + Take(data, next + 6, 6);
    next := next + 13;
    assert lat == p.latDegMin + p.latFrac + [COMMA, p.northSouth];
    assert lon == p.lonDegMin + p.lonFrac + [COMMA, p.eastWest];
    result := WithPosition(packet, lat, lon);
  }

  /** The position when present, and in either case the index moved to the date. */
  method ParsePosition(data: seq<Byte>, index: nat, packet: Packet, ghost r: Rmc, ghost rest: seq<Byte>)
    returns (result: Packet, next: nat)
    requires ValidRmc(r) && r.Timed? && index < |data|
    requires data[index..] == PrintPosition(r.position) + Join([r.speed, r.course]) + rest
    ensures result == WithFix(packet, Meaning(r).(time := None))
    ensures if r.position.Located? then
              && result.lat == r.position.latDegMin + r.position.latFrac + [COMMA, r.position.northSouth]
              && result.lon == r.position.lonDegMin + r.position.lonFrac + [COMMA, r.position.eastWest]
            else result.lat == packet.lat && result.lon == packet.lon
    ensures next <= |data| && data[next..] == rest
  {
    FixReadings(packet, Meaning(r).(time := None));
    result, next := packet, index;
    assert data[index] == data[index..][0] == PrintPosition(r.position)[0];
    if data[index] != COMMA {
      ghost var behind := Join([r.speed, r.course]) + rest;
      assert data[index..] == PrintPosition(r.position) + behind;
      result, next := CopyPosition(data, next, packet, r.position, behind);
      next := SkipFields(data, next, 2, [r.speed, r.course], rest);
    } else {
      ghost var blank := [[], r.position.northSouthField, r.position.lonField, r.position.eastWestField];
      JoinConcat(blank, [r.speed, r.course]);
      next := SkipFields(data, next, 6, blank + [r.speed, r.course], rest);
    }
  }

  /** The part of a sentence behind its talker field, from the time on. */
  method ParseTimed(data: seq<Byte>, from: nat, packet: Packet, ghost r: Rmc) returns (result: Packet)
    requires ValidRmc(r) && r.Timed? && from <= |data| && data[from..] == AfterTalker(r)
    ensures result == WithFix(packet, Meaning(r))
  {
    var index := from;
    ghost var clockField := r.clock + r.fraction;
    ghost var date := r.date + r.tail;
    ghost var fromPosition := PrintPosition(r.position) + Join([r.speed, r.course]) + date;
    var clock := Take(data, index, 6);
    assert clock == data[index..][..6] == r.clock;
    index := SkipField(data, index, clockField, r.status + [COMMA] + fromPosition);
    index := SkipField(data, index, r.status, fromPosition);
    result, index := ParsePosition(data, index, packet, r, date);
    var time := clock + Take(data, index, 6);
    assert Take(data, index, 6) == data[index..][..6] == r.date;
    if time[10] != EIGHT {
      result := WithTime(result, time);
    }
  }

  /** Main result: the parser stays inside a printed sentence. It stores position and time as printed, when
      there are any, raises their flags, and leaves the rest of the packet as it was. */
  method ParseGps(data: seq<Byte>, packet: Packet, ghost r: Rmc) returns (result: Packet)
    requires ValidRmc(r) && data == Print(r)
    ensures result == WithFix(packet, Meaning(r))
    ensures if HasPosition(r) then
              && result.lat == r.position.latDegMin + r.position.latFrac + [COMMA, r.position.northSouth]
              && result.lon == r.position.lonDegMin + r.position.lonFrac + [COMMA, r.position.eastWest]
            else result.lat == packet.lat && result.lon == packet.lon
    ensures result.time == if HasTime(r) then r.clock + r.date else packet.time
    ensures result.temp == packet.temp && result.fuel == packet.fuel
    ensures result.speed == packet.speed && result.vin == packet.vin
    ensures forall k | 0 <= k < 8 ::
              Bit(result.fields, k) ==
              (|| Bit(packet.fields, k)
               || (HasPosition(r) && (k == LAT_BIT || k == LONG_BIT))
               || (HasTime(r) && k == TIME_BIT))
  {
    MeaningStored(packet, r);
    result := packet;
    ghost var body := AfterTalker(r);
    assert data[0..] == r.talker + [COMMA] + body;
    var index := SkipField(data, 0, r.talker, body);
    assert data[index] == body[0];
    if data[index] != COMMA {
      result := ParseTimed(data, index, packet, r);
    }
  }
}
