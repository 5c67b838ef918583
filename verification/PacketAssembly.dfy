/** What the parse task does to the packet under assembly: which readings and flags a message brings, and
    what the flags of a packet mean in every run of the pipeline. */
module PacketAssembly {
  import opened Bytes
  import opened Packets
  import P = Pipeline

  /** A message from the receive queue, after classification. */
  datatype RawMessage =
    | Gps(fix: Fix)
    | Fuel(value: Byte)
    | OilTemp(value: Byte)
    | Speed(value: Byte)
    | Vin(vin: seq<Byte>)
    | Other

  predicate WellFormed(m: RawMessage) {
    && (m.Gps? ==> ValidFix(m.fix))
    && (m.Vin? ==> |m.vin| == 17)
  }

  type Message = m: RawMessage | WellFormed(m) witness Other

  function Absorb(p: Packet, m: Message): Packet {
    match m
    case Gps(fix) => WithFix(p, fix)
    case Fuel(v) => p.(fuel := v, fields := Or(p.fields, FUEL_FIELD))
    case OilTemp(v) => p.(temp := v, fields := Or(p.fields, TEMP_FIELD))
    case Speed(v) => p.(speed := v, fields := Or(p.fields, SPEED_FIELD))
    case Vin(vin) => p.(vin := vin, fields := Or(p.fields, VIN_FIELD))
    case Other => p
  }

  /** After a send attempt only MISC stays set; the readings stay for the next packet. */
  function Reset(p: Packet): Packet { p.(fields := MISC_FIELD) }

  /** The pipeline's parameters as the parse task fills them in. */
  const CODE: P.Assembly<Packet, Message> := P.Assembly(Absorb, Reset)

  type State = P.State<Packet>

  type Event = P.Event<Message>

  predicate Start(s: State) { P.Start(s) && s.packet.fields == MISC_FIELD }

  // ---- readings ----

  /** What a message carries of each reading. */
  function FuelIn(m: Message): Option<Byte> { if m.Fuel? then Some(m.value) else None }

  function TempIn(m: Message): Option<Byte> { if m.OilTemp? then Some(m.value) else None }

  function SpeedIn(m: Message): Option<Byte> { if m.Speed? then Some(m.value) else None }

  function VinIn(m: Message): Option<seq<Byte>> { if m.Vin? then Some(m.vin) else None }

  function LatIn(m: Message): Option<seq<Byte>> {
    if m.Gps? && m.fix.position.Some? then Some(m.fix.position.value.0) else None
  }

  function LonIn(m: Message): Option<seq<Byte>> {
    if m.Gps? && m.fix.position.Some? then Some(m.fix.position.value.1) else None
  }

  function TimeIn(m: Message): Option<seq<Byte>> {
    if m.Gps? && m.fix.time.Some? then m.fix.time else None
  }

  function Else<T>(carried: Option<T>, otherwise: T): T { if carried.Some? then carried.value else otherwise }

  /** The reading in the last of the messages that carries one, or the initial one if none does. */
  function Latest<T>(ms: seq<Message>, carried: Message -> Option<T>, initial: T): T {
    if ms == [] then initial
    else Else(carried(ms[|ms| - 1]), Latest(ms[..|ms| - 1], carried, initial))
  }

  /** Each kind of message sets its own reading and leaves every other one as it was. */
  lemma AbsorbReadings(p: Packet, m: Message)
    ensures var q := Absorb(p, m);
            && q.fuel == Else(FuelIn(m), p.fuel) && q.temp == Else(TempIn(m), p.temp)
            && q.speed == Else(SpeedIn(m), p.speed) && q.vin == Else(VinIn(m), p.vin)
            && q.lat == Else(LatIn(m), p.lat) && q.lon == Else(LonIn(m), p.lon)
            && q.time == Else(TimeIn(m), p.time)
  {
    if m.Gps? {
      FixReadings(p, m.fix);
    }
  }

  /** The messages that the parse task took during a run. */
  ghost function MessagesTaken(s: State, events: seq<Event>): seq<Message> {
    if events == [] then []
    else
      var n := |events| - 1;
      MessagesTaken(s, events[..n])
      + if events[n].ParseReceive? && P.Run(CODE, s, events[..n]).parsePc.Waiting? then [events[n].message] else []
  }

  /** The packet p holds the latest readings of ms, and the others as q has them. */
  predicate HoldsLatest(p: Packet, ms: seq<Message>, q: Packet) {
    && p.fuel == Latest(ms, FuelIn, q.fuel) && p.temp == Latest(ms, TempIn, q.temp)
    && p.speed == Latest(ms, SpeedIn, q.speed) && p.vin == Latest(ms, VinIn, q.vin)
    && p.lat == Latest(ms, LatIn, q.lat) && p.lon == Latest(ms, LonIn, q.lon)
    && p.time == Latest(ms, TimeIn, q.time)
  }

  lemma AbsorbHoldsLatest(p: Packet, ms: seq<Message>, q: Packet, m: Message)
    requires HoldsLatest(p, ms, q)
    ensures HoldsLatest(Absorb(p, m), ms + [m], q)
  {
    assert (ms + [m])[..|ms|] == ms;
    AbsorbReadings(p, m);
  }

  lemma OtherEventsKeepReadings(s: State, e: Event)
    requires !(e.ParseReceive? && s.parsePc.Waiting?)
    ensures var p := P.Next(CODE, s, e).packet; p == s.packet || p == Reset(s.packet)
  {
  }

  /** Main result: over every run each reading of the packet under assembly is the one in the last message
      taken that carries such a reading, or the initial one; sending a packet does not change them. */
  lemma {:induction false} ReadingsAreLatest(s: State, events: seq<Event>)
    ensures HoldsLatest(P.Run(CODE, s, events).packet, MessagesTaken(s, events), s.packet)
  {
    if events != [] {
      var n := |events| - 1;
      ReadingsAreLatest(s, events[..n]);
      var before, ms := P.Run(CODE, s, events[..n]), MessagesTaken(s, events[..n]);
      if events[n].ParseReceive? && before.parsePc.Waiting? {
        AbsorbHoldsLatest(before.packet, ms, s.packet, events[n].message);
      } else {
        OtherEventsKeepReadings(before, events[n]);
        assert MessagesTaken(s, events) == ms;
      }
    }
  }

  // ---- flags ----

  lemma MiscIsABit()
    ensures forall k: nat :: Bit(MISC_FIELD, k) <==> k == MISC_BIT
  {
    forall k: nat ensures Bit(MISC_FIELD, k) <==> k == MISC_BIT {
      assert Pow2(0) == MISC_FIELD;
      FlagBit(MISC_BIT, k);
    }
  }

  /** The flag bits that a message raises. */
  function FlagsOf(m: Message): set<nat> {
    match m
    case Gps(fix) =>
      (if fix.position.Some? then {LAT_BIT, LONG_BIT} else {}) + (if fix.time.Some? then {TIME_BIT} else {})
    case Fuel(_) => {FUEL_BIT}
    case OilTemp(_) => {TEMP_BIT}
    case Speed(_) => {SPEED_BIT}
    case Vin(_) => {VIN_BIT}
    case Other => {}
  }

  /** A message raises its own flags and touches no other. */
  lemma AbsorbFlags(p: Packet, m: Message, k: nat)
    requires k < 8
    ensures Bit(Absorb(p, m).fields, k) == (Bit(p.fields, k) || k in FlagsOf(m))
  {
    ReadingFlagBits(k);
    match m
    case Gps(fix) => FixFlags(p, fix, k);
    case Fuel(v) => OrBit(p.fields, FUEL_FIELD, k);
    case OilTemp(v) => OrBit(p.fields, TEMP_FIELD, k);
    case Speed(v) => OrBit(p.fields, SPEED_FIELD, k);
    case Vin(vin) => OrBit(p.fields, VIN_FIELD, k);
    case Other =>
  }

  lemma AssemblyKeepsMisc()
    ensures P.KeptByAssembly(CODE, HasMisc)
  {
    MiscIsABit();
    forall p: Packet, m: Message | HasMisc(p) ensures HasMisc(CODE.absorb(p, m)) {
      AbsorbFlags(p, m, MISC_BIT);
    }
  }

  /** Main result: in every run each packet that is queued, stored or held has the MISC bit, which is what
      the file stack needs of a record. */
  lemma {:induction false} MiscEverywhere(s: State, events: seq<Event>)
    requires Start(s)
    ensures P.Everywhere(P.Run(CODE, s, events), HasMisc)
  {
    MiscIsABit();
    AssemblyKeepsMisc();
    P.EverywhereInEveryRun(CODE, s, events, HasMisc);
  }

  /** The step ends an emission: the packet went to a queue or was dropped. */
  predicate Emits(s: State, e: Event) {
    || (e.ParseSendOut? && s.parsePc.SendingOut? && |s.outQueue| < P.QUEUE_LENGTH)
    || (e.ParseSendStore? && s.parsePc.SendingStore?)
  }

  /** The flags raised by the messages taken since the last emission. */
  ghost function FreshFlags(s: State, events: seq<Event>): set<nat> {
    if events == [] then {}
    else
      var n := |events| - 1;
      var before, e := P.Run(CODE, s, events[..n]), events[n];
      if Emits(before, e) then {}
      else if e.ParseReceive? && before.parsePc.Waiting? then FreshFlags(s, events[..n]) + FlagsOf(e.message)
      else FreshFlags(s, events[..n])
  }

  lemma NextFlags(s: State, e: Event, k: nat)
    requires k < 8
    ensures Bit(P.Next(CODE, s, e).packet.fields, k) ==
            if Emits(s, e) then k == MISC_BIT
            else Bit(s.packet.fields, k)
                 || (e.ParseReceive? && s.parsePc.Waiting? && k in FlagsOf(e.message))
  {
    MiscIsABit();
    if e.ParseReceive? {
      AbsorbFlags(s.packet, e.message, k);
    }
  }

  /** The flags of the packet under assembly, and so of every packet when it is emitted, are MISC and
      exactly those of the messages taken since the last emission: no stale reading is marked as new. */
  lemma {:induction false} FlagsAreFresh(s: State, events: seq<Event>, k: nat)
    requires Start(s) && k < 8
    ensures Bit(P.Run(CODE, s, events).packet.fields, k) <==> k == MISC_BIT || k in FreshFlags(s, events)
  {
    MiscIsABit();
    if events != [] {
      var n := |events| - 1;
      FlagsAreFresh(s, events[..n], k);
      NextFlags(P.Run(CODE, s, events[..n]), events[n], k);
    }
  }

  // ---- when packets are emitted, and with what ----

  /** packetREADY has been raised since the last emission. */
  ghost predicate RaisedSince(s: State, events: seq<Event>) {
    events != [] &&
    var n := |events| - 1;
    !Emits(P.Run(CODE, s, events[..n]), events[n]) && (events[n].QueryReady? || RaisedSince(s, events[..n]))
  }

  lemma NextReady(s: State, e: Event)
    ensures P.Next(CODE, s, e).ready <==> !Emits(s, e) && (e.QueryReady? || s.ready)
  {
  }

  lemma {:induction false} ReadyIffRaised(s: State, events: seq<Event>)
    requires Start(s)
    ensures P.Run(CODE, s, events).ready <==> RaisedSince(s, events)
  {
    if events != [] {
      var n := |events| - 1;
      ReadyIffRaised(s, events[..n]);
      NextReady(P.Run(CODE, s, events[..n]), events[n]);
    }
  }

  lemma TestEmits(s: State, e: Event)
    ensures var t := P.Next(CODE, s, e);
            if e.ParseTest? && s.parsePc.Testing? && s.ready then t.emitted == s.emitted + [s.packet]
            else t.emitted == s.emitted
  {
  }

  /** Main result: a step of a run emits a packet exactly when the parse task tests packetREADY and it has been
      raised since the last emission; the packet then holds the latest readings taken, and the flags of those
      that are new. */
  lemma {:induction false} EmittedHoldsLatest(s: State, events: seq<Event>, e: Event)
    requires Start(s)
    ensures var before := P.Run(CODE, s, events); var after := P.Next(CODE, before, e);
            if e.ParseTest? && before.parsePc.Testing? && RaisedSince(s, events) then
              exists p :: && after.emitted == before.emitted + [p]
                          && HoldsLatest(p, MessagesTaken(s, events), s.packet)
                          && forall k | 0 <= k < 8 :: Bit(p.fields, k) <==> k == MISC_BIT || k in FreshFlags(s, events)
            else after.emitted == before.emitted
  {
    var before := P.Run(CODE, s, events);
    ReadyIffRaised(s, events);
    ReadingsAreLatest(s, events);
    forall k | 0 <= k < 8 ensures Bit(before.packet.fields, k) <==> k == MISC_BIT || k in FreshFlags(s, events) {
      FlagsAreFresh(s, events, k);
    }
    TestEmits(before, e);
  }
}
