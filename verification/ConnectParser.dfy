/** A reader of CONNECT packets written from section 3.1 of MQTT 3.1.1, and the round trip. */
module ConnectParser {
  import opened Bytes
  import opened MqttPackets
  import opened MqttBuilders

  datatype Will = Will(topic: seq<Byte>, message: seq<Byte>, qos: nat, retain: bool)

  datatype ConnectFields = ConnectFields(
    clientId: seq<Byte>, will: Option<Will>, username: Option<seq<Byte>>, password: Option<seq<Byte>>,
    keepAlive: nat, cleanSession: bool)

  /** A length-prefixed string and what follows it (section 1.5.3). */
  function TakeString(s: seq<Byte>): Option<(seq<Byte>, seq<Byte>)> {
    if |s| < 2 || |s| < 2 + U16(s[0], s[1]) then None
    else var n := U16(s[0], s[1]); Some((s[2..2 + n], s[2 + n..]))
  }

  function TakeIf(present: bool, s: seq<Byte>): Option<(Option<seq<Byte>>, seq<Byte>)> {
    if !present then Some((None, s))
    else match TakeString(s)
         case None => None
         case Some((x, rest)) => Some((Some(x), rest))
  }

  /** Section 3.1.2.3: the reserved bit is zero, will QoS and retain need a will, QoS is at most 2,
      and a password needs a user name. */
  predicate FlagsConsistent(flags: Byte) {
    && !Bit(flags, 0)
    && (!Bit(flags, 2) ==> flags / 8 % 4 == 0 && !Bit(flags, 5))
    && flags / 8 % 4 != 3
    && (Bit(flags, 6) ==> Bit(flags, 7))
  }

  const PROTOCOL: seq<Byte> := [0, 4, 'M' as int, 'Q' as int, 'T' as int, 'T' as int, 4]

  datatype Strings = Strings(
    clientId: seq<Byte>, willTopic: Option<seq<Byte>>, willMessage: Option<seq<Byte>>,
    username: Option<seq<Byte>>, password: Option<seq<Byte>>)

  /** The client id, and the will strings when the will flag announces them. */
  function ParseIdentity(will: bool, s: seq<Byte>): Option<(Strings, seq<Byte>)> {
    match TakeString(s)
    case None => None
    case Some((clientId, s1)) =>
      match TakeIf(will, s1)
      case None => None
      case Some((willTopic, s2)) =>
        match TakeIf(will, s2)
        case None => None
        case Some((willMessage, s3)) => Some((Strings(clientId, willTopic, willMessage, None, None), s3))
  }

  function ParseCredentials(user: bool, pass: bool, so: Strings, s: seq<Byte>): Option<Strings> {
    match TakeIf(user, s)
    case None => None
    case Some((username, s1)) =>
      match TakeIf(pass, s1)
      case None => None
      case Some((password, s2)) => if s2 != [] then None else Some(so.(username := username, password := password))
  }

  /** The payload strings that the flags announce, and nothing after them (section 3.1.3). */
  function ParseStrings(will: bool, user: bool, pass: bool, s: seq<Byte>): Option<Strings> {
    match ParseIdentity(will, s)
    case None => None
    case Some((identity, rest)) => ParseCredentials(user, pass, identity, rest)
  }

  function Assemble(flags: Byte, keepAlive: nat, strings: Strings): ConnectFields {
    var will := if strings.willTopic.Some? && strings.willMessage.Some?
                then Some(Will(strings.willTopic.value, strings.willMessage.value, flags / 8 % 4, Bit(flags, 5)))
                else None;
    ConnectFields(strings.clientId, will, strings.username, strings.password, keepAlive, Bit(flags, 1))
  }

  function ParsePayload(flags: Byte, keepAlive: nat, s: seq<Byte>): Option<ConnectFields> {
    match ParseStrings(Bit(flags, 2), Bit(flags, 7), Bit(flags, 6), s)
    case None => None
    case Some(strings) => Some(Assemble(flags, keepAlive, strings))
  }

  function ParseBody(body: seq<Byte>): Option<ConnectFields> {
    if |body| < 10 || body[..7] != PROTOCOL || !FlagsConsistent(body[7]) then None
    else ParsePayload(body[7], U16(body[8], body[9]), body[10..])
  }

  function Parse(p: seq<Byte>): Option<ConnectFields> {
    match ReadRemaining(p)
    case None => None
    case Some((remaining, header)) =>
      if p[0] != CONNECT * 16 || header + remaining != |p| then None else ParseBody(p[header..])
  }

  /** What the connection settings mean as a CONNECT packet. */
  function Meaning(info: ConnectInfo): ConnectFields {
    ConnectFields(
      info.clientId,
      if info.willTopic != []
      then Some(Will(info.willTopic, info.willMessage, info.willQos % 4, info.willRetain)) else None,
      if info.username != [] then Some(info.username) else None,
      if info.password != [] then Some(info.password) else None,
      info.keepAlive % 65536,
      info.cleanSession)
  }

  /** Settings that MQTT 3.1.1 allows: the builder does not check these two rules. */
  predicate Conforms(info: ConnectInfo) {
    && (info.password != [] ==> info.username != [])
    && (info.willTopic != [] ==> info.willQos % 4 != 3)
  }

  lemma TakeStr(x: seq<Byte>, rest: seq<Byte>)
    requires |x| < 65536
    ensures TakeString(Str(x) + rest) == Some((x, rest))
  {
    var s := Str(x) + rest;
    assert s[2..2 + |x|] == x && s[2 + |x|..] == rest;
  }

  lemma TakeOptional(x: seq<Byte>, rest: seq<Byte>)
    requires |x| < 65536
    ensures TakeIf(x != [], Optional(x != [], Str(x)) + rest) == Some((if x != [] then Some(x) else None, rest))
  {
    TakeStr(x, rest);
    assert [] + rest == rest;
  }

  function Flags(info: ConnectInfo): Byte { IdentityFlags(info) + CredentialFlags(info) }

  ghost predicate Announces(f: Byte, info: ConnectInfo) {
    && Bit(f, 1) == info.cleanSession
    && Bit(f, 2) == (info.willTopic != [])
    && f / 8 % 4 == (if info.willTopic != [] then info.willQos % 4 else 0)
    && Bit(f, 5) == (info.willTopic != [] && info.willRetain)
    && Bit(f, 6) == (info.password != [])
    && Bit(f, 7) == (info.username != [])
    && !Bit(f, 0)
  }

  lemma FlagArithmetic(clean: nat, will: nat, qos: nat, retain: nat, pass: nat, user: nat)
    requires clean < 2 && will < 2 && qos < 4 && retain < 2 && pass < 2 && user < 2
    ensures var f := 2 * clean + 4 * will + 8 * qos + 32 * retain + 64 * pass + 128 * user;
            && f % 2 == 0 && f / 2 % 2 == clean && f / 4 % 2 == will && f / 8 % 4 == qos
            && f / 32 % 2 == retain && f / 64 % 2 == pass && f / 128 % 2 == user
  {
    var f := 2 * clean + 4 * will + 8 * qos + 32 * retain + 64 * pass + 128 * user;
    assert f / 2 == clean + 2 * (will + 2 * qos + 8 * retain + 16 * pass + 32 * user);
    assert f / 4 == will + 2 * (qos + 4 * retain + 8 * pass + 16 * user);
    assert f / 8 == qos + 4 * (retain + 2 * pass + 4 * user);
    assert f / 32 == retain + 2 * (pass + 2 * user);
    assert f / 64 == pass + 2 * user;
  }

  lemma PowersOfTwo()
    ensures Pow2(5) == 32 && Pow2(6) == 64 && Pow2(7) == 128
  {
    assert Pow2(3) == 8 && Pow2(5) == 4 * Pow2(3) && Pow2(7) == 4 * Pow2(5);
  }

  lemma HighBitsByDivision(x: nat)
    ensures Bit(x, 5) == (x / 32 % 2 == 1) && Bit(x, 6) == (x / 64 % 2 == 1) && Bit(x, 7) == (x / 128 % 2 == 1)
  {
    PowersOfTwo();
    BitByDivision(x, 5, x / 32, x % 32);
    BitByDivision(x, 6, x / 64, x % 64);
    BitByDivision(x, 7, x / 128, x % 128);
  }

  lemma LowBitsByDivision(x: nat)
    ensures Bit(x, 0) == (x % 2 == 1) && Bit(x, 1) == (x / 2 % 2 == 1) && Bit(x, 2) == (x / 4 % 2 == 1)
  {
    assert Bit(x, 1) == Bit(x / 2, 0);
    assert Bit(x, 2) == Bit(x / 2, 1) == Bit(x / 2 / 2, 0);
    assert x / 2 / 2 == x / 4;
  }

  lemma FlagBits(clean: nat, will: nat, qos: nat, retain: nat, pass: nat, user: nat)
    requires clean < 2 && will < 2 && qos < 4 && retain < 2 && pass < 2 && user < 2
    ensures var f := 2 * clean + 4 * will + 8 * qos + 32 * retain + 64 * pass + 128 * user;
            && !Bit(f, 0) && Bit(f, 1) == (clean == 1) && Bit(f, 2) == (will == 1) && f / 8 % 4 == qos
            && Bit(f, 5) == (retain == 1) && Bit(f, 6) == (pass == 1) && Bit(f, 7) == (user == 1)
  {
    var f := 2 * clean + 4 * will + 8 * qos + 32 * retain + 64 * pass + 128 * user;
    FlagArithmetic(clean, will, qos, retain, pass, user);
    LowBitsByDivision(f);
    HighBitsByDivision(f);
  }

  function One(present: bool): nat { if present then 1 else 0 }

  /** Every flag bit reads back as the setting it was raised for. */
  lemma FlagsReadBack(info: ConnectInfo)
    ensures Announces(Flags(info), info)
  {
    var will := info.willTopic != [];
    var qos := if will then info.willQos % 4 else 0;
    var clean, retain := One(info.cleanSession), One(will && info.willRetain);
    var pass, user := One(info.password != []), One(info.username != []);
    assert Flags(info) == 2 * clean + 4 * One(will) + 8 * qos + 32 * retain + 64 * pass + 128 * user;
    FlagBits(clean, One(will), qos, retain, pass, user);
  }

  function Given(x: seq<Byte>): Option<seq<Byte>> { if x != [] then Some(x) else None }

  lemma CredentialsReadBack(info: ConnectInfo, so: Strings)
    requires |Credentials(info)| < 65536
    ensures ParseCredentials(info.username != [], info.password != [], so, Credentials(info))
            == Some(so.(username := Given(info.username), password := Given(info.password)))
  {
    var pass := Optional(info.password != [], Str(info.password));
    TakeOptional(info.username, pass);
    TakeOptional(info.password, []);
    assert pass + [] == pass;
  }

  function StringsOf(info: ConnectInfo): Strings {
    Strings(info.clientId, Given(info.willTopic), if info.willTopic != [] then Some(info.willMessage) else None,
            Given(info.username), Given(info.password))
  }

  lemma WillReadBack(info: ConnectInfo, rest: seq<Byte>)
    requires |IdentityPayload(info)| < 65536
    ensures var s := Optional(info.willTopic != [], WillPayload(info)) + rest;
            if info.willTopic == [] then s == rest
            else TakeString(s) == Some((info.willTopic, Str(info.willMessage) + rest))
                 && TakeString(Str(info.willMessage) + rest) == Some((info.willMessage, rest))
  {
    if info.willTopic != [] {
      assert WillPayload(info) + rest == Str(info.willTopic) + (Str(info.willMessage) + rest);
      TakeStr(info.willTopic, Str(info.willMessage) + rest);
      TakeStr(info.willMessage, rest);
    }
  }

  lemma IdentityReadBack(info: ConnectInfo, rest: seq<Byte>)
    requires |IdentityPayload(info)| < 65536
    ensures ParseIdentity(info.willTopic != [], IdentityPayload(info) + rest)
            == Some((StringsOf(info).(username := None, password := None), rest))
  {
    var s1 := Optional(info.willTopic != [], WillPayload(info)) + rest;
    assert IdentityPayload(info) + rest == Str(info.clientId) + s1;
    TakeStr(info.clientId, s1);
    WillReadBack(info, rest);
  }

  lemma StringsReadBack(info: ConnectInfo)
    requires |IdentityPayload(info) + Credentials(info)| < 65536
    ensures ParseStrings(info.willTopic != [], info.username != [], info.password != [],
                         IdentityPayload(info) + Credentials(info))
            == Some(StringsOf(info))
  {
    IdentityReadBack(info, Credentials(info));
    CredentialsReadBack(info, StringsOf(info).(username := None, password := None));
  }

  lemma PayloadReadBack(info: ConnectInfo, f: Byte)
    requires |IdentityPayload(info) + Credentials(info)| < 65536 && Announces(f, info)
    ensures ParsePayload(f, info.keepAlive % 65536, IdentityPayload(info) + Credentials(info))
            == Some(Meaning(info))
  {
    assert Assemble(f, info.keepAlive % 65536, StringsOf(info)) == Meaning(info);
    StringsReadBack(info);
  }

  lemma ConsistentIffConforms(info: ConnectInfo)
    ensures FlagsConsistent(Flags(info)) <==> Conforms(info)
  {
    FlagsReadBack(info);
  }

  lemma BodyParts(info: ConnectInfo)
    ensures var body := ConnectBody(info);
            && |body| >= 10 && body[..7] == PROTOCOL && body[7] == Flags(info)
            && U16(body[8], body[9]) == info.keepAlive % 65536
            && body[10..] == IdentityPayload(info) + Credentials(info)
  {
    var head := VariableHeader(Flags(info), info.keepAlive);
    assert ConnectBody(info) == head + (IdentityPayload(info) + Credentials(info));
    assert head[..7] == PROTOCOL && head[7] == Flags(info) && head[8..] == Be16(info.keepAlive);
    SixteenBits(info.keepAlive);
  }

  lemma BodyReadBack(info: ConnectInfo)
    requires |ConnectBody(info)| < 65536
    ensures ParseBody(ConnectBody(info)) == if Conforms(info) then Some(Meaning(info)) else None
  {
    BodyParts(info);
    ConsistentIffConforms(info);
    FlagsReadBack(info);
    PayloadReadBack(info, Flags(info));
  }

  lemma ParseBehindHeader(p: seq<Byte>, body: seq<Byte>)
    requires |p| >= |body| && p != [] && p[0] == CONNECT * 16 && p[|p| - |body|..] == body
    requires ReadRemaining(p) == Some((|body|, |p| - |body|))
    ensures Parse(p) == ParseBody(body)
  {
  }

  lemma ParseOfPacket(body: seq<Byte>)
    requires |body| <= MAX_REMAINING
    ensures Parse(Packet(CONNECT, 0, 0, body)) == ParseBody(body)
  {
    RemainingLengthIsRight(CONNECT, 0, 0, body);
    PacketBytes(CONNECT, 0, 0, body);
    ParseBehindHeader(Packet(CONNECT, 0, 0, body), body);
  }

  /** Main result: a CONNECT within the two-byte length limit is read back to exactly its settings,
      and is rejected exactly when they break one of the two rules the builder leaves unchecked. */
  lemma {:induction false} ConnectRoundTrip(info: ConnectInfo)
    requires |ConnectBody(info)| <= MAX_REMAINING
    ensures Parse(Packet(CONNECT, 0, 0, ConnectBody(info)))
            == if Conforms(info) then Some(Meaning(info)) else None
  {
    ParseOfPacket(ConnectBody(info));
    BodyReadBack(info);
  }

  // ---- SUBSCRIBE and UNSUBSCRIBE, sections 3.8 and 3.10 ----

  datatype TopicRequest = TopicRequest(id: nat, topic: seq<Byte>, qos: Option<nat>)

  /** One topic filter, with a requested QoS of at most 2 in a SUBSCRIBE. */
  function ReadTopicRequest(kind: nat, id: nat, s: seq<Byte>): Option<TopicRequest> {
    match TakeString(s)
    case None => None
    case Some((topic, rest)) =>
      if id == 0 then None
      else if kind == SUBSCRIBE && |rest| == 1 && rest[0] <= 2 then Some(TopicRequest(id, topic, Some(rest[0])))
      else if kind == UNSUBSCRIBE && rest == [] then Some(TopicRequest(id, topic, None))
      else None
  }

  function ReadRequestAt(p: seq<Byte>, header: nat): Option<TopicRequest>
    requires header + 2 <= |p|
  {
    if p[0] % 16 != 2 then None
    else ReadTopicRequest(p[0] / 16, U16(p[header], p[header + 1]), p[header + 2..])
  }

  function ParseTopicRequest(p: seq<Byte>): Option<TopicRequest> {
    match ReadRemaining(p)
    case None => None
    case Some((remaining, header)) =>
      if header + remaining != |p| || remaining < 2 then None else ReadRequestAt(p, header)
  }

  function ExpectedRequest(kind: nat, id: nat, topic: seq<Byte>, trailer: seq<Byte>): Option<TopicRequest> {
    if kind == UNSUBSCRIBE then Some(TopicRequest(id, topic, None))
    else if |trailer| == 1 && trailer[0] <= 2 then Some(TopicRequest(id, topic, Some(trailer[0])))
    else None
  }

  lemma RequestFromFields(p: seq<Byte>, header: nat, kind: nat, id: nat, topic: seq<Byte>, trailer: seq<Byte>)
    requires ReadRemaining(p) == Some((|p| - header, header)) && 0 < header && header + 2 <= |p|
    requires p[0] % 16 == 2 && p[0] / 16 == kind && U16(p[header], p[header + 1]) == id > 0
    requires |topic| < 65536 && p[header + 2..] == Str(topic) + trailer
    requires (kind == SUBSCRIBE && |trailer| == 1) || (kind == UNSUBSCRIBE && trailer == [])
    ensures ParseTopicRequest(p) == ExpectedRequest(kind, id, topic, trailer)
  {
    TakeStr(topic, trailer);
  }

  lemma RequestFields(id: nat, topic: seq<Byte>, trailer: seq<Byte>, p: seq<Byte>, header: nat)
    requires id < 65536 && header <= |p| && p[header..] == Be16(id) + Str(topic) + trailer
    ensures header + 2 <= |p| && U16(p[header], p[header + 1]) == id
    ensures p[header + 2..] == Str(topic) + trailer
  {
    var body := p[header..];
    assert p[header] == body[0] == Be16(id)[0] && p[header + 1] == body[1] == Be16(id)[1];
    SixteenBits(id);
    ShiftedSlice(p, header, body, 2, |body|);
    assert body[2..] == Str(topic) + trailer;
  }

  /** A request within the two-byte length limit is read back to its id, topic and QoS, and is rejected
      exactly when it asks for a QoS that does not exist. */
  lemma TopicRequestRoundTrip(kind: nat, id: nat, topic: seq<Byte>, trailer: seq<Byte>)
    requires 0 < id < 65536 && |Be16(id) + Str(topic) + trailer| <= MAX_REMAINING
    requires (kind == SUBSCRIBE && |trailer| == 1) || (kind == UNSUBSCRIBE && trailer == [])
    ensures ParseTopicRequest(Packet(kind, 1, 0, Be16(id) + Str(topic) + trailer))
            == ExpectedRequest(kind, id, topic, trailer)
  {
    var body := Be16(id) + Str(topic) + trailer;
    var p := Packet(kind, 1, 0, body);
    RemainingLengthIsRight(kind, 1, 0, body);
    PacketBytes(kind, 1, 0, body);
    FirstByteParts(kind, 1, 0);
    RequestFields(id, topic, trailer, p, |p| - |body|);
    RequestFromFields(p, |p| - |body|, kind, id, topic, trailer);
  }
}
