/** The packet builders: one bounded buffer, three bytes kept free for the header, the body appended
    behind them, and the header placed last so that it touches the body. */
module MqttBuilders {
  import opened Bytes
  import opened MqttPackets

  const MAX_FIXED_HEADER_SIZE := 3

  /** What CONNECT carries; an absent string is the empty one, as the builder treats both alike. */
  datatype ConnectInfo = ConnectInfo(
    clientId: seq<Byte>, username: seq<Byte>, password: seq<Byte>,
    willTopic: seq<Byte>, willMessage: seq<Byte>,
    keepAlive: nat, willQos: nat, willRetain: bool, cleanSession: bool)

  function WillFlags(info: ConnectInfo): Byte {
    4 + info.willQos % 4 * 8 + if info.willRetain then 32 else 0
  }

  function IdentityFlags(info: ConnectInfo): Byte {
    (if info.cleanSession then 2 else 0) + if info.willTopic != [] then WillFlags(info) else 0
  }

  function CredentialFlags(info: ConnectInfo): Byte {
    (if info.username != [] then 128 else 0) + if info.password != [] then 64 else 0
  }

  function VariableHeader(flags: Byte, keepAlive: nat): seq<Byte> {
    [0, 4, 'M' as int, 'Q' as int, 'T' as int, 'T' as int, 4, flags] + Be16(keepAlive)
  }

  function Optional(present: bool, s: seq<Byte>): seq<Byte> { if present then s else [] }

  function WillPayload(info: ConnectInfo): seq<Byte> { Str(info.willTopic) + Str(info.willMessage) }

  /** The strings behind the variable header, in the order of section 3.1.3 of MQTT 3.1.1. */
  function IdentityPayload(info: ConnectInfo): seq<Byte> {
    Str(info.clientId) + Optional(info.willTopic != [], WillPayload(info))
  }

  function Credentials(info: ConnectInfo): seq<Byte> {
    Optional(info.username != [], Str(info.username)) + Optional(info.password != [], Str(info.password))
  }

  function ConnectBody(info: ConnectInfo): seq<Byte> {
    VariableHeader(IdentityFlags(info) + CredentialFlags(info), info.keepAlive)
    + (IdentityPayload(info) + Credentials(info))
  }

  lemma ConnectBodySize(info: ConnectInfo)
    ensures |ConnectBody(info)| == 10 + |IdentityPayload(info) + Credentials(info)|
    ensures |IdentityPayload(info)| <= |IdentityPayload(info) + Credentials(info)|
  {
  }

  lemma Associates(a: seq<Byte>, b: seq<Byte>, c: seq<Byte>)
    ensures (a + b) + c == a + (b + c)
  {
  }

  class Connection {
    const buffer: array<Byte>
    var start: nat               // message.data, as an offset into the buffer
    var length: nat              // message.length; the write position while a packet is being built

    ghost predicate Sized()
      reads this
    {
      3 <= buffer.Length <= 65535
    }

    constructor (size: nat)
      requires 3 <= size <= 65535
      ensures Sized() && fresh(buffer) && buffer.Length == size
    {
      buffer := new Byte[size];
      start, length := 0, 0;
    }

    /** A packet is under construction: the header bytes are reserved and the body follows them. */
    ghost predicate Building()
      reads this
    {
      Sized() && MAX_FIXED_HEADER_SIZE <= length <= buffer.Length
    }

    ghost function Body(): seq<Byte>
      requires Building()
      reads this, buffer
    {
      buffer[MAX_FIXED_HEADER_SIZE..length]
    }

    /** The finished packet; empty after a failure. */
    ghost predicate Finished()
      reads this
    {
      Sized() && start + length <= buffer.Length
    }

    ghost function Message(): seq<Byte>
      requires Finished()
      reads this, buffer
    {
      buffer[start..start + length]
    }

    /** What a builder answers: the packet if it fits behind the reserved header, else length 0. */
    ghost predicate Answers(kind: nat, qos: nat, retain: nat, valid: bool, body: seq<Byte>)
      reads this, buffer
    {
      && Finished()
      && Message() == if valid && MAX_FIXED_HEADER_SIZE + |body| <= buffer.Length
                      then Packet(kind, qos, retain, body) else []
    }

    /** memcpy to the write position. */
    method Append(data: seq<Byte>)
      requires Building() && length + |data| <= buffer.Length
      modifies this`length, buffer
      ensures Building() && Body() == old(Body()) + data
    {
      forall i | 0 <= i < |data| {
        buffer[length + i] := data[i];
      }
      length := length + |data|;
    }

    method AppendString(s: seq<Byte>) returns (ok: bool)
      requires Building()
      modifies this`length, buffer
      ensures Building()
      ensures ok <==> old(length) + |Str(s)| <= buffer.Length
      ensures Body() == if ok then old(Body()) + Str(s) else old(Body())
      ensures ok ==> U16(buffer[old(length)], buffer[old(length) + 1]) == |s|
    {
      if length + |s| + 2 > buffer.Length {
        return false;
      }
      Append([|s| / 256 % 256, |s| % 256]);
      Append(s);
      return true;
    }

    /** An id of zero is replaced by the first nonzero draw; answers zero when it does not fit. */
    method AppendMessageId(messageId: nat, draw: nat) returns (id: nat)
      requires Building() && messageId < 65536 && 1 <= draw < 65535
      modifies this`length, buffer
      ensures Building()
      ensures var chosen := if messageId == 0 then draw else messageId;
              if old(length) + 2 > buffer.Length then id == 0 && Body() == old(Body())
              else id == chosen && Body() == old(Body()) + Be16(chosen)
    {
      id := if messageId == 0 then draw else messageId;
      if length + 2 > buffer.Length {
        return 0;
      }
      Append([id / 256 % 256, id % 256]);
    }

    method Init()
      requires Sized()
      modifies this`length
      ensures Building() && Body() == []
    {
      length := MAX_FIXED_HEADER_SIZE;
    }

    method Fail()
      requires Sized()
      modifies this
      ensures Finished() && Message() == []
    {
      start, length := 0, 0;
    }

    method Fini(kind: nat, qos: nat, retain: nat)
      requires Building()
      modifies this, buffer
      ensures Finished() && Message() == Packet(kind, qos, retain, old(Body()))
    {
      var remaining := length - MAX_FIXED_HEADER_SIZE;
      ghost var body := Body();
      if remaining > 127 {
        buffer[0] := FirstByte(kind, qos, retain);
        buffer[1] := 128 + remaining % 128;
        buffer[2] := remaining / 128 % 256;
        length := remaining + 3;
        start := 0;
      } else {
        buffer[1] := FirstByte(kind, qos, retain);
        buffer[2] := remaining;
        length := remaining + 2;
        start := 1;
      }
      assert Message() == FixedHeader(kind, qos, retain, remaining) + body;
    }

    /** Places the header when the whole body went in, and fails otherwise. */
    method Finish(complete: bool, kind: nat, qos: nat, retain: nat)
      requires Building()
      modifies this, buffer
      ensures Finished()
      ensures Message() == if complete then Packet(kind, qos, retain, old(Body())) else []
    {
      if complete {
        Fini(kind, qos, retain);
      } else {
        Fail();
      }
    }

    method AppendPublish(topic: seq<Byte>, payload: seq<Byte>, qos: nat, draw: nat) returns (ok: bool, id: nat)
      requires Building() && Body() == [] && 1 <= draw < 65535
      modifies this`length, buffer
      ensures Building()
      ensures ok <==> MAX_FIXED_HEADER_SIZE + |PublishBody(topic, qos, draw, payload)| <= buffer.Length
      ensures ok ==> Body() == PublishBody(topic, qos, draw, payload) && id == if qos > 0 then draw else 0
    {
      id := 0;
      ok := AppendString(topic);
      if !ok {
        return;
      }
      assert Body() == Str(topic);
      if qos > 0 {
        id := AppendMessageId(0, draw);
        if id == 0 {
          return false, 0;
        }
      }
      assert Body() == Str(topic) + if qos > 0 then Be16(draw) else [];
      if length + |payload| > buffer.Length {
        return false, id;
      }
      Append(payload);
    }

    method Publish(topic: seq<Byte>, payload: seq<Byte>, qos: nat, retain: nat, draw: nat) returns (id: nat)
      requires Sized() && 1 <= draw < 65535
      modifies this, buffer
      ensures Answers(PUBLISH, qos, retain, topic != [], PublishBody(topic, qos, draw, payload))
      ensures Message() != [] ==> id == if qos > 0 then draw else 0
    {
      Init();
      if topic == [] {
        Fail();
        return 0;
      }
      var ok;
      ok, id := AppendPublish(topic, payload, qos, draw);
      Finish(ok, PUBLISH, qos, retain);
    }

    /** SUBSCRIBE and UNSUBSCRIBE bodies: the id, the topic, and for SUBSCRIBE the requested QoS. */
    method AppendTopicRequest(topic: seq<Byte>, draw: nat, trailer: seq<Byte>) returns (ok: bool, id: nat)
      requires Building() && Body() == [] && 1 <= draw < 65535
      modifies this`length, buffer
      ensures Building()
      ensures ok <==> MAX_FIXED_HEADER_SIZE + |Be16(draw) + Str(topic) + trailer| <= buffer.Length
      ensures ok ==> Body() == Be16(draw) + Str(topic) + trailer && id == draw
    {
      id := AppendMessageId(0, draw);
      if id == 0 {
        return false, 0;
      }
      assert Body() == Be16(draw);
      ok := AppendString(topic);
      if !ok {
        return;
      }
      assert Body() == Be16(draw) + Str(topic);
      if length + |trailer| > buffer.Length {
        return false, id;
      }
      Append(trailer);
    }

    method Subscribe(topic: seq<Byte>, qos: nat, draw: nat) returns (id: nat)
      requires Sized() && 1 <= draw < 65535
      modifies this, buffer
      ensures Answers(SUBSCRIBE, 1, 0, topic != [], Be16(draw) + Str(topic) + [qos % 256])
      ensures Message() != [] ==> id == draw
    {
      Init();
      if topic == [] {
        Fail();
        return 0;
      }
      var ok;
      ok, id := AppendTopicRequest(topic, draw, [qos % 256]);
      Finish(ok, SUBSCRIBE, 1, 0);
    }

    method Unsubscribe(topic: seq<Byte>, draw: nat) returns (id: nat)
      requires Sized() && 1 <= draw < 65535
      modifies this, buffer
      ensures Answers(UNSUBSCRIBE, 1, 0, topic != [], Be16(draw) + Str(topic) + [])
      ensures Message() != [] ==> id == draw
    {
      Init();
      if topic == [] {
        Fail();
        return 0;
      }
      var ok;
      ok, id := AppendTopicRequest(topic, draw, []);
      Finish(ok, UNSUBSCRIBE, 1, 0);
    }

    /** The four acknowledgement builders differ in the kind alone, and PUBREL in its flag bits. */
    method Acknowledge(kind: nat, messageId: nat, draw: nat)
      requires Sized() && messageId < 65536 && 1 <= draw < 65535
      requires kind in {PUBACK, PUBREC, PUBREL, PUBCOMP}
      modifies this, buffer
      ensures Answers(kind, if kind == PUBREL then 1 else 0, 0, true,
                      Be16(if messageId == 0 then draw else messageId))
    {
      Init();
      var id := AppendMessageId(messageId, draw);
      if id == 0 {
        Fail();
        return;
      }
      Fini(kind, if kind == PUBREL then 1 else 0, 0);
    }

    /** PINGREQ, PINGRESP and DISCONNECT have no body. */
    method Bare(kind: nat)
      requires Sized()
      requires kind in {PINGREQ, PINGRESP, DISCONNECT}
      modifies this, buffer
      ensures Answers(kind, 0, 0, true, [])
    {
      Init();
      Fini(kind, 0, 0);
    }

    /** A CONNECT under construction: a variable header with these flags, then this payload. */
    ghost predicate Holds(flags: Byte, keepAlive: nat, payload: seq<Byte>)
      reads this, buffer
    {
      Building() && Body() == VariableHeader(flags, keepAlive) + payload
    }

    method AppendField(s: seq<Byte>, ghost flags: Byte, ghost keepAlive: nat, ghost payload: seq<Byte>)
      returns (ok: bool)
      requires Holds(flags, keepAlive, payload)
      modifies this`length, buffer
      ensures ok <==> 13 + |payload + Str(s)| <= buffer.Length
      ensures Holds(flags, keepAlive, if ok then payload + Str(s) else payload)
    {
      ok := AppendString(s);
      ghost var header := VariableHeader(flags, keepAlive);
      assert (header + payload) + Str(s) == header + (payload + Str(s));
    }

    /** `variable_header->flags |= bits`, for bits not yet set. */
    method RaiseFlags(flags: Byte, bits: Byte, ghost keepAlive: nat, ghost payload: seq<Byte>)
      returns (raised: Byte)
      requires Holds(flags, keepAlive, payload) && flags + bits < 256
      modifies buffer
      ensures raised == flags + bits && Holds(raised, keepAlive, payload)
    {
      raised := flags + bits;
      buffer[MAX_FIXED_HEADER_SIZE + 7] := raised;
      assert Body() == old(Body())[7 := raised];
    }

    method AppendWill(info: ConnectInfo, flags: Byte, ghost payload: seq<Byte>) returns (ok: bool, raised: Byte)
      requires Holds(flags, info.keepAlive, payload) && flags < 4 && info.willTopic != []
      modifies this`length, buffer
      ensures Building()
      ensures ok <==> 13 + |payload + WillPayload(info)| <= buffer.Length
      ensures ok ==> raised == flags + WillFlags(info)
                     && Holds(raised, info.keepAlive, payload + WillPayload(info))
    {
      raised := flags;
      ok := AppendField(info.willTopic, flags, info.keepAlive, payload);
      if !ok {
        return;
      }
      ok := AppendField(info.willMessage, flags, info.keepAlive, payload + Str(info.willTopic));
      if !ok {
        return;
      }
      assert payload + Str(info.willTopic) + Str(info.willMessage) == payload + WillPayload(info);
      raised := RaiseFlags(flags, WillFlags(info), info.keepAlive, payload + WillPayload(info));
    }

    /** User name or password: nothing when empty. */
    method AppendCredential(s: seq<Byte>, flags: Byte, bit: Byte, ghost keepAlive: nat, ghost payload: seq<Byte>)
      returns (ok: bool, raised: Byte)
      requires Holds(flags, keepAlive, payload) && flags + bit < 256
      modifies this`length, buffer
      ensures Building()
      ensures ok <==> s == [] || 13 + |payload + Optional(s != [], Str(s))| <= buffer.Length
      ensures ok ==> raised == flags + (if s != [] then bit else 0)
                     && Holds(raised, keepAlive, payload + Optional(s != [], Str(s)))
    {
      ok, raised := true, flags;
      if s != [] {
        ok := AppendField(s, flags, keepAlive, payload);
        if !ok {
          return;
        }
        raised := RaiseFlags(flags, bit, keepAlive, payload + Str(s));
      } else {
        assert payload + [] == payload;
      }
    }

    /** Variable header, client id and will. */
    method AppendIdentity(info: ConnectInfo) returns (ok: bool, flags: Byte)
      requires Building() && Body() == [] && info.clientId != []
      modifies this`length, buffer
      ensures Building()
      ensures ok <==> 13 + |IdentityPayload(info)| <= buffer.Length
      ensures ok ==> flags == IdentityFlags(info) && Holds(flags, info.keepAlive, IdentityPayload(info))
    {
      flags := if info.cleanSession then 2 else 0;
      if length + 10 > buffer.Length {
        return false, flags;
      }
      Append(VariableHeader(flags, info.keepAlive));
      ok := AppendField(info.clientId, flags, info.keepAlive, []);
      if !ok {
        return;
      }
      assert [] + Str(info.clientId) == Str(info.clientId);
      if info.willTopic != [] {
        ok, flags := AppendWill(info, flags, Str(info.clientId));
      }
    }

    method AppendCredentials(info: ConnectInfo, flags: Byte, ghost payload: seq<Byte>) returns (ok: bool)
      requires Holds(flags, info.keepAlive, payload) && flags < 64
      modifies this`length, buffer
      ensures Building()
      ensures ok <==> 13 + |payload + Credentials(info)| <= buffer.Length
      ensures ok ==> Holds(flags + CredentialFlags(info), info.keepAlive, payload + Credentials(info))
    {
      var raised;
      ok, raised := AppendCredential(info.username, flags, 128, info.keepAlive, payload);
      if !ok {
        return;
      }
      ghost var named := Optional(info.username != [], Str(info.username));
      ghost var pass := Optional(info.password != [], Str(info.password));
      ok, raised := AppendCredential(info.password, raised, 64, info.keepAlive, payload + named);
      Associates(payload, named, pass);
    }

    method AppendConnect(info: ConnectInfo) returns (ok: bool)
      requires Building() && Body() == [] && info.clientId != []
      modifies this`length, buffer
      ensures Building()
      ensures ok <==> MAX_FIXED_HEADER_SIZE + |ConnectBody(info)| <= buffer.Length
      ensures ok ==> Body() == ConnectBody(info)
    {
      ConnectBodySize(info);
      var flags;
      ok, flags := AppendIdentity(info);
      if !ok {
        return;
      }
      ok := AppendCredentials(info, flags, IdentityPayload(info));
    }

    method Connect(info: ConnectInfo)
      requires Sized()
      modifies this, buffer
      ensures Answers(CONNECT, 0, 0, info.clientId != [], ConnectBody(info))
    {
      Init();
      if info.clientId == [] {
        Fail();
        return;
      }
      var ok := AppendConnect(info);
      Finish(ok, CONNECT, 0, 0);
    }
  }
}
