/** Writing one WebSocket frame: the header built by an advancing index, the payload masked in place. */
module WebSocket {
  import opened Bytes
  import opened MqttPackets

  const FIN: Byte := 128
  const OPCODE_BINARY: Byte := 2
  const MASK: Byte := 128
  const SIZE16: Byte := 126
  const MAX_HEADER_SIZE := 10

  /** The frame header for a payload length; only 16 bits of a longer one survive. */
  function Header(length: nat, key: seq<Byte>): seq<Byte> {
    (if length > 125 then [FIN + OPCODE_BINARY, MASK + SIZE16, length / 256 % 256, length % 256]
     else [FIN + OPCODE_BINARY, length + MASK])
    + key
  }

  function Masked(data: seq<Byte>, key: seq<Byte>): (m: seq<Byte>)
    requires |key| == 4
    ensures |m| == |data|
  {
    seq(|data|, i requires 0 <= i < |data| => Xor(data[i], key[i % 4]))
  }

  lemma MaskedTwice(data: seq<Byte>, key: seq<Byte>)
    requires |key| == 4
    ensures Masked(Masked(data, key), key) == data
  {
    var m := Masked(data, key);
    forall i | 0 <= i < |data| ensures Masked(m, key)[i] == data[i] {
      XorTwice(data[i], key[i % 4]);
    }
  }

  /** Bit by bit: a masked byte differs from the original exactly where its key byte has a one. */
  lemma MaskedBits(data: seq<Byte>, key: seq<Byte>, i: nat, k: nat)
    requires |key| == 4 && i < |data| && k < 8
    ensures Bit(Masked(data, key)[i], k) == (Bit(data[i], k) != Bit(key[i % 4], k))
  {
    XorBit(data[i], key[i % 4], k);
  }

  // ---- a frame reader, from sections 5.2 and 5.3 of RFC 6455 ----

  datatype Frame = Frame(fin: bool, opcode: nat, payload: seq<Byte>)

  function BeNumber(s: seq<Byte>): nat {
    if s == [] then 0 else BeNumber(s[..|s| - 1]) * 256 + s[|s| - 1] as int
  }

  /** Payload length and the size of its encoding; only the shortest form is allowed. */
  function ReadLength(s: seq<Byte>): Option<(nat, nat)>
    requires |s| >= 2
  {
    var short := s[1] % 128;
    if short < 126 then Some((short, 0))
    else if short == 126 then
      if |s| < 4 || BeNumber(s[2..4]) < 126 then None else Some((BeNumber(s[2..4]), 2))
    else if |s| < 10 || BeNumber(s[2..10]) < 65536 || s[2] >= 128 then None
    else Some((BeNumber(s[2..10]), 8))
  }

  /** One whole frame from a client: no reserved bits, masked, nothing missing and nothing after it. */
  function Decode(s: seq<Byte>): Option<Frame> {
    if |s| < 2 || s[0] / 16 % 8 != 0 || s[1] < 128 then None
    else
      match ReadLength(s)
      case None => None
      case Some((length, extra)) =>
        if |s| != 2 + extra + 4 + length then None
        else Some(Frame(s[0] >= 128, s[0] % 16, Masked(s[6 + extra..], s[2 + extra..6 + extra])))
  }

  lemma TwoBytes(a: Byte, b: Byte)
    ensures BeNumber([a, b]) == U16(a, b)
  {
    assert [a][..0] == [] && BeNumber([a]) == a;
    assert [a, b][..1] == [a];
  }

  /** What the reader makes of the length bytes of a written frame. */
  lemma LengthReadBack(n: nat, key: seq<Byte>, rest: seq<Byte>)
    requires |key| == 4
    ensures var s := Header(n, key) + rest;
            ReadLength(s) == if n <= 125 then Some((n, 0))
                             else if n % 65536 < 126 then None else Some((n % 65536, 2))
  {
    var s := Header(n, key) + rest;
    if n > 125 {
      TwoBytes(s[2], s[3]);
      assert s[2..4] == [s[2], s[3]];
      SixteenBits(n);
    }
  }

  /** Main result: what goes out is one final, masked binary frame with the original bytes, in the
      shortest length form, exactly when the payload has at most 65535 bytes. */
  lemma FrameRoundTrip(data: seq<Byte>, key: seq<Byte>)
    requires |key| == 4
    ensures Decode(Header(|data|, key) + Masked(data, key)) == Some(Frame(true, 2, data)) <==> |data| <= 65535
  {
    var n, extra := |data|, if |data| > 125 then 2 else 0;
    var s := Header(n, key) + Masked(data, key);
    LengthReadBack(n, key, Masked(data, key));
    MaskedTwice(data, key);
    assert s[2 + extra..6 + extra] == key;
    assert s[6 + extra..] == Masked(data, key);
  }

  /** The header, written into a buffer by an advancing index; `mask` is where the key begins. */
  method BuildHeader(length: nat, key: seq<Byte>) returns (wsHeader: array<Byte>, headerLen: nat, mask: nat)
    requires |key| == 4
    ensures fresh(wsHeader) && mask + 4 == headerLen <= wsHeader.Length
    ensures wsHeader[..headerLen] == Header(length, key) && wsHeader[mask..headerLen] == key
  {
    wsHeader := new Byte[MAX_HEADER_SIZE];
    headerLen := 0;
    wsHeader[headerLen] := FIN + OPCODE_BINARY;
    headerLen := headerLen + 1;
    if length > 125 {
      wsHeader[headerLen] := MASK + SIZE16;
      wsHeader[headerLen + 1] := length / 256 % 256;
      wsHeader[headerLen + 2] := length % 256;
      headerLen := headerLen + 3;
    } else {
      wsHeader[headerLen] := length + MASK;
      headerLen := headerLen + 1;
    }
    mask := headerLen;
    wsHeader[headerLen], wsHeader[headerLen + 1] := key[0], key[1];
    wsHeader[headerLen + 2], wsHeader[headerLen + 3] := key[2], key[3];
    headerLen := headerLen + 4;
  }

  /** The masking loop, in the caller's buffer, with the key read from the header. */
  method MaskInPlace(buffer: array<Byte>, length: nat, wsHeader: array<Byte>, mask: nat)
    requires length <= buffer.Length && mask + 4 <= wsHeader.Length && buffer != wsHeader
    modifies buffer
    ensures buffer[..length] == Masked(old(buffer[..length]), wsHeader[mask..mask + 4])
    ensures buffer[length..] == old(buffer[length..])
  {
    for i := 0 to length
      invariant forall k :: 0 <= k < i ==> buffer[k] == Xor(old(buffer[k]), wsHeader[mask + k % 4])
      invariant forall k :: i <= k < buffer.Length ==> buffer[k] == old(buffer[k])
    {
      buffer[i] := Xor(buffer[i], wsHeader[mask + i % 4]);
    }
  }

  /** ws_write. `polled`, `headerWritten` and `bodyWritten` are the transport's answers, `key` the four
      random bytes. The caller's buffer is left masked whenever the transport was ready, also when the
      write then fails. */
  method Write(buffer: array<Byte>, length: nat, key: seq<Byte>, polled: int, headerWritten: int, bodyWritten: int)
    returns (result: int, header: seq<Byte>)
    requires length <= buffer.Length && |key| == 4
    modifies buffer
    ensures polled <= 0 ==> result == polled && buffer[..] == old(buffer[..])
    ensures polled > 0 ==>
              && header == Header(length, key)
              && buffer[..length] == Masked(old(buffer[..length]), key)
              && (forall i, k: nat :: 0 <= i < length && k < 8 ==>
                    Bit(buffer[i], k) == (Bit(old(buffer[i]), k) != Bit(key[i % 4], k)))
              && buffer[length..] == old(buffer[length..])
              && result == if headerWritten != |header| then -1 else bodyWritten
  {
    header := [];
    if polled <= 0 {
      return polled, [];
    }
    var wsHeader, headerLen, mask := BuildHeader(length, key);
    header := wsHeader[..headerLen];
    MaskInPlace(buffer, length, wsHeader, mask);
    forall i, k: nat | 0 <= i < length && k < 8
      ensures Bit(buffer[i], k) == (Bit(old(buffer[i]), k) != Bit(key[i % 4], k))
    {
      MaskedBits(old(buffer[..length]), key, i, k);
      assert buffer[..length][i] == buffer[i] && old(buffer[..length])[i] == old(buffer[i]);
    }
    result := if headerWritten != headerLen then -1 else bodyWritten;
  }
}
