/** Delivery of a PUBLISH that arrives in pieces, over one input buffer that each read reuses. */
module Reassembly {
  import opened Bytes
  import opened MqttPackets
  import opened MqttDecoders

  /** One MQTT_EVENT_DATA as the application's handler sees it while the event is dispatched. */
  datatype DataEvent = DataEvent(data: seq<Byte>, total: nat, offset: nat)

  ghost function Delivered(events: seq<DataEvent>): seq<Byte> {
    if events == [] then [] else Delivered(events[..|events| - 1]) + events[|events| - 1].data
  }

  /** Each event starts where the earlier ones end and announces the same total. */
  ghost predicate Contiguous(events: seq<DataEvent>, total: nat) {
    forall k :: 0 <= k < |events| ==>
      events[k].total == total && events[k].offset == |Delivered(events[..k])|
  }

  lemma AppendEvent(events: seq<DataEvent>, e: DataEvent, total: nat)
    requires Contiguous(events, total) && e.total == total && e.offset == |Delivered(events)|
    ensures Contiguous(events + [e], total)
    ensures Delivered(events + [e]) == Delivered(events) + e.data
  {
    var all := events + [e];
    assert all[..|events|] == events;
    forall k | 0 <= k < |all| ensures all[k].total == total && all[k].offset == |Delivered(all[..k])| {
      if k < |events| {
        assert all[..k] == events[..k];
      }
    }
  }

  /** The payload bytes that came with the header, and the total they announce. */
  lemma FirstPiece(m: Publish, d: seq<Byte>, length: nat)
    requires m.Valid() && Carries(d, length, m.Bytes()) && m.HeaderSize() <= length <= |m.Bytes()|
    ensures var (start, size) := PublishData(d, length);
            && size == length - m.HeaderSize()
            && |m.Bytes()| - length + size == |m.payload|
            && (start.Some? ==> start.value + size <= |d|)
            && (if start.Some? then d[start.value..start.value + size] else []) == m.payload[..size]
  {
    Layout(m);
    PublishReadBack(m, d, length);
    assert m.payload[..0] == [];
  }

  lemma PieceOfPayload(wire: seq<Byte>, payload: seq<Byte>, at: nat, i: nat, j: nat)
    requires at + |payload| <= |wire| && wire[at..at + |payload|] == payload && i <= j <= |payload|
    ensures wire[at + i..at + j] == payload[i..j]
  {
    var a, b := wire[at + i..at + j], payload[i..j];
    forall k | 0 <= k < |a| ensures a[k] == b[k] {
      assert payload[i + k] == wire[at..at + |payload|][i + k] == wire[at + (i + k)];
    }
  }

  lemma PayloadOnTheWire(m: Publish, wire: seq<Byte>, origin: nat)
    requires m.Valid() && origin + |m.Bytes()| <= |wire| && wire[origin..origin + |m.Bytes()|] == m.Bytes()
    ensures |m.Bytes()| == m.HeaderSize() + |m.payload|
    ensures var at := origin + m.HeaderSize(); wire[at..at + |m.payload|] == m.payload
  {
    Layout(m);
    var at := origin + m.HeaderSize();
    assert wire[at..at + |m.payload|] == wire[origin..origin + |m.Bytes()|][m.HeaderSize()..];
  }

  /** The event of one more piece of the payload. */
  lemma AppendPiece(events: seq<DataEvent>, e: DataEvent, payload: seq<Byte>, i: nat, j: nat)
    requires i <= j <= |payload| && Contiguous(events, |payload|) && Delivered(events) == payload[..i]
    requires e == DataEvent(payload[i..j], |payload|, i)
    ensures Contiguous(events + [e], |payload|) && Delivered(events + [e]) == payload[..j]
  {
    AppendEvent(events, e, |payload|);
    assert payload[..i] + payload[i..j] == payload[..j];
  }

  /** A byte stream. Each read answers a positive count of at most the bytes asked for and left, or
      fails; `answers` are the counts it would like to give. */
  class Transport {
    const wire: seq<Byte>
    var at: nat
    var answers: seq<int>
    var failed: bool

    ghost predicate Valid()
      reads this
    {
      at <= |wire|
    }

    constructor (wire: seq<Byte>, answers: seq<int>)
      ensures Valid() && this.wire == wire && at == 0 && !failed
    {
      this.wire, this.answers := wire, answers;
      at, failed := 0, false;
    }

    method Read(buffer: array<Byte>, size: nat) returns (count: int)
      requires Valid() && 0 < size <= buffer.Length
      modifies this, buffer
      ensures Valid() && count <= size && at == old(at) + Max(count, 0)
      ensures count > 0 ==> buffer[..count] == wire[old(at)..at]
      ensures failed <==> old(failed) || count <= 0
    {
      count := if answers == [] then 0 else Min(Min(answers[0], size), |wire| - at);
      answers := if answers == [] then [] else answers[1..];
      if count <= 0 {
        failed := true;
        return;
      }
      forall i | 0 <= i < count {
        buffer[i] := wire[at + i];
      }
      at := at + count;
    }
  }

  class Client {
    const inBuffer: array<Byte>
    const transport: Transport
    var messageLength: nat
    var messageLengthRead: nat

    constructor (inBuffer: array<Byte>, transport: Transport)
      ensures this.inBuffer == inBuffer && this.transport == transport
    {
      this.inBuffer, this.transport := inBuffer, transport;
      messageLength, messageLengthRead := 0, 0;
    }

    /** The stream holds m from `origin` on; its first `length` bytes have been read into the buffer.
        What follows m on the stream is arbitrary. */
    ghost predicate Arriving(m: Publish, origin: nat, length: nat)
      reads this, inBuffer, transport
    {
      && m.Valid() && transport.Valid() && !transport.failed
      && origin + |m.Bytes()| <= |transport.wire|
      && transport.wire[origin..origin + |m.Bytes()|] == m.Bytes()
      && m.HeaderSize() <= length <= |m.Bytes()| && length <= inBuffer.Length
      && inBuffer[..length] == m.Bytes()[..length]
      && transport.at == origin + length
    }

    /** The event for the payload bytes that came with the header. */
    method FirstEvent(length: nat, ghost m: Publish, ghost origin: nat) returns (event: DataEvent)
      requires Arriving(m, origin, length)
      requires messageLengthRead == length && messageLength == |m.Bytes()|
      ensures event == DataEvent(m.payload[..length - m.HeaderSize()], |m.payload|, 0)
    {
      FirstPiece(m, inBuffer[..], length);
      var topic := ReadPublishTopic(inBuffer[..], length);
      var start, size := ReadPublishData(inBuffer[..], length);
      var data := if start.Some? then inBuffer[..][start.value..start.value + size] else [];
      event := DataEvent(data, messageLength - messageLengthRead + size, 0);
    }

    /** The stream holds the payload from `at` on, and is being read in step with messageLengthRead. */
    ghost predicate InStep(payload: seq<Byte>, at: nat)
      reads this, transport
    {
      && transport.Valid() && messageLengthRead <= messageLength
      && at + |payload| <= |transport.wire| && transport.wire[at..at + |payload|] == payload
      && at <= transport.at <= at + |payload|
      && messageLength - messageLengthRead == at + |payload| - transport.at
    }

    /** One read of at most the rest of the packet, into the buffer that earlier reads used. */
    method ReadPiece(ghost payload: seq<Byte>, ghost at: nat) returns (count: int)
      requires InStep(payload, at) && !transport.failed && inBuffer.Length > 0
      requires messageLengthRead < messageLength
      modifies this`messageLengthRead, inBuffer, transport
      ensures InStep(payload, at) && count <= inBuffer.Length
      ensures transport.at == old(transport.at) + Max(count, 0)
      ensures messageLengthRead == old(messageLengthRead) + Max(count, 0)
      ensures count > 0 ==> inBuffer[..count] == payload[old(transport.at) - at..transport.at - at]
      ensures transport.failed <==> count <= 0
    {
      var ask := if messageLength - messageLengthRead > inBuffer.Length then inBuffer.Length
                 else messageLength - messageLengthRead;
      ghost var done := transport.at - at;
      count := transport.Read(inBuffer, ask);
      if count > 0 {
        messageLengthRead := messageLengthRead + count;
        PieceOfPayload(transport.wire, payload, at, done, done + count);
      }
    }

    /** The reads that follow the first event, each overwriting the buffer and giving one more. */
    method FollowingEvents(first: DataEvent, ghost payload: seq<Byte>, ghost at: nat)
      returns (events: seq<DataEvent>)
      requires InStep(payload, at) && !transport.failed && inBuffer.Length > 0
      requires first == DataEvent(payload[..transport.at - at], |payload|, 0)
      modifies this`messageLengthRead, inBuffer, transport
      ensures InStep(payload, at) && messageLengthRead >= old(messageLengthRead)
      ensures Contiguous(events, |payload|) && Delivered(events) == payload[..transport.at - at]
      ensures transport.failed <==> messageLengthRead < messageLength
    {
      AppendEvent([], first, |payload|);
      assert [] + [first] == [first];
      events := [first];
      var offset := |first.data|;
      while messageLengthRead < messageLength
        invariant InStep(payload, at) && !transport.failed && messageLengthRead >= old(messageLengthRead)
        invariant Contiguous(events, |payload|) && offset == |Delivered(events)|
        invariant Delivered(events) == payload[..transport.at - at]
        decreases messageLength - messageLengthRead
      {
        ghost var done := transport.at - at;
        var count := ReadPiece(payload, at);
        if count <= 0 {
          break;
        }
        var event := DataEvent(inBuffer[..count], first.total, offset);
        AppendPiece(events, event, payload, done, transport.at - at);
        events := events + [event];
        offset := offset + count;
      }
    }

    /** Main result: the events carry the payload as far as it was read, in order, with true offsets and
        the true total; nothing behind the packet is taken; and delivery is complete exactly when no
        read failed. */
    method DeliverPublish(length: nat, ghost m: Publish, ghost origin: nat) returns (events: seq<DataEvent>)
      requires Arriving(m, origin, length)
      requires messageLengthRead == length && messageLength == |m.Bytes()|
      modifies this`messageLengthRead, inBuffer, transport
      ensures Contiguous(events, |m.payload|)
      ensures length <= messageLengthRead <= messageLength && transport.at == origin + messageLengthRead
      ensures Delivered(events) == m.payload[..messageLengthRead - m.HeaderSize()]
      ensures transport.failed <==> messageLengthRead < messageLength
      ensures !transport.failed ==> Delivered(events) == m.payload
    {
      var event := FirstEvent(length, m, origin);
      ghost var at := origin + m.HeaderSize();
      PayloadOnTheWire(m, transport.wire, origin);
      events := FollowingEvents(event, m.payload, at);
    }

    /** The PUBLISH branch of mqtt_process_receive, after its first read. */
    method ReceivePublish(readLength: nat, ghost m: Publish, ghost origin: nat) returns (events: seq<DataEvent>)
      requires Arriving(m, origin, readLength)
      modifies this, inBuffer, transport
      ensures Contiguous(events, |m.payload|)
      ensures messageLength == |m.Bytes()| && transport.at == origin + messageLengthRead
      ensures readLength <= messageLengthRead <= messageLength
      ensures Delivered(events) == m.payload[..messageLengthRead - m.HeaderSize()]
      ensures transport.failed <==> messageLengthRead < messageLength
      ensures !transport.failed ==> Delivered(events) == m.payload
    {
      messageLengthRead := readLength;
      ScanReadBack(m, inBuffer[..], readLength);
      messageLength := ReadTotalLength(inBuffer[..], readLength);
      events := DeliverPublish(readLength, m, origin);
    }
  }

  /** Why the first read must hold the whole header: the total that the first event announces is the
      payload's length exactly when it does. */
  lemma FirstTotalIsExact(m: Publish, d: seq<Byte>, length: nat)
    requires m.Valid() && Carries(d, length, m.Bytes()) && m.FixedSize() <= length <= |m.Bytes()|
    ensures TotalLength(d, length) - length + PublishData(d, length).1 == |m.payload|
            <==> m.HeaderSize() <= length
  {
    Layout(m);
    ScanReadBack(m, d, length);
    if m.HeaderSize() <= length {
      PublishReadBack(m, d, length);
    } else {
      FirstByteReadBack(PUBLISH, m.qos, m.retain);
      var f := m.FixedSize();
      assert d[0] == m.Bytes()[0];
      if f + 2 < length {
        assert d[f] == m.Bytes()[f] && d[f + 1] == m.Bytes()[f + 1];
      }
      assert PublishData(d, length).1 == 0;
    }
  }
}
