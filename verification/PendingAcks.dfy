/** The accounting of unacknowledged messages within one connection: one slot for the newest request,
    a counter, and the outbox that older requests move to. */
module PendingAcks {
  import opened Bytes
  import opened Outboxes

  datatype Key = Key(id: int, kind: int)

  /** The client's fields that the accounting uses. */
  datatype State = State(slot: Key, count: nat, outbox: seq<Item>)

  /** Subscribe, unsubscribe and QoS 1 publish first move the slot to the outbox, if anything at all is
      pending, and then take the slot for themselves. */
  function Issue(s: State, key: Key, tick: int, length: nat): State {
    var outbox := if s.count > 0 then s.outbox + [Item(s.slot.id, s.slot.kind, tick, length, false)] else s.outbox;
    State(key, s.count + 1, outbox)
  }

  /** A request moves the slot to the end of the outbox as one item that keeps its id and type, with the clock
      reading and length of the move, and only if something is pending. */
  lemma IssueMovesSlot(s: State, key: Key, tick: int, length: nat)
    ensures var t := Issue(s, key, tick, length);
            && t.slot == key && t.count == s.count + 1 && s.outbox <= t.outbox
            && |t.outbox| == |s.outbox| + (if s.count > 0 then 1 else 0)
            && (s.count > 0 ==>
                  var moved := t.outbox[|s.outbox|];
                  && Matches(moved, s.slot.id, s.slot.kind) && moved.tick == tick && moved.length == length
                  && !moved.pending)
  {
  }

  predicate InOutbox(items: seq<Item>, key: Key) {
    exists item :: item in items && Matches(item, key.id, key.kind)
  }

  function RemoveFirst(items: seq<Item>, key: Key): seq<Item> {
    if items == [] then []
    else if Matches(items[0], key.id, key.kind) then items[1..]
    else [items[0]] + RemoveFirst(items[1..], key)
  }

  /** is_valid_mqtt_msg: whether an acknowledgement is accepted, and what it does. */
  function Acknowledge(s: State, key: Key): (State, bool) {
    if s.count == 0 then (s, false)
    else if InOutbox(s.outbox, key) then
      (s.(count := s.count - 1, outbox := RemoveFirst(s.outbox, key)), true)
    else if s.slot == key then (s.(count := s.count - 1), true)
    else (s, false)
  }

  datatype Event = Request(key: Key, tick: int, length: nat) | Ack(key: Key)

  function Next(s: State, e: Event): State {
    match e
    case Request(key, tick, length) => Issue(s, key, tick, length)
    case Ack(key) => Acknowledge(s, key).0
  }

  ghost function Run(s: State, events: seq<Event>): State {
    if events == [] then s else Next(Run(s, events[..|events| - 1]), events[|events| - 1])
  }

  ghost function OpenAfter(open: set<Key>, e: Event): set<Key> {
    match e
    case Request(key, _, _) => open + {key}
    case Ack(key) => open - {key}
  }

  /** The requests not yet acknowledged. */
  ghost function Open(events: seq<Event>): set<Key> {
    if events == [] then {} else OpenAfter(Open(events[..|events| - 1]), events[|events| - 1])
  }

  /** Every open request can still be found, and the count is theirs above `base`. */
  ghost predicate Accounted(s: State, open: set<Key>, base: nat) {
    && s.count == base + |open|
    && forall key :: key in open ==> s.slot == key || InOutbox(s.outbox, key)
  }

  /** A step that the accounting can bear: a request whose key is not open yet, or an acknowledgement that
      is either of an open request or refused. */
  ghost predicate Bearable(s: State, open: set<Key>, e: Event) {
    match e
    case Request(key, _, _) => key !in open
    case Ack(key) => key in open || s.count == 0 || (s.slot != key && !InOutbox(s.outbox, key))
  }

  ghost predicate BearableRun(s: State, events: seq<Event>) {
    events == [] ||
    var n := |events| - 1;
    BearableRun(s, events[..n]) && Bearable(Run(s, events[..n]), Open(events[..n]), events[n])
  }

  /** The account is right after every prefix of the run. */
  ghost predicate AccountedAlong(s: State, events: seq<Event>) {
    && (events != [] ==> AccountedAlong(s, events[..|events| - 1]))
    && Accounted(Run(s, events), Open(events), s.count)
  }

  /** A client that uses no key twice at a time, and a broker that acknowledges each request once. */
  ghost predicate Orderly(events: seq<Event>) {
    events == [] ||
    var n := |events| - 1;
    Orderly(events[..n]) && (events[n].Ack? <==> events[n].key in Open(events[..n]))
  }

  lemma {:induction false} RemoveFirstKeepsOthers(items: seq<Item>, key: Key, other: Key)
    requires other != key && InOutbox(items, other)
    ensures InOutbox(RemoveFirst(items, key), other)
  {
    var item :| item in items && Matches(item, other.id, other.kind);
    if Matches(items[0], key.id, key.kind) {
      assert item in items[1..];
    } else if item == items[0] {
      assert item in RemoveFirst(items, key);
    } else {
      assert item in items[1..];
      RemoveFirstKeepsOthers(items[1..], key, other);
      var kept :| kept in RemoveFirst(items[1..], key) && Matches(kept, other.id, other.kind);
      assert kept in RemoveFirst(items, key);
    }
  }

  lemma IssueKeepsAccount(s: State, open: set<Key>, base: nat, key: Key, tick: int, length: nat)
    requires Accounted(s, open, base) && key !in open
    ensures Accounted(Issue(s, key, tick, length), open + {key}, base)
  {
    var t := Issue(s, key, tick, length);
    forall k | k in open ensures InOutbox(t.outbox, k) {
      assert open != {};
      var moved := Item(s.slot.id, s.slot.kind, tick, length, false);
      assert moved in t.outbox;
      if s.slot != k {
        var item :| item in s.outbox && Matches(item, k.id, k.kind);
        assert item in t.outbox;
      }
    }
  }

  lemma AckKeepsAccount(s: State, open: set<Key>, base: nat, key: Key)
    requires Accounted(s, open, base) && key in open
    ensures Acknowledge(s, key).1
    ensures Accounted(Acknowledge(s, key).0, open - {key}, base)
  {
    if InOutbox(s.outbox, key) {
      forall k | k in open - {key} && s.slot != k ensures InOutbox(RemoveFirst(s.outbox, key), k) {
        RemoveFirstKeepsOthers(s.outbox, key, k);
      }
    }
  }

  lemma RequestBreaksAccount(s: State, open: set<Key>, base: nat, key: Key, tick: int, length: nat)
    requires Accounted(s, open, base) && key in open
    ensures !Accounted(Issue(s, key, tick, length), open + {key}, base)
  {
    assert open + {key} == open;
  }

  lemma StrayAck(s: State, open: set<Key>, base: nat, key: Key)
    requires Accounted(s, open, base) && key !in open
    ensures Accounted(Acknowledge(s, key).0, open - {key}, base) <==> !Acknowledge(s, key).1
  {
    assert open - {key} == open;
  }

  /** From a state whose account is right, exactly the bearable steps keep it right. */
  lemma StepKeepsAccountIff(s: State, open: set<Key>, base: nat, e: Event)
    requires Accounted(s, open, base)
    ensures Accounted(Next(s, e), OpenAfter(open, e), base) <==> Bearable(s, open, e)
  {
    match e {
      case Request(key, tick, length) =>
        if key in open {
          RequestBreaksAccount(s, open, base, key, tick, length);
        } else {
          IssueKeepsAccount(s, open, base, key, tick, length);
        }
      case Ack(key) =>
        if key in open {
          AckKeepsAccount(s, open, base, key);
        } else {
          StrayAck(s, open, base, key);
        }
    }
  }

  /** Main result: whatever the outbox, the slot and the count were when the connection began, the count
      exceeds its initial value by the number of unacknowledged requests, each of them in the slot or the
      outbox, all along a run exactly when every step of the run is bearable. */
  lemma {:induction false} CountIsOpenRequests(s: State, events: seq<Event>)
    ensures AccountedAlong(s, events) <==> BearableRun(s, events)
  {
    if events != [] {
      var n := |events| - 1;
      CountIsOpenRequests(s, events[..n]);
      if BearableRun(s, events[..n]) {
        StepKeepsAccountIff(Run(s, events[..n]), Open(events[..n]), s.count, events[n]);
      }
    }
  }

  /** Distinct keys in flight and one acknowledgement for each are enough. */
  lemma {:induction false} OrderlyIsBearable(s: State, events: seq<Event>)
    requires Orderly(events)
    ensures BearableRun(s, events)
  {
    if events != [] {
      OrderlyIsBearable(s, events[..|events| - 1]);
    }
  }

  /** In a bearable run exactly the acknowledgements of open requests are accepted. */
  lemma {:induction false} AcceptedIffOpen(s: State, events: seq<Event>, k: nat)
    requires k < |events| && BearableRun(s, events[..k + 1]) && events[k].Ack?
    ensures Acknowledge(Run(s, events[..k]), events[k].key).1 <==> events[k].key in Open(events[..k])
  {
    assert events[..k + 1][..k] == events[..k];
    CountIsOpenRequests(s, events[..k]);
    if events[k].key in Open(events[..k]) {
      AckKeepsAccount(Run(s, events[..k]), Open(events[..k]), s.count, events[k].key);
    }
  }

  /** An unbearable step is within reach: a second acknowledgement of the same request is accepted too while
      another request is open, and the count then says nothing is open although one request is. */
  lemma SecondAckMiscounts(a: Key, b: Key, tick: int)
    requires a.id != b.id
    ensures var s := Run(State(Key(0, 1), 0, []), [Request(b, tick, 1), Request(a, tick, 1), Ack(a)]);
            && s.count == 1
            && Acknowledge(s, a).1 && Acknowledge(s, a).0.count == 0
            && !Acknowledge(Acknowledge(s, a).0, b).1
  {
    var s0 := State(Key(0, 1), 0, []);
    var e1, e2, e3 := Request(b, tick, 1), Request(a, tick, 1), Ack(a);
    assert [e1, e2, e3][..2] == [e1, e2] && [e1, e2][..1] == [e1] && [e1][..0] == [];
    var s1 := Next(s0, e1);
    assert s1 == State(b, 1, []) == Run(s0, [e1]);
    var s2 := Next(s1, e2);
    var item := Item(b.id, b.kind, tick, 1, false);
    assert s2 == State(a, 2, [item]) == Run(s0, [e1, e2]);
    assert !InOutbox([item], a);
    assert Run(s0, [e1, e2, e3]) == Next(s2, e3) == State(a, 1, [item]);
  }

  /** A request in the outbox expires by the time since it was moved there. */
  lemma MovedExpires(s: State, key: Key, born: int, length: nat, now: int, timeout: int)
    requires s.count > 0 && 0 <= now - born < WORD / 2
    ensures var outbox := Issue(s, key, ToInt32(born), length).outbox;
            TickAge(ToInt32(now), outbox[|outbox| - 1].tick) > timeout <==> now - born > timeout
  {
    IssueMovesSlot(s, key, ToInt32(born), length);
    TickAgeIsTrueAge(now, born);
  }

  lemma {:induction false} RemoveFirstIs(items: seq<Item>, key: Key, k: nat)
    requires IsFirst(items, k, key.id, key.kind)
    ensures RemoveFirst(items, key) == Without(items, k)
  {
    if k > 0 {
      assert !Matches(items[0], key.id, key.kind);
      RemoveFirstIs(items[1..], key, k - 1);
    }
  }

  /** An acknowledgement found in the outbox takes out the first item with its key and no other; one that is only in
      the slot, or not accepted, takes out nothing. */
  lemma AcknowledgeTakesOut(s: State, key: Key, k: nat)
    requires IsFirst(s.outbox, k, key.id, key.kind) && s.count > 0
    ensures Acknowledge(s, key) == (State(s.slot, s.count - 1, Without(s.outbox, k)), true)
  {
    assert s.outbox[k] in s.outbox;
    RemoveFirstIs(s.outbox, key, k);
  }

  // ---- the code ----

  class Client {
    var pendingId: int
    var pendingType: int
    var pendingCount: nat
    const outbox: Outbox

    ghost function View(): State
      reads this, outbox
    {
      State(Key(pendingId, pendingType), pendingCount, outbox.items)
    }

    constructor ()
      ensures fresh(outbox) && View() == State(Key(0, 0), 0, [])
    {
      pendingId, pendingType, pendingCount := 0, 0, 0;
      outbox := new Outbox();
    }

    /** mqtt_enqueue: what is copied is whatever was sent last, so only its length appears here. */
    method Enqueue(lastSent: nat, tick: int)
      modifies outbox
      ensures outbox.items ==
              old(outbox.items)
              + if pendingCount > 0 then [Item(pendingId, pendingType, tick, lastSent, false)] else []
    {
      if pendingCount > 0 {
        outbox.Enqueue(lastSent, pendingId, pendingType, tick);
      }
    }

    /** The common part of subscribe, unsubscribe and QoS 1 publish. The count rises whether or not the write
        succeeds: a request that does not fit takes the slot with the id and type its builder left behind. */
    method SendRequest(key: Key, lastSent: nat, tick: int, written: int) returns (result: int)
      modifies this, outbox
      ensures View() == Issue(old(View()), key, tick, lastSent)
      ensures result == if written <= 0 then -1 else key.id
    {
      Enqueue(lastSent, tick);
      pendingId, pendingType := key.id, key.kind;
      pendingCount := pendingCount + 1;
      if written <= 0 {
        return -1;
      }
      return pendingId;
    }

    method IsValid(key: Key) returns (valid: bool)
      modifies this, outbox
      ensures (View(), valid) == Acknowledge(old(View()), key)
    {
      if pendingCount == 0 {
        return false;
      }
      ghost var items := outbox.items;
      var deleted := outbox.Delete(key.id, key.kind);
      if deleted {
        ghost var k :| IsFirst(items, k, key.id, key.kind) && outbox.items == Without(items, k);
        RemoveFirstIs(items, key, k);
        pendingCount := pendingCount - 1;
        return true;
      }
      if pendingType == key.kind && pendingId == key.id {
        pendingCount := pendingCount - 1;
        return true;
      }
      return false;
    }
  }
}
