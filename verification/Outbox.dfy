/** The outbox: messages in order of arrival, removed by id, by age on a 32-bit clock, or by size. */
module Outboxes {
  import opened Bytes

  datatype Item = Item(msgId: int, msgType: int, tick: int, length: nat, pending: bool)

  function Size(items: seq<Item>): nat {
    if items == [] then 0 else items[0].length + Size(items[1..])
  }

  /** The size is the sum of the lengths: additive over any split, and an item's own for one item. */
  lemma {:induction false} SizeAdds(a: seq<Item>, b: seq<Item>)
    ensures Size(a + b) == Size(a) + Size(b)
    ensures |a| == 1 ==> Size(a) == a[0].length
  {
    if a == [] {
      assert a + b == b;
    } else {
      assert (a + b)[1..] == a[1..] + b;
      SizeAdds(a[1..], b);
    }
  }

  predicate Matches(item: Item, id: int, kind: int) { item.msgId == id && item.msgType == kind }

  /** The list without its element k. */
  function Without(items: seq<Item>, k: nat): seq<Item>
    requires k < |items|
  {
    items[..k] + items[k + 1..]
  }

  ghost predicate IsFirst(items: seq<Item>, k: nat, id: int, kind: int) {
    && k < |items| && Matches(items[k], id, kind)
    && forall j :: 0 <= j < k ==> !Matches(items[j], id, kind)
  }

  // ---- the 32-bit clock ----

  const WORD: int := 0x1_0000_0000

  /** Conversion of a millisecond count to a 32-bit int. */
  function ToInt32(x: int): int {
    var low := x % WORD;
    if low < WORD / 2 then low else low - WORD
  }

  /** `current_tick - item->tick`, wrapping. */
  function TickAge(now: int, tick: int): int { ToInt32(now - tick) }

  lemma ToInt32Wraps(x: int) returns (wraps: int)
    ensures ToInt32(x) == x - wraps * WORD
  {
    wraps := x / WORD + if x % WORD < WORD / 2 then 0 else 1;
  }

  lemma SameRemainder(d: int, k: int)
    ensures (d + k * WORD) % WORD == d % WORD
  {
    assert d + k * WORD == (d / WORD + k) * WORD + d % WORD;
  }

  lemma SmallToInt32(x: int)
    requires 0 <= x < WORD / 2
    ensures ToInt32(x) == x
  {
  }

  /** The wrapped difference of two truncated clocks is the truncated true age. */
  lemma TickAgeIsTrueAge(now: int, born: int)
    ensures TickAge(ToInt32(now), ToInt32(born)) == ToInt32(now - born)
    ensures 0 <= now - born < WORD / 2 ==> TickAge(ToInt32(now), ToInt32(born)) == now - born
  {
    var w := ToInt32Wraps(now);
    var v := ToInt32Wraps(born);
    assert ToInt32(now) - ToInt32(born) == now - born + (v - w) * WORD;
    SameRemainder(now - born, v - w);
    if 0 <= now - born < WORD / 2 {
      SmallToInt32(now - born);
    }
  }

  /** For which true ages, of any size, the test on the truncated clock says "expired". */
  lemma ExpiryTest(now: int, born: int, timeout: int)
    requires born <= now && 0 <= timeout < WORD / 2
    ensures TickAge(ToInt32(now), ToInt32(born)) > timeout
            <==> timeout < (now - born) % WORD < WORD / 2
  {
    TickAgeIsTrueAge(now, born);
  }

  /** The items young enough, in order, judged by when they were really enqueued. */
  function Young(items: seq<Item>, births: seq<int>, now: int, timeout: int): seq<Item>
    requires |births| == |items|
  {
    if items == [] then []
    else
      var n := |items| - 1;
      Young(items[..n], births[..n], now, timeout) + if now - births[n] <= timeout then [items[n]] else []
  }

  /** One item is kept exactly when its true age is within the timeout, and each is judged by itself, in order. */
  lemma {:induction false} YoungParts(a: seq<Item>, b: seq<Item>, births: seq<int>, now: int, timeout: int)
    requires |births| == |a| + |b|
    ensures Young(a + b, births, now, timeout)
            == Young(a, births[..|a|], now, timeout) + Young(b, births[|a|..], now, timeout)
    ensures |a| == 1 && b == [] ==> Young(a, births, now, timeout) == if now - births[0] <= timeout then a else []
    decreases |b|
  {
    if b == [] {
      assert a + b == a && births[..|a|] == births;
      assert a != [] ==> a == a[..|a| - 1] + [a[|a| - 1]];
    } else {
      var n := |b| - 1;
      var front := births[..|a| + n];
      assert (a + b)[..|a| + n] == a + b[..n];
      assert front[..|a|] == births[..|a|] && front[|a|..] == births[|a|..][..n];
      YoungParts(a, b[..n], front, now, timeout);
    }
  }

  // ---- eviction by size ----

  function FirstIdle(items: seq<Item>): nat {
    if items == [] || !items[0].pending then 0 else 1 + FirstIdle(items[1..])
  }

  /** The list without its first k non-pending items. */
  function Evict(items: seq<Item>, k: nat): seq<Item> {
    if k == 0 || items == [] then items
    else if items[0].pending then [items[0]] + Evict(items[1..], k)
    else Evict(items[1..], k - 1)
  }

  function Pending(items: seq<Item>): seq<Item> {
    if items == [] then [] else (if items[0].pending then [items[0]] else []) + Pending(items[1..])
  }

  function Idle(items: seq<Item>): seq<Item> {
    if items == [] then [] else (if items[0].pending then [] else [items[0]]) + Idle(items[1..])
  }

  lemma {:induction false} SizeByParts(items: seq<Item>)
    ensures Size(items) == Size(Pending(items)) + Size(Idle(items))
    ensures |items| == |Pending(items)| + |Idle(items)|
  {
    if items != [] {
      SizeByParts(items[1..]);
      var p, q := Pending(items[1..]), Idle(items[1..]);
      assert ([items[0]] + p)[1..] == p && ([items[0]] + q)[1..] == q && [] + p == p && [] + q == q;
    }
  }

  lemma {:induction false} EvictKeepsPending(items: seq<Item>, k: nat)
    ensures Pending(Evict(items, k)) == Pending(items)
    decreases |items|
  {
    if items == [] || k == 0 {
    } else if items[0].pending {
      EvictKeepsPending(items[1..], k);
      assert Evict(items, k)[1..] == Evict(items[1..], k);
    } else {
      EvictKeepsPending(items[1..], k - 1);
    }
  }

  lemma {:induction false} EvictDropsIdle(items: seq<Item>, k: nat)
    ensures Idle(Evict(items, k)) == Idle(items)[Min(k, |Idle(items)|)..]
    decreases |items|
  {
    if items == [] || k == 0 {
    } else if items[0].pending {
      EvictDropsIdle(items[1..], k);
      var rest := Evict(items[1..], k);
      assert ([items[0]] + rest)[1..] == rest;
      assert Idle(items) == Idle(items[1..]);
    } else {
      EvictDropsIdle(items[1..], k - 1);
      var later := Idle(items[1..]);
      assert Idle(items) == [items[0]] + later;
      assert ([items[0]] + later)[Min(k, |later| + 1)..] == later[Min(k - 1, |later|)..];
    }
  }

  /** Eviction keeps every pending item and drops exactly the first k others: both parts stay in order. */
  lemma EvictParts(items: seq<Item>, k: nat)
    ensures Pending(Evict(items, k)) == Pending(items)
    ensures Idle(Evict(items, k)) == Idle(items)[Min(k, |Idle(items)|)..]
  {
    EvictKeepsPending(items, k);
    EvictDropsIdle(items, k);
  }

  lemma EvictSize(items: seq<Item>, k: nat)
    ensures Size(Evict(items, k)) == Size(Pending(items)) + Size(Idle(items)[Min(k, |Idle(items)|)..])
    ensures |Evict(items, k)| == |items| - Min(k, |Idle(items)|)
  {
    EvictParts(items, k);
    SizeByParts(Evict(items, k));
    SizeByParts(items);
  }

  lemma ConsWithout(x: Item, items: seq<Item>, i: nat)
    requires i < |items|
    ensures Without([x] + items, i + 1) == [x] + Without(items, i)
  {
  }

  lemma FirstIdleCons(x: Item, items: seq<Item>)
    requires x.pending
    ensures FirstIdle([x] + items) == 1 + FirstIdle(items)
    ensures Idle([x] + items) == Idle(items)
  {
    assert ([x] + items)[1..] == items;
  }

  /** The code's step: removing the first non-pending item is one more eviction. */
  lemma {:induction false} EvictOneMore(items: seq<Item>, k: nat)
    ensures var e := Evict(items, k); var i := FirstIdle(e);
            if i < |e| then Evict(items, k + 1) == Without(e, i) else Evict(items, k + 1) == e && Idle(e) == []
    decreases |items|
  {
    if items == [] {
    } else if items[0].pending {
      EvictOneMore(items[1..], k);
      var e := Evict(items[1..], k);
      assert Evict(items, k) == [items[0]] + e by {
        if k == 0 {
          assert items == [items[0]] + items[1..];
        }
      }
      FirstIdleCons(items[0], e);
      if FirstIdle(e) < |e| {
        ConsWithout(items[0], e, FirstIdle(e));
      }
    } else if k > 0 {
      EvictOneMore(items[1..], k - 1);
    } else {
      assert Without(items, 0) == items[1..];
    }
  }

  lemma CleanupStep(items: seq<Item>, k: nat)
    requires k <= |Idle(items)|
    ensures var e := Evict(items, k); var i := FirstIdle(e);
            if i < |e| then k < |Idle(items)| && Evict(items, k + 1) == Without(e, i) else k == |Idle(items)|
  {
    EvictOneMore(items, k);
    EvictParts(items, k);
    EvictSize(items, k);
    EvictSize(items, k + 1);
  }

  /** Cleanup fails exactly when the pending items alone exceed the limit. */
  lemma CleanupFailsIff(items: seq<Item>, evicted: nat, maxSize: nat)
    requires evicted <= |Idle(items)|
    requires Size(Evict(items, evicted)) > maxSize ==> evicted == |Idle(items)|
    ensures Size(Evict(items, evicted)) > maxSize <==> Size(Pending(items)) > maxSize
  {
    EvictSize(items, evicted);
    SizeByParts(items);
  }

  lemma RemoveShifts(items: seq<Item>, k: nat)
    requires k < |items|
    ensures Without(items, k)[..k] == items[..k] && Without(items, k)[k..] == items[k..][1..]
  {
  }

  class Outbox {
    var items: seq<Item>

    constructor ()
      ensures items == []
    {
      items := [];
    }

    method Enqueue(length: nat, msgId: int, msgType: int, tick: int)
      modifies this
      ensures items == old(items) + [Item(msgId, msgType, tick, length, false)]
    {
      items := items + [Item(msgId, msgType, tick, length, false)];
    }

    method GetSize() returns (size: nat)
      ensures size == Size(items)
    {
      size := 0;
      for k := 0 to |items|
        invariant size + Size(items[k..]) == Size(items)
      {
        assert items[k..][1..] == items[k + 1..];
        size := size + items[k].length;
      }
    }

    /** The first item that is not pending, as a position. */
    method Dequeue() returns (found: Option<nat>)
      ensures found == if FirstIdle(items) < |items| then Some(FirstIdle(items)) else None
    {
      var k := 0;
      while k < |items|
        invariant 0 <= k <= |items| && FirstIdle(items) == k + FirstIdle(items[k..])
      {
        if !items[k].pending {
          return Some(k);
        }
        assert items[k..][1..] == items[k + 1..];
        k := k + 1;
      }
      return None;
    }

    /** Removes the first item with this id and type, if there is one. */
    method Delete(msgId: int, msgType: int) returns (ok: bool)
      modifies this
      ensures ok <==> exists item :: item in old(items) && Matches(item, msgId, msgType)
      ensures ok ==> exists k :: IsFirst(old(items), k, msgId, msgType) && items == Without(old(items), k)
      ensures !ok ==> items == old(items)
    {
      for k := 0 to |items|
        invariant items == old(items)
        invariant forall j :: 0 <= j < k ==> !Matches(items[j], msgId, msgType)
      {
        if Matches(items[k], msgId, msgType) {
          assert IsFirst(items, k, msgId, msgType);
          items := Without(items, k);
          return true;
        }
      }
      return false;
    }

    /** Removes in place every item whose age on the truncated clock exceeds the timeout. When every true
        age is below 2^31 ms, what stays is exactly the items whose true age is within it. */
    method DeleteExpired(currentTick: int, timeout: int, ghost births: seq<int>, ghost now: int)
      requires |births| == |items| && currentTick == ToInt32(now)
      requires forall k :: 0 <= k < |items| ==>
                 items[k].tick == ToInt32(births[k]) && 0 <= now - births[k] < WORD / 2
      modifies this
      ensures items == Young(old(items), births, now, timeout)
    {
      var k, done := 0, 0;
      while k < |items|
        invariant 0 <= k <= |items| && done + |items| - k == |old(items)| && 0 <= done
        invariant items[..k] == Young(old(items)[..done], births[..done], now, timeout)
        invariant items[k..] == old(items)[done..]
        decreases |items| - k
      {
        var item := items[k];
        assert item == items[k..][0] == old(items)[done];
        TickAgeIsTrueAge(now, births[done]);
        assert old(items)[..done + 1][..done] == old(items)[..done];
        assert births[..done + 1][..done] == births[..done];
        if TickAge(currentTick, item.tick) > timeout {
          RemoveShifts(items, k);
          items := Without(items, k);
        } else {
          assert items[..k + 1] == items[..k] + [item];
          k := k + 1;
        }
        done := done + 1;
      }
      assert items[..k] == items && old(items)[..done] == old(items) && births[..done] == births;
    }

    /** Main result: evicts non-pending items, oldest first, until the size is within the limit or none is
        left; it fails exactly when the pending items alone exceed the limit. */
    method Cleanup(maxSize: nat) returns (ok: bool, ghost evicted: nat)
      modifies this
      ensures evicted <= |Idle(old(items))| && items == Evict(old(items), evicted)
      ensures forall j :: 0 <= j < evicted ==> Size(Evict(old(items), j)) > maxSize
      ensures ok <==> Size(items) <= maxSize
      ensures !ok ==> evicted == |Idle(old(items))|
      ensures !ok <==> Size(Pending(old(items))) > maxSize
    {
      evicted := 0;
      var size := GetSize();
      while size > maxSize
        invariant evicted <= |Idle(old(items))| && items == Evict(old(items), evicted) && size == Size(items)
        invariant forall j :: 0 <= j < evicted ==> Size(Evict(old(items), j)) > maxSize
        decreases |items|
      {
        var found := Dequeue();
        CleanupStep(old(items), evicted);
        if found.None? {
          CleanupFailsIff(old(items), evicted, maxSize);
          return false, evicted;
        }
        items := Without(items, found.value);
        evicted := evicted + 1;
        size := GetSize();
      }
      CleanupFailsIff(old(items), evicted, maxSize);
      return true, evicted;
    }
  }
}
