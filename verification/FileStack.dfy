/** The SD-card file used as a LIFO stack: a `#` sentinel, fixed-size records, then the zero bytes
    that pops leave behind. No index is stored; the top is the last nonzero byte. */
module FileStacks {
  import opened Bytes
  import opened Packets
  import opened Stacks

  const HASH: Byte := 35

  /** A record whose last byte is nonzero, which is what makes the top findable. */
  type Record = r: seq<Byte> | |r| == RECORD_SIZE && r[RECORD_SIZE - 1] != 0
    witness seq(RECORD_SIZE, _ => 1)

  function Zeros(n: nat): seq<Byte> { seq(n, _ => 0) }

  function Flatten(rs: seq<Record>): (s: seq<Byte>)
    ensures |s| == RECORD_SIZE * |rs|
    ensures rs != [] ==> s[|s| - 1] != 0
  {
    if rs == [] then [] else Flatten(rs[..|rs| - 1]) + rs[|rs| - 1]
  }

  /** The file that holds the records rs below `tail` blank bytes. */
  function Image(rs: seq<Record>, tail: nat): seq<Byte> {
    [HASH] + Flatten(rs) + Zeros(tail)
  }

  /** The offset just past the topmost record. */
  function TopOffset(rs: seq<Record>): nat { 1 + RECORD_SIZE * |rs| }

  /** What fwrite at offset `at` leaves: bytes replaced in place, the file extended when needed. */
  function Overwrite(file: seq<Byte>, at: nat, data: seq<Byte>): seq<Byte>
    requires at <= |file|
  {
    file[..at] + data + if at + |data| <= |file| then file[at + |data|..] else []
  }

  lemma OverwriteByte(file: seq<Byte>, at: nat, b: Byte)
    requires at <= |file|
    ensures Overwrite(file, at, [b]) == if at < |file| then file[at := b] else file + [b]
  {
  }

  predicate IsTop(file: seq<Byte>, pos: int) {
    0 < pos <= |file| && file[pos - 1] != 0 && forall i :: pos <= i < |file| ==> file[i] == 0
  }

  /** The offset just past the last nonzero byte; 0 when all are zero. */
  function TopOf(file: seq<Byte>): (top: nat)
    ensures if top == 0 then forall i :: 0 <= i < |file| ==> file[i] == 0 else IsTop(file, top)
  {
    if file == [] then 0
    else if file[|file| - 1] != 0 then |file|
    else TopOf(file[..|file| - 1])
  }

  predicate IsLastHash(file: seq<Byte>, p: int) {
    0 <= p < |file| && file[p] == HASH && forall i :: p < i < |file| ==> file[i] != HASH
  }

  /** The position of the last `#`. */
  function LastHash(file: seq<Byte>): (p: nat)
    requires HASH in file
    ensures IsLastHash(file, p)
  {
    if file[|file| - 1] == HASH then |file| - 1 else LastHash(file[..|file| - 1])
  }

  lemma ImageTop(rs: seq<Record>, tail: nat)
    ensures |Image(rs, tail)| == TopOffset(rs) + tail
    ensures IsTop(Image(rs, tail), TopOffset(rs))
  {
    var f, flat := Image(rs, tail), Flatten(rs);
    if rs != [] {
      assert f[TopOffset(rs) - 1] == flat[|flat| - 1];
    }
  }

  lemma TopIsUnique(file: seq<Byte>, a: int, b: int)
    requires IsTop(file, a) && IsTop(file, b)
    ensures a == b
  {
  }

  lemma ImageTopOf(rs: seq<Record>, tail: nat)
    ensures TopOf(Image(rs, tail)) == TopOffset(rs)
  {
    ImageTop(rs, tail);
    TopIsUnique(Image(rs, tail), TopOf(Image(rs, tail)), TopOffset(rs));
  }

  lemma {:induction false} FlattenInjective(a: seq<Record>, b: seq<Record>)
    requires Flatten(a) == Flatten(b)
    ensures a == b
  {
    assert |a| == |b|;
    if a != [] {
      var n := |a| - 1;
      var fa, fb := Flatten(a[..n]), Flatten(b[..n]);
      assert fa == Flatten(a)[..RECORD_SIZE * n] == fb;
      assert a[n] == Flatten(a)[RECORD_SIZE * n..] == b[n];
      FlattenInjective(a[..n], b[..n]);
      assert a == a[..n] + [a[n]] && b == b[..n] + [b[n]];
    }
  }

  /** The bytes alone determine the stack: two stacks with the same file are the same stack.
      This is why storing no index is sound. */
  lemma ImageInjective(a: seq<Record>, b: seq<Record>, m: nat, n: nat)
    requires Image(a, m) == Image(b, n)
    ensures a == b && m == n
  {
    ImageTop(a, m);
    ImageTop(b, n);
    var f := Image(a, m);
    assert TopOffset(a) == TopOffset(b);
    assert Flatten(a) == f[1..TopOffset(a)];
    assert Flatten(b) == Image(b, n)[1..TopOffset(b)];
    FlattenInjective(a, b);
  }

  lemma PushImage(rs: seq<Record>, tail: nat, r: Record)
    ensures |Image(rs, tail)| >= TopOffset(rs)
    ensures Overwrite(Image(rs, tail), TopOffset(rs), r) == Image(rs + [r], Max(0, tail - RECORD_SIZE))
  {
    var file := Image(rs, tail);
    assert (rs + [r])[..|rs|] == rs;
    assert file[..TopOffset(rs)] == [HASH] + Flatten(rs);
    if tail >= RECORD_SIZE {
      assert file[TopOffset(rs) + RECORD_SIZE..] == Zeros(tail - RECORD_SIZE);
    }
  }

  lemma BlankingTheTop(base: seq<Byte>, r: seq<Byte>, tail: nat)
    ensures var file := base + r + Zeros(tail);
            && file[|base|..|base| + |r|] == r
            && Overwrite(file, |base|, Zeros(|r|)) == base + Zeros(tail + |r|)
  {
    var file := base + r + Zeros(tail);
    assert file[|base| + |r|..] == Zeros(tail);
    assert file[..|base|] == base;
    assert Zeros(|r|) + Zeros(tail) == Zeros(tail + |r|);
  }

  lemma PopImage(rs: seq<Record>, tail: nat)
    requires rs != []
    ensures var n := |rs| - 1; var file := Image(rs, tail); var at := TopOffset(rs) - RECORD_SIZE;
            && TopOffset(rs) <= |file|
            && file[at..TopOffset(rs)] == rs[n]
            && Overwrite(file, at, Zeros(RECORD_SIZE)) == Image(rs[..n], tail + RECORD_SIZE)
  {
    var n := |rs| - 1;
    var base := [HASH] + Flatten(rs[..n]);
    assert Image(rs, tail) == base + rs[n] + Zeros(tail);
    BlankingTheTop(base, rs[n], tail);
  }

  /** One more operation, in terms of runs and of the file size that the greatest depth sets. */
  lemma RunGrows(size: nat, rs: seq<Record>, ops: seq<Op<Record>>, k: nat)
    requires k < |ops|
    ensures var (t, answer) := Apply(RunStack(rs, ops[..k]).0, ops[k]);
            && RunStack(rs, ops[..k + 1]) == (t, RunStack(rs, ops[..k]).1 + [answer])
            && Max(Max(size, 1 + RECORD_SIZE * Peak(rs, ops[..k])), TopOffset(t))
               == Max(size, 1 + RECORD_SIZE * Peak(rs, ops[..k + 1]))
  {
    assert ops[..k + 1] == ops[..k] + [ops[k]];
    RunSnoc(rs, ops[..k], ops[k]);
    PeakSnoc(rs, ops[..k], ops[k]);
  }

  // ---- the start-up scan and its repair ----

  /** The first `keep` bytes of the file, then zeros up to the given length. */
  function Blanked(file: seq<Byte>, keep: nat, length: nat): seq<Byte>
    requires keep <= |file| && keep <= length
  {
    file[..keep] + Zeros(length - keep)
  }

  lemma BlankTheTop(file: seq<Byte>, top: nat)
    requires IsTop(file, top)
    ensures Overwrite(file, top, [0]) == Blanked(file, top, Max(|file|, top + 1))
  {
  }

  lemma BlankOneMore(file: seq<Byte>, keep: nat, length: nat, at: nat)
    requires keep <= |file| && keep <= length && at < length && (keep > 0 ==> at == keep - 1)
    ensures Blanked(file, keep, length)[at := 0] == Blanked(file, Max(0, keep - 1), length)
  {
  }

  /** What the repair leaves of a file whose scan found `count` broken bytes: the byte above the top is
      written, then count + 1 bytes downwards are cleared, one more than are broken. */
  function Cleared(file: seq<Byte>, top: nat, count: nat): seq<Byte>
    requires top <= |file|
  {
    Blanked(file, Max(0, top - count - 1), Max(|file|, top + 1))
  }

  /** How many bytes lie above the last `#`: what the scan divides into records. */
  function Above(file: seq<Byte>): nat
    requires HASH in file
  {
    |file| - 1 - LastHash(file)
  }

  lemma HashOnlyAtStart(rs: seq<Record>, tail: nat)
    requires HASH !in Flatten(rs)
    ensures HASH in Image(rs, tail) && LastHash(Image(rs, tail)) == 0
  {
    var f, flat := Image(rs, tail), Flatten(rs);
    assert f[0] == HASH;
    forall i | 1 <= i < |f| ensures f[i] != HASH {
      if i <= |flat| {
        assert f[i] == flat[i - 1];
      }
    }
  }

  /** The depth the scan reports for a whole number of records and blanks, and exactly when it is the
      true depth: the last `#` must sit about as many records above the sentinel as there are blank
      records, so with no `#` inside a record only a file without blanks is read right. */
  lemma StartupDepth(rs: seq<Record>, blanks: nat)
    ensures var f := Image(rs, RECORD_SIZE * blanks);
            && HASH in f
            && (Above(f) / RECORD_SIZE == |rs|
                <==> RECORD_SIZE * blanks - RECORD_SIZE < LastHash(f) <= RECORD_SIZE * blanks)
            && (HASH !in Flatten(rs) ==>
                  Above(f) / RECORD_SIZE == |rs| + blanks && Above(f) % RECORD_SIZE == 0)
  {
    var f, flat := Image(rs, RECORD_SIZE * blanks), Flatten(rs);
    assert f[0] == HASH;
    ImageTop(rs, RECORD_SIZE * blanks);
    assert |f| - 1 == RECORD_SIZE * (|rs| + blanks);
    if HASH !in flat {
      HashOnlyAtStart(rs, RECORD_SIZE * blanks);
    }
  }

  /** A stack with some bytes of an unfinished record above it, then blanks. */
  function Broken(rs: seq<Record>, partial: seq<Byte>, tail: nat): seq<Byte> {
    [HASH] + Flatten(rs) + partial + Zeros(tail)
  }

  lemma BrokenTop(rs: seq<Record>, partial: seq<Byte>, tail: nat)
    requires partial != [] ==> partial[|partial| - 1] != 0
    ensures var f := Broken(rs, partial, tail);
            && TopOf(f) == TopOffset(rs) + |partial| <= |f|
            && f[..TopOffset(rs)] == [HASH] + Flatten(rs)
            && f[TopOffset(rs)..TopOffset(rs) + |partial|] == partial
  {
    var f, top := Broken(rs, partial, tail), TopOffset(rs) + |partial|;
    if partial == [] {
      assert f == Image(rs, tail);
      ImageTopOf(rs, tail);
    } else {
      assert f[top - 1] == partial[|partial| - 1];
      TopIsUnique(f, TopOf(f), top);
    }
  }

  lemma ClearedIsImage(rs: seq<Record>, partial: seq<Byte>, file: seq<Byte>, top: nat, count: nat)
    requires top == TopOffset(rs) + |partial| <= |file| && count + 1 <= |partial|
    requires file[..TopOffset(rs)] == [HASH] + Flatten(rs)
    requires file[TopOffset(rs)..top] == partial
    requires forall i :: 0 <= i < |partial| - count - 1 ==> partial[i] == 0
    ensures Cleared(file, top, count) == Image(rs, Max(|file|, top + 1) - TopOffset(rs))
  {
    var c, keep, base := Cleared(file, top, count), top - count - 1, TopOffset(rs);
    forall i | base <= i < |c| ensures c[i] == 0 {
      if i < keep {
        assert c[i] == file[base..top][i - base] == partial[i - base];
      }
    }
    assert c[..base] == file[..base];
    assert c == c[..base] + Zeros(|c| - base);
  }

  lemma ClearedLeavesAByte(rs: seq<Record>, partial: seq<Byte>, file: seq<Byte>, top: nat, count: nat,
                           i: nat, n: nat)
    requires top == TopOffset(rs) + |partial| <= |file| && file[TopOffset(rs)..top] == partial
    requires i < |partial| - count - 1 && partial[i] != 0
    ensures Cleared(file, top, count) != Image(rs, n)
  {
    assert Cleared(file, top, count)[TopOffset(rs) + i] == file[TopOffset(rs)..top][i];
    ImageTop(rs, n);
  }

  lemma ClearedLosesARecord(rs: seq<Record>, file: seq<Byte>, top: nat, count: nat, n: nat)
    requires TopOffset(rs) <= top <= |file| && top < TopOffset(rs) + count + 1
    ensures Cleared(file, top, count) != Image(rs, n)
  {
    ImageTop(rs, n);
    assert Cleared(file, top, count)[TopOffset(rs) - 1] == 0;
  }

  /** Main result on the repair, with the count the scan itself finds: the records below the broken
      bytes survive exactly when more bytes are broken than the count says and those that the repair
      does not reach are zero; otherwise the last flag byte (or the sentinel) is cleared with them. */
  lemma RepairKeepsRecords(rs: seq<Record>, partial: seq<Byte>, tail: nat)
    requires partial != [] ==> partial[|partial| - 1] != 0
    ensures var f := Broken(rs, partial, tail);
            && HASH in f
            && var count := Above(f) % RECORD_SIZE;
            (exists n: nat :: Cleared(f, TopOf(f), count) == Image(rs, n))
            <==> count + 1 <= |partial| && forall i :: 0 <= i < |partial| - count - 1 ==> partial[i] == 0
  {
    var f := Broken(rs, partial, tail);
    assert f[0] == HASH;
    BrokenTop(rs, partial, tail);
    var top, count := TopOf(f), Above(f) % RECORD_SIZE;
    var c := Cleared(f, top, count);
    if count + 1 <= |partial| {
      if forall i :: 0 <= i < |partial| - count - 1 ==> partial[i] == 0 {
        ClearedIsImage(rs, partial, f, top, count);
      } else {
        var i :| 0 <= i < |partial| - count - 1 && partial[i] != 0;
        forall n: nat ensures c != Image(rs, n) {
          ClearedLeavesAByte(rs, partial, f, top, count, i, n);
        }
      }
    } else {
      forall n: nat ensures c != Image(rs, n) {
        ClearedLosesARecord(rs, f, top, count, n);
      }
    }
  }

  lemma OneByteOver(n: nat)
    ensures (1 + RECORD_SIZE * n) / RECORD_SIZE == n && (1 + RECORD_SIZE * n) % RECORD_SIZE == 1
  {
  }

  /** The rescan after a repair starts one byte higher than the first scan counts from: for records
      without `#` it finds the true depth but a remainder of one, so it always reports a failed repair. */
  lemma {:induction false} GoodRepairReportsFailure(rs: seq<Record>, tail: nat)
    requires HASH !in Flatten(rs)
    ensures var f := Image(rs, tail);
            && HASH in f
            && (TopOf(f) - LastHash(f)) / RECORD_SIZE == |rs| && (TopOf(f) - LastHash(f)) % RECORD_SIZE == 1
  {
    HashOnlyAtStart(rs, tail);
    ImageTopOf(rs, tail);
    OneByteOver(|rs|);
  }

  lemma ClearedEndsBlank(file: seq<Byte>, count: nat)
    ensures var c := Cleared(file, TopOf(file), count); TopOf(c) < |c|
  {
    var c := Cleared(file, TopOf(file), count);
    assert c[|c| - 1] == 0;
  }

  lemma BrokenPart(biteNum: nat)
    ensures biteNum - biteNum / RECORD_SIZE * RECORD_SIZE == biteNum % RECORD_SIZE
  {
  }

  /** How the start-up scan ends: nothing broken, repaired by its own account or not, or never. */
  datatype ScanOutcome = Sound | Repaired | RepairFailed | Endless

  // ---- the file ----

  class FileStack {
    var file: seq<Byte>
    var pos: nat
    var depth: int               // fStack_depth
    ghost var records: seq<Record>
    ghost var tail: nat

    ghost predicate Valid()
      reads this
    {
      file == Image(records, tail) && depth == |records|
    }

    /** An initialised file holds the sentinel alone. */
    constructor ()
      ensures Valid() && records == [] && tail == 0
    {
      file, pos, depth := [HASH], 0, 0;
      records, tail := [], 0;
    }

    method GetC() returns (c: Byte)
      requires pos < |file|
      modifies this`pos
      ensures pos == old(pos) + 1 && c == file[old(pos)]
    {
      c := file[pos];
      pos := pos + 1;
    }

    method FindTop()
      requires exists i :: 0 <= i < |file| && file[i] != 0
      modifies this`pos
      ensures IsTop(file, pos)
    {
      pos := |file| - 1;
      var f := GetC();
      while f == 0
        invariant 0 < pos <= |file| && f == file[pos - 1]
        invariant forall i :: pos <= i < |file| ==> file[i] == 0
        decreases pos
      {
        pos := pos - 2;
        f := GetC();
      }
    }

    method Read(size: nat) returns (data: seq<Byte>)
      requires pos + size <= |file|
      modifies this`pos
      ensures pos == old(pos) + size && data == file[old(pos)..old(pos) + size]
    {
      data := file[pos..pos + size];
      pos := pos + size;
    }

    method Write(data: seq<Byte>)
      requires pos <= |file|
      modifies this`file, this`pos
      ensures file == Overwrite(old(file), old(pos), data) && pos == old(pos) + |data|
    {
      file := Overwrite(file, pos, data);
      pos := pos + |data|;
    }

    /** FindTop on a valid file. */
    method SeekTop(ghost rs: seq<Record>, ghost blanks: nat)
      requires file == Image(rs, blanks)
      modifies this`pos
      ensures pos == TopOffset(rs) && pos + blanks == |file|
    {
      assert file[0] == HASH;
      FindTop();
      ImageTop(rs, blanks);
      TopIsUnique(file, pos, TopOffset(rs));
    }

    /** Reads the bytes below the cursor, then goes back and blanks them. */
    method ReadAndBlank(size: nat) returns (data: seq<Byte>)
      requires size <= pos <= |file|
      modifies this`file, this`pos
      ensures data == old(file[pos - size..pos])
      ensures file == Overwrite(old(file), old(pos) - size, Zeros(size))
    {
      pos := pos - size;
      data := Read(size);
      pos := pos - size;
      Write(Zeros(size));
      pos := pos - size;
    }

    /** The byte traffic of a pop: reads the newest record and blanks it in place. */
    method TakeTop(ghost rs: seq<Record>, ghost blanks: nat) returns (data: seq<Byte>)
      requires rs != [] && file == Image(rs, blanks)
      modifies this`file, this`pos
      ensures data == rs[|rs| - 1]
      ensures file == Image(rs[..|rs| - 1], blanks + RECORD_SIZE)
    {
      SeekTop(rs, blanks);
      PopImage(rs, blanks);
      data := ReadAndBlank(RECORD_SIZE);
    }

    /** Answers the newest record; on an empty stack `message` stays as it was. */
    method Pop(message: seq<Byte>) returns (data: seq<Byte>)
      requires Valid()
      modifies this
      ensures Valid() && |file| == |old(file)|
      ensures old(records) == [] ==> data == message && records == [] && file == old(file)
      ensures old(records) != [] ==>
                && data == old(records)[|old(records)| - 1]
                && records == old(records)[..|old(records)| - 1]
                && tail == old(tail) + RECORD_SIZE
    {
      data := message;
      pos := 0;
      if depth > 0 {
        ImageTop(records, tail);
        data := TakeTop(records, tail);
        depth := depth - 1;
        records, tail := records[..|records| - 1], tail + RECORD_SIZE;
        ImageTop(records, tail);
      }
    }

    /** Writes the record over the blank bytes above the top, extending the file only when they run out. */
    method Push(data: seq<Byte>)
      requires Valid()
      requires |data| == RECORD_SIZE && data[RECORD_SIZE - 1] != 0
      modifies this
      ensures Valid() && records == old(records) + [data]
      ensures tail == Max(0, old(tail) - RECORD_SIZE)
      ensures |file| == Max(|old(file)|, TopOffset(records))
    {
      SeekTop(records, tail);
      PushImage(records, tail, data);
      Write(data);
      depth := depth + 1;
      records, tail := records + [data], Max(0, tail - RECORD_SIZE);
      ImageTop(records, tail);
    }

    method Do(op: Op<Record>) returns (answer: Option<Record>)
      requires Valid()
      modifies this
      ensures Valid() && (records, answer) == Apply(old(records), op)
      ensures |file| == Max(|old(file)|, TopOffset(records))
    {
      ImageTop(records, tail);
      answer := None;
      match op {
        case Push(r) =>
          Push(r);
        case Pop =>
          var was := depth;
          var data := Pop([]);
          if was > 0 {
            answer := Some(data);
          }
      }
    }

    /** Every run of pushes and pops answers what the abstract stack answers, and the file never
        grows past its sentinel plus one record for each level ever reached. */
    method Run(ops: seq<Op<Record>>) returns (out: seq<Option<Record>>)
      requires Valid()
      modifies this
      ensures Valid()
      ensures (records, out) == RunStack(old(records), ops)
      ensures |file| == Max(|old(file)|, 1 + RECORD_SIZE * Peak(old(records), ops))
    {
      out := [];
      ImageTop(records, tail);
      assert ops[..0] == [];
      for k := 0 to |ops|
        invariant Valid()
        invariant (records, out) == RunStack(old(records), ops[..k])
        invariant |file| == Max(|old(file)|, 1 + RECORD_SIZE * Peak(old(records), ops[..k]))
      {
        RunGrows(|old(file)|, old(records), ops, k);
        var answer := Do(ops[k]);
        out := out + [answer];
      }
      assert ops[..|ops|] == ops;
    }

    /** Counts the bytes from the cursor down to the last `#`. */
    method CountToHash() returns (biteNum: nat)
      requires HASH in file && LastHash(file) <= pos < |file|
      modifies this`pos
      ensures biteNum == old(pos) - LastHash(file)
    {
      ghost var hash, start := LastHash(file), pos;
      biteNum := 0;
      var f := GetC();
      while f != HASH
        invariant hash < pos <= start + 1 && f == file[pos - 1]
        invariant biteNum == start + 1 - pos
        decreases pos
      {
        pos := pos - 2;
        f := GetC();
        biteNum := biteNum + 1;
      }
    }

    /** Goes back two bytes and clears one. A seek before the start of the file fails and leaves the
        cursor where it is. */
    method BackAndClear()
      requires 0 < pos <= |file| && 2 <= |file|
      modifies this`file, this`pos
      ensures file == old(file)[if old(pos) == 1 then 1 else old(pos) - 2 := 0]
      ensures pos == if old(pos) == 1 then 2 else old(pos) - 1
    {
      if pos >= 2 {
        pos := pos - 2;
      }
      OverwriteByte(file, pos, 0);
      Write([0]);
    }

    /** The byte clearing of the repair branch. */
    method ClearBroken(count: nat)
      requires HASH in file
      modifies this`file, this`pos
      ensures file == Cleared(old(file), TopOf(old(file)), count)
    {
      FindTop();
      ghost var top, length := pos, Max(|file|, pos + 1);
      TopIsUnique(file, top, TopOf(file));
      BlankTheTop(file, top);
      Write([0]);
      for k := 0 to count + 1
        invariant if k <= top then pos == top + 1 - k else 1 <= pos <= 2
        invariant top <= |old(file)| && file == Blanked(old(file), Max(0, top - k), length)
      {
        BlankOneMore(old(file), Max(0, top - k), length, if pos == 1 then 1 else pos - 2);
        BackAndClear();
      }
    }

    /** What the repair makes of the file `was`, and what it reports: after a clearing that takes every `#`
        its count never ends. */
    ghost predicate IsRepair(was: seq<Byte>, count: nat, outcome: ScanOutcome)
      reads this
    {
      && file == Cleared(was, TopOf(was), count)
      && if HASH !in file then outcome == Endless
         else
           var again := TopOf(file) - LastHash(file);
           && depth == again / RECORD_SIZE
           && outcome == if again % RECORD_SIZE == 0 then Repaired else RepairFailed
    }

    /** The count after a repair, from just above the top, and what is reported for it. */
    method Rescan() returns (outcome: ScanOutcome)
      requires HASH in file && TopOf(file) < |file|
      modifies this`pos, this`depth
      ensures var again := TopOf(file) - LastHash(file);
              && depth == again / RECORD_SIZE
              && outcome == if again % RECORD_SIZE == 0 then Repaired else RepairFailed
    {
      FindTop();
      TopIsUnique(file, pos, TopOf(file));
      var biteNum := CountToHash();
      depth := biteNum / RECORD_SIZE;
      outcome := if biteNum % RECORD_SIZE == 0 then Repaired else RepairFailed;
    }

    /** The repair branch: clears, then counts again. */
    method Repair(count: nat) returns (outcome: ScanOutcome)
      requires HASH in file
      modifies this`file, this`pos, this`depth
      ensures IsRepair(old(file), count, outcome) && outcome != Sound
    {
      ClearBroken(count);
      if HASH !in file {
        return Endless;
      }
      ClearedEndsBlank(old(file), count);
      outcome := Rescan();
    }

    /** The first count of the scan, from the end of the file. */
    method CountFromEnd() returns (biteNum: nat)
      requires HASH in file
      modifies this`pos
      ensures biteNum == Above(file)
    {
      FindTop();
      pos := |file| - 1;
      biteNum := CountToHash();
    }

    /** The start-up scan: counts the bytes above the last `#`, and repairs once when they are not whole
        records. */
    method FindDepth() returns (outcome: ScanOutcome)
      requires HASH in file
      modifies this`file, this`pos, this`depth
      ensures var above := Above(old(file));
              if above % RECORD_SIZE == 0 then
                outcome == Sound && file == old(file) && depth == above / RECORD_SIZE
              else
                outcome != Sound && IsRepair(old(file), above % RECORD_SIZE, outcome)
    {
      var biteNum := CountFromEnd();
      depth := biteNum / RECORD_SIZE;
      if biteNum % RECORD_SIZE == 0 {
        outcome := Sound;
      } else {
        BrokenPart(biteNum);
        var bytesToDelete := biteNum - biteNum / RECORD_SIZE * RECORD_SIZE;
        outcome := Repair(bytesToDelete);
      }
    }
  }
}
