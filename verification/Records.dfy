/** The on-disk form of a list of byte records: one stream with the bytes, one with the count and the offsets. */
module Records {
  import opened Arith
  import opened Collections

  type Byte = x: nat | x < 256
  type Bytes = seq<Byte>

  /** Little-endian, `width` bytes. */
  function Encode(n: nat, width: nat): (r: Bytes)
    ensures |r| == width
    decreases width
  {
    if width == 0 then [] else [n % 256] + Encode(n / 256, width - 1)
  }

  function Decode(b: Bytes): nat {
    if b == [] then 0 else b[0] + 256 * Decode(b[1..])
  }

  function Limit(width: nat): (r: nat)
    ensures r > 0
  {
    if width == 0 then 1 else 256 * Limit(width - 1)
  }

  lemma {:induction false} DecodeEncode(n: nat, width: nat)
    requires n < Limit(width)
    ensures Decode(Encode(n, width)) == n
    decreases width
  {
    if width > 0 {
      DecodeEncode(n / 256, width - 1);
      assert Encode(n, width)[1..] == Encode(n / 256, width - 1);
    }
  }

  lemma {:induction false} DivideTwice(n: nat, m: nat)
    requires m > 0
    ensures n / 256 / m == n / (256 * m)
  {
    var q := n / 256 / m;
    DivTimesLe(n, 256);
    DivTimesLe(n / 256, m);
    var r := n - q * (256 * m);
    assert q * (256 * m) == 256 * (q * m);
    DivModUnique(n, 256 * m, q, r);
  }

  /** The byte at place i counts 256^i: the low byte comes first. */
  lemma {:induction false} EncodeByte(n: nat, width: nat, i: nat)
    requires i < width
    ensures Encode(n, width)[i] == n / Limit(i) % 256
    decreases width
  {
    if i > 0 {
      EncodeByte(n / 256, width - 1, i - 1);
      DivideTwice(n, Limit(i - 1));
    }
  }

  lemma {:induction false} Limits()
    ensures Limit(4) == WRAP && Limit(8) == WORD
  {
    assert Limit(1) == 256 && Limit(2) == 0x1_0000 && Limit(3) == 0x100_0000;
    assert Limit(5) == 256 * Limit(4) && Limit(6) == 256 * Limit(5) && Limit(7) == 256 * Limit(6);
  }

  function Word(n: nat): (r: Bytes)
    ensures |r| == 8
  {
    Encode(n, 8)
  }

  function Unword(b: Bytes): nat {
    Decode(b)
  }

  lemma {:induction false} UnwordWord(n: nat)
    requires n < WORD
    ensures Unword(Word(n)) == n
  {
    Limits();
    DecodeEncode(n, 8);
  }

  function CountBytes(n: nat): (r: Bytes)
    ensures |r| == 4
  {
    Encode(n, 4)
  }

  function CountOf(b: Bytes): nat {
    Decode(b)
  }

  lemma {:induction false} CountOfBytes(n: nat)
    requires n < 0x8000_0000
    ensures CountOf(CountBytes(n)) == n
  {
    Limits();
    DecodeEncode(n, 4);
  }

  /** 64-bit words written one after the other. */
  function Words(ns: seq<nat>): (r: Bytes)
    ensures |r| == 8 * |ns|
  {
    if ns == [] then [] else Word(ns[0]) + Words(ns[1..])
  }

  /** Reading a byte stream as 64-bit words. */
  function Unwords(b: Bytes): (r: seq<nat>)
    ensures 8 * |r| <= |b| < 8 * |r| + 8
  {
    if |b| < 8 then [] else [Unword(b[..8])] + Unwords(b[8..])
  }

  lemma {:induction false} UnwordsWords(ns: seq<nat>)
    requires forall i | 0 <= i < |ns| :: ns[i] < WORD
    ensures Unwords(Words(ns)) == ns
  {
    if ns != [] {
      UnwordsWords(ns[1..]);
      UnwordWord(ns[0]);
      var b := Words(ns);
      assert b[..8] == Word(ns[0]) && b[8..] == Words(ns[1..]);
    }
  }

  lemma {:induction false} WordsSnoc(ns: seq<nat>, n: nat)
    ensures Words(ns + [n]) == Words(ns) + Word(n)
  {
    if ns == [] {
      assert Words([n]) == Word(n) + Words([]);
    } else {
      WordsSnoc(ns[1..], n);
      assert (ns + [n])[1..] == ns[1..] + [n];
      Associate(Word(ns[0]), Words(ns[1..]), Word(n));
    }
  }

  /** All bytes of the records, in order. */
  function Flat(rs: seq<Bytes>): Bytes {
    if rs == [] then [] else Flat(rs[..|rs| - 1]) + rs[|rs| - 1]
  }

  /** Where each record starts, and where the last one ends. */
  function Offsets(rs: seq<Bytes>): (r: seq<nat>)
    ensures |r| == |rs| + 1 && r[|rs|] == |Flat(rs)|
  {
    if rs == [] then [0] else Offsets(rs[..|rs| - 1]) + [|Flat(rs)|]
  }

  function IndexFile(rs: seq<Bytes>): (r: Bytes)
    ensures |r| == 4 + 8 * (|rs| + 1)
  {
    CountBytes(|rs|) + Words(Offsets(rs))
  }

  lemma {:induction false} SliceBehind(a: Bytes, b: Bytes, from: nat, to: nat)
    requires from <= to <= |b|
    ensures (a + b)[|a| + from..|a| + to] == b[from..to]
  {
  }

  lemma {:induction false} WordsAt(ns: seq<nat>, i: nat)
    requires i < |ns|
    ensures Words(ns)[8 * i..8 * i + 8] == Word(ns[i])
  {
    hide Encode, Word;
    if i == 0 {
      assert (Word(ns[0]) + Words(ns[1..]))[..8] == Word(ns[0]);
    } else {
      WordsAt(ns[1..], i - 1);
      SliceBehind(Word(ns[0]), Words(ns[1..]), 8 * (i - 1), 8 * i);
    }
  }

  /** The index stream: four bytes with the number of records, then eight for the end of each run of first records. */
  lemma {:induction false} IndexLayout(rs: seq<Bytes>, i: nat)
    requires i <= |rs|
    ensures IndexFile(rs)[..4] == Encode(|rs|, 4)
    ensures IndexFile(rs)[4 + 8 * i..4 + 8 * i + 8] == Encode(|Flat(rs[..i])|, 8)
  {
    hide Words, Encode, Offsets;
    WordsAt(Offsets(rs), i);
    OffsetAt(rs, i);
    SliceBehind(CountBytes(|rs|), Words(Offsets(rs)), 8 * i, 8 * i + 8);
  }

  lemma {:induction false} Snoc(rs: seq<Bytes>, x: Bytes)
    ensures Flat(rs + [x]) == Flat(rs) + x
    ensures Offsets(rs + [x]) == Offsets(rs) + [|Flat(rs)| + |x|]
  {
    assert (rs + [x])[..|rs|] == rs;
  }

  lemma {:induction false} FlatConcat(a: seq<Bytes>, b: seq<Bytes>)
    ensures Flat(a + b) == Flat(a) + Flat(b)
  {
    if b == [] {
      assert a + b == a;
    } else {
      var k := |b| - 1;
      FlatConcat(a, b[..k]);
      assert (a + b)[..|a + b| - 1] == a + b[..k] && (a + b)[|a + b| - 1] == b[k];
      Associate(Flat(a), Flat(b[..k]), b[k]);
    }
  }

  lemma {:induction false} MiddleOf(a: Bytes, b: Bytes, c: Bytes)
    ensures ((a + b) + c)[|a|..|a + b|] == b
  {
  }

  /** Offset i is where the first i records end. */
  lemma {:induction false} OffsetAt(rs: seq<Bytes>, i: nat)
    requires i <= |rs|
    ensures Offsets(rs)[i] == |Flat(rs[..i])| <= |Flat(rs)|
  {
    if i == |rs| {
      assert rs[..i] == rs;
    } else {
      OffsetAt(rs[..|rs| - 1], i);
      assert rs[..|rs| - 1][..i] == rs[..i];
    }
  }

  lemma {:induction false} FlatThree(p: seq<Bytes>, m: seq<Bytes>, q: seq<Bytes>)
    ensures Flat(p + m) == Flat(p) + Flat(m)
    ensures |Flat(p + m)| <= |Flat(p + m + q)|
    ensures Flat(p + m + q)[|Flat(p)|..|Flat(p + m)|] == Flat(m)
  {
    FlatConcat(p + m, q);
    FlatConcat(p, m);
    MiddleOf(Flat(p), Flat(m), Flat(q));
  }

  /** The bytes between two offsets are the records between the two indices. */
  lemma {:induction false} FlatSlice(rs: seq<Bytes>, a: nat, b: nat)
    requires a <= b <= |rs|
    ensures Offsets(rs)[a] <= Offsets(rs)[b] <= |Flat(rs)|
    ensures Flat(rs[a..b]) == Flat(rs)[Offsets(rs)[a]..Offsets(rs)[b]]
  {
    OffsetAt(rs, a);
    OffsetAt(rs, b);
    FlatThree(rs[..a], rs[a..b], rs[b..]);
    assert rs[..a] + rs[a..b] == rs[..b];
    assert rs[..b] + rs[b..] == rs;
  }

  lemma {:induction false} RecordBytes(rs: seq<Bytes>, i: nat)
    requires i < |rs|
    ensures Offsets(rs)[i] <= Offsets(rs)[i + 1] <= |Flat(rs)|
    ensures rs[i] == Flat(rs)[Offsets(rs)[i]..Offsets(rs)[i + 1]]
  {
    FlatSlice(rs, i, i + 1);
    assert rs[i..i + 1] == [] + [rs[i]];
    Snoc([], rs[i]);
  }

  /** The offsets of a slice are the offsets within it, less the first of them. */
  lemma {:induction false} OffsetsSlice(rs: seq<Bytes>, a: nat, b: nat, i: nat)
    requires a <= b <= |rs| && i <= b - a
    ensures Offsets(rs)[a] <= Offsets(rs)[a + i]
    ensures Offsets(rs[a..b])[i] == Offsets(rs)[a + i] - Offsets(rs)[a]
  {
    FlatSlice(rs, a, a + i);
    OffsetAt(rs[a..b], i);
    assert rs[a..b][..i] == rs[a..a + i];
  }

  /** Offsets and bytes as a set keeps them: the first `count` records in front, the rest behind. */
  predicate Stored(offsets: seq<nat>, front: Bytes, tail: Bytes, count: nat, rs: seq<Bytes>) {
    && offsets == Offsets(rs) && count <= |rs|
    && front + tail == Flat(rs) && |front| == offsets[count]
  }

  lemma {:induction false} StoredAdd(offsets: seq<nat>, front: Bytes, tail: Bytes, count: nat, rs: seq<Bytes>, x: Bytes)
    requires Stored(offsets, front, tail, count, rs)
    ensures offsets != []
    ensures Stored(offsets + [offsets[|offsets| - 1] + |x|], front, tail + x, count, rs + [x])
  {
    Snoc(rs, x);
    Associate(front, tail, x);
  }

  lemma {:induction false} InFront(front: Bytes, tail: Bytes, all: Bytes, a: nat, b: nat)
    requires front + tail == all && a <= b <= |front|
    ensures b <= |all| && front[a..b] == all[a..b]
  {
    assert all[a..b] == (front + tail)[a..b];
  }

  lemma {:induction false} InTail(front: Bytes, tail: Bytes, all: Bytes, a: nat, b: nat)
    requires front + tail == all && |front| <= a <= b <= |all|
    ensures b - |front| <= |tail| && tail[a - |front|..b - |front|] == all[a..b]
  {
    assert |all| == |front| + |tail|;
    assert all[a..b] == (front + tail)[a..b];
  }

  /** Reading record i across the boundary between front and tail. */
  lemma {:induction false} StoredGet(offsets: seq<nat>, front: Bytes, tail: Bytes, count: nat, rs: seq<Bytes>, i: nat)
    requires Stored(offsets, front, tail, count, rs) && i < |rs|
    ensures offsets[i] <= offsets[i + 1]
    ensures i < count ==> offsets[i + 1] <= |front| && rs[i] == front[offsets[i]..offsets[i + 1]]
    ensures i >= count ==>
              && offsets[count] <= offsets[i] && offsets[i + 1] - offsets[count] <= |tail|
              && rs[i] == tail[offsets[i] - offsets[count]..offsets[i + 1] - offsets[count]]
  {
    RecordBytes(rs, i);
    if i < count {
      OffsetsOrdered(rs, i + 1, count);
      InFront(front, tail, Flat(rs), offsets[i], offsets[i + 1]);
    } else {
      OffsetsOrdered(rs, count, i);
      InTail(front, tail, Flat(rs), offsets[i], offsets[i + 1]);
    }
  }

  lemma {:induction false} OffsetsGrow(rs: seq<Bytes>, more: seq<Bytes>)
    ensures Offsets(rs) <= Offsets(rs + more)
  {
    if more == [] {
      assert rs + more == rs;
    } else {
      var k := |more| - 1;
      OffsetsGrow(rs, more[..k]);
      assert rs + more == (rs + more[..k]) + [more[k]];
      Snoc(rs + more[..k], more[k]);
    }
  }

  /** Equal offsets and bytes mean equal records: the two streams determine the list. */
  lemma {:induction false} StreamsDetermine(a: seq<Bytes>, b: seq<Bytes>)
    requires Flat(a) == Flat(b) && Offsets(a) == Offsets(b)
    ensures a == b
  {
    forall i | 0 <= i < |a| ensures a[i] == b[i] {
      RecordBytes(a, i);
      RecordBytes(b, i);
    }
  }

  datatype Index = Bad | Index(count: nat, offsets: seq<nat>)

  /** Reading the index stream: a signed 32-bit count, then count + 1 offsets. */
  function ParseIndex(b: Bytes): (r: Index)
    ensures r.Index? ==> |r.offsets| == r.count + 1
  {
    if |b| < 4 then Bad
    else
      var n := CountOf(b[..4]);
      if n >= 0x8000_0000 then Bad else ParseOffsets(n, b[4..])
  }

  function ParseOffsets(n: nat, b: Bytes): (r: Index)
    ensures r.Index? ==> |r.offsets| == r.count + 1
  {
    if |b| < 8 * (n + 1) then Bad else Index(n, Unwords(b[..8 * (n + 1)]))
  }

  /** Counts and offsets that fit their fields. */
  predicate Fits(rs: seq<Bytes>) {
    |rs| < 0x8000_0000 && |Flat(rs)| < WORD
  }

  lemma {:induction false} ParseIndexFile(rs: seq<Bytes>)
    requires Fits(rs)
    ensures ParseIndex(IndexFile(rs)) == Index(|rs|, Offsets(rs))
  {
    var b, os := IndexFile(rs), Offsets(rs);
    CountOfBytes(|rs|);
    forall i | 0 <= i < |os| ensures os[i] < WORD {
      OffsetAt(rs, i);
    }
    UnwordsWords(os);
    assert b[..4] == CountBytes(|rs|) && b[4..] == Words(os) && Words(os)[..8 * (|rs| + 1)] == Words(os);
  }

  /** `ReadBinary` at a position: what the stream holds, up to n bytes. */
  function Read(file: Bytes, at: nat, n: nat): (r: Bytes)
    ensures |r| <= n
  {
    if at >= |file| then [] else if at + n > |file| then file[at..] else file[at..at + n]
  }

  /** `GetMetadata` of a file-backed set. A filed record is read into a new buffer; bytes that the file does not hold
      stay as they were in it. */
  function Lookup(offsets: seq<nat>, file: Bytes, tail: Bytes, count: nat, i: nat, buffer: Bytes): (r: Bytes)
    requires i + 1 < |offsets| && count < |offsets| && offsets[i] <= offsets[i + 1]
    requires (i >= count ==> offsets[count] <= offsets[i]) && |buffer| == offsets[i + 1] - offsets[i]
  {
    if i < count then Filled(Read(file, offsets[i], offsets[i + 1] - offsets[i]), buffer)
    else Read(tail, offsets[i] - offsets[count], offsets[i + 1] - offsets[i])
  }

  /** A buffer after a read of at most its length. */
  function Filled(got: Bytes, buffer: Bytes): (r: Bytes)
    requires |got| <= |buffer|
    ensures |r| == |buffer|
  {
    got + buffer[|got|..]
  }

  lemma {:induction false} FullRead(file: Bytes, at: nat, n: nat, buffer: Bytes)
    requires at + n <= |file| && |buffer| == n
    ensures Filled(Read(file, at, n), buffer) == file[at..at + n]
  {
  }

  lemma {:induction false} LookupFinds(offsets: seq<nat>, file: Bytes, tail: Bytes, count: nat, rs: seq<Bytes>, i: nat, buffer: Bytes)
    requires Stored(offsets, file, tail, count, rs) && i < |rs|
    ensures offsets[i] <= offsets[i + 1] && (i >= count ==> offsets[count] <= offsets[i])
    ensures |buffer| == offsets[i + 1] - offsets[i] ==> Lookup(offsets, file, tail, count, i, buffer) == rs[i]
  {
    StoredGet(offsets, file, tail, count, rs, i);
    if i < count && |buffer| == offsets[i + 1] - offsets[i] {
      FullRead(file, offsets[i], |buffer|, buffer);
    }
  }

  lemma {:induction false} OffsetsOrdered(rs: seq<Bytes>, i: nat, j: nat)
    requires i <= j <= |rs|
    ensures Offsets(rs)[i] <= Offsets(rs)[j]
  {
    FlatSlice(rs, i, j);
  }

  /** Front and tail cut after n records. */
  lemma {:induction false} StoredSplit(all: seq<Bytes>, n: nat)
    requires n <= |all|
    ensures Stored(Offsets(all), Flat(all[..n]), Flat(all[n..]), n, all)
  {
    OffsetAt(all, n);
    FlatConcat(all[..n], all[n..]);
    assert all[..n] + all[n..] == all;
  }

  /** The bytes of the file from where the records added between the locked regions would start: none. */
  lemma {:induction false} NothingRead(all: seq<Bytes>, n: nat, m: nat, i: nat, buffer: Bytes)
    requires n <= i < m <= |all| && |buffer| == |all[i]|
    ensures Offsets(all)[i] <= Offsets(all)[i + 1] && Offsets(all)[i + 1] - Offsets(all)[i] == |all[i]|
    ensures Lookup(Offsets(all), Flat(all[..n]), Flat(all[m..]), m, i, buffer) == buffer
  {
    RecordBytes(all, i);
    OffsetAt(all, n);
    OffsetsOrdered(all, n, i);
    assert Filled([], buffer) == buffer;
  }

  /** A record added before or after the two locked regions reads back, whatever the new buffer holds. */
  lemma {:induction false} KeptOutside(all: seq<Bytes>, n: nat, m: nat, i: nat, buffer: Bytes)
    requires n <= m <= |all| && i < |all| && !(n <= i < m) && |buffer| == |all[i]|
    ensures Offsets(all)[i] <= Offsets(all)[i + 1] && Offsets(all)[i + 1] - Offsets(all)[i] == |all[i]|
    ensures i >= m ==> Offsets(all)[m] <= Offsets(all)[i]
    ensures Lookup(Offsets(all), Flat(all[..n]), Flat(all[m..]), m, i, buffer) == all[i]
  {
    RecordBytes(all, i);
    var k := if i >= m then m else n;
    StoredSplit(all, k);
    LookupFinds(Offsets(all), Flat(all[..k]), Flat(all[k..]), k, all, i, buffer);
  }

  /** What `GetMetadata(i)` finds after a file save whose two locked regions enclose additions: the file holds the
      bytes of the first n records, the first m count as filed and the tail holds those added later. */
  function AfterSave(all: seq<Bytes>, n: nat, m: nat, i: nat, buffer: Bytes): (r: Bytes)
    requires n <= m <= |all| && i < |all| && |buffer| == |all[i]|
  {
    RecordBytes(all, i);
    if i >= m then OffsetsOrdered(all, m, i); Lookup(Offsets(all), Flat(all[..n]), Flat(all[m..]), m, i, buffer)
    else Lookup(Offsets(all), Flat(all[..n]), Flat(all[m..]), m, i, buffer)
  }

  /** After such a save record i reads back, whatever the new buffer holds, exactly when it is not one of those added in
      between, or is empty. A lost record reads as what was in the buffer. */
  lemma {:induction false} LostBetween(all: seq<Bytes>, n: nat, m: nat, i: nat)
    requires n <= m <= |all| && i < |all|
    ensures (forall buffer | |buffer| == |all[i]| :: AfterSave(all, n, m, i, buffer) == all[i]) <==>
              i < n || i >= m || all[i] == []
    ensures n <= i < m ==> forall buffer | |buffer| == |all[i]| :: AfterSave(all, n, m, i, buffer) == buffer
  {
    if n <= i < m {
      forall buffer | |buffer| == |all[i]| ensures AfterSave(all, n, m, i, buffer) == buffer {
        NothingRead(all, n, m, i, buffer);
      }
      if all[i] != [] {
        var other := Different(all[i]);
        assert AfterSave(all, n, m, i, other) == other;
      }
    } else {
      forall buffer | |buffer| == |all[i]| ensures AfterSave(all, n, m, i, buffer) == all[i] {
        KeptOutside(all, n, m, i, buffer);
      }
    }
  }

  /** Other bytes of the same length. */
  function Different(b: Bytes): (r: Bytes)
    requires b != []
    ensures |r| == |b| && r != b
  {
    var r := b[0 := if b[0] == 0 then 1 else 0];
    assert r[0] != b[0];
    r
  }

  /** Such a save leaves a consistent set exactly when the records added in between hold no bytes. */
  lemma {:induction false} ConsistentIff(rs: seq<Bytes>, between: seq<Bytes>)
    ensures Stored(Offsets(rs + between), Flat(rs), [], |rs| + |between|, rs + between) <==> Flat(between) == []
  {
    FlatConcat(rs, between);
    assert Flat(rs) + [] == Flat(rs);
    if Flat(between) == [] {
      assert Flat(rs) + Flat(between) == Flat(rs);
    }
  }
}
