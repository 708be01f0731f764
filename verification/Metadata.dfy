/** File-backed and in-memory metadata sets: both keep a list of byte records. */
module Metadata {
  import opened Arith
  import opened Collections
  import opened Records
  import BlockVector

  const BUFFER := 1_000_000

  /** The total of the bytes, and of the index, that saving a set writes. */
  datatype Sizes = Sizes(meta: nat, index: nat)

  /** `FileMetadataSet`: the first `count` records in a file, later ones in memory. */
  class FileSet {
    var file: Bytes
    var offsets: seq<nat>
    var count: nat
    var newdata: Bytes
    ghost var records: seq<Bytes>

    ghost predicate Valid()
      reads this
    {
      Stored(offsets, file, newdata, count, records)
    }

    constructor ()
      ensures Valid() && records == []
    {
      file, offsets, count, newdata, records := [], [0], 0, [], [];
    }

    /** Open the two streams. Any readable index is taken; streams saved for rs give back rs. */
    method Open(meta: Bytes, index: Bytes, ghost rs: seq<Bytes>) returns (ok: bool)
      modifies this
      ensures ok <==> ParseIndex(index).Index?
      ensures SavedFor(meta, index, rs) ==> ok && Valid() && records == rs
    {
      hide Flat, Offsets, IndexFile;
      if SavedFor(meta, index, rs) {
        FiledAll(rs);
      }
      var parsed := ParseIndex(index);
      ok := parsed.Index?;
      if ok {
        file, offsets, count, newdata, records := meta, parsed.offsets, parsed.count, [], rs;
      }
    }

    method GetMetadata(i: nat) returns (r: Bytes)
      requires Valid() && i < |records|
      ensures r == records[i]
    {
      LookupFinds(offsets, file, newdata, count, records, i, []);
      var buffer := NewBuffer(offsets[i + 1] - offsets[i]);
      LookupFinds(offsets, file, newdata, count, records, i, buffer);
      r := Lookup(offsets, file, newdata, count, i, buffer);
    }

    method Count() returns (n: nat)
      requires Valid()
      ensures n == |records|
    {
      n := |offsets| - 1;
    }

    method BufferSize() returns (r: Sizes)
      requires Valid()
      ensures r == Sizes(|Flat(records)|, |IndexFile(records)|)
    {
      r := Sizes(offsets[|offsets| - 1], 4 + 8 * |offsets|);
    }

    method Add(data: Bytes)
      requires Valid()
      modifies this`newdata, this`offsets, this`records
      ensures Valid() && records == old(records) + [data]
    {
      StoredAdd(offsets, file, newdata, count, records, data);
      newdata := newdata + data;
      offsets := offsets + [offsets[|offsets| - 1] + |data|];
      records := records + [data];
    }

    /** Copy the file by one buffer at a time. */
    method CopyFile() returns (out: Bytes)
      ensures out == file
    {
      out := [];
      var chunk := Read(file, 0, BUFFER);
      while |chunk| > 0
        invariant out <= file && chunk == Read(file, |out|, BUFFER)
        decreases |file| - |out|
      {
        out := out + chunk;
        chunk := Read(file, |out|, BUFFER);
      }
    }

    /** `SaveMetadata` to two streams. */
    method SaveStreams() returns (meta: Bytes, index: Bytes)
      requires Valid()
      ensures meta == Flat(records) && index == IndexFile(records)
    {
      var n := Count();
      index := CountBytes(n) + Words(offsets);
      meta := CopyFile();
      if |newdata| > 0 {
        meta := meta + newdata;
      } else {
        assert file + newdata == file;
      }
    }

    /** The second locked region of `SaveMetadata` to files: the saved stream becomes the file. */
    method SwitchFile(meta: Bytes)
      requires offsets != []
      modifies this`file, this`count, this`newdata
      ensures file == meta && count == |offsets| - 1 && newdata == []
    {
      file, count, newdata := meta, |offsets| - 1, [];
    }

    method AddAll(more: seq<Bytes>)
      requires Valid()
      modifies this`newdata, this`offsets, this`records
      ensures Valid() && records == old(records) + more
    {
      var i := 0;
      while i < |more|
        invariant 0 <= i <= |more| && Valid() && records == old(records) + more[..i]
      {
        Add(more[i]);
        assert more[..i + 1] == more[..i] + [more[i]];
        i := i + 1;
      }
      assert more[..i] == more;
    }

    /** `SaveMetadata` to files, with additions by other threads between its two locked regions. */
    method SaveFiles(between: seq<Bytes>) returns (meta: Bytes, index: Bytes)
      requires Valid()
      modifies this
      ensures meta == Flat(old(records)) && index == IndexFile(old(records))
      ensures records == old(records) + between && offsets == Offsets(records)
      ensures file == meta && count == |records| && newdata == []
      ensures Valid() <==> Flat(between) == []
    {
      meta, index := SaveStreams();
      ghost var rs := records;
      AddAll(between);
      SwitchFile(meta);
      ConsistentIff(rs, between);
    }

    /** With no addition in between, every record still reads back, and a set opened on the files holds the same
        records. */
    method SaveAndReopen() returns (copy: FileSet, ok: bool)
      requires Valid() && Fits(records)
      modifies this
      ensures Valid() && records == old(records)
      ensures ok && copy.Valid() && copy.records == records
    {
      var meta, index := SaveFiles([]);
      assert records == old(records) + [] == old(records);
      copy := new FileSet();
      ok := copy.Open(meta, index, records);
    }
  }

  /** A newly allocated buffer, with whatever it holds. */
  method NewBuffer(n: nat) returns (r: Bytes)
    ensures |r| == n
  {
    var memory := new Byte[n];
    r := memory[..];
  }

  lemma {:induction false} FiledAll(rs: seq<Bytes>)
    requires Fits(rs)
    ensures ParseIndex(IndexFile(rs)) == Index(|rs|, Offsets(rs)) && Stored(Offsets(rs), Flat(rs), [], |rs|, rs)
  {
    ParseIndexFile(rs);
    assert Flat(rs) + [] == Flat(rs);
  }

  /** The bytes from a up to b. */
  function Cut(bytes: Bytes, a: nat, b: nat): Bytes
    requires a <= b <= |bytes|
  {
    bytes[a..b]
  }

  lemma {:induction false} PartFinds(offsets: seq<nat>, front: Bytes, tail: Bytes, count: nat, rs: seq<Bytes>, i: nat)
    requires Stored(offsets, front, tail, count, rs) && i < |rs|
    ensures |offsets| == |rs| + 1 && offsets[i] <= offsets[i + 1]
    ensures i < count ==> offsets[i + 1] <= |front| && rs[i] == Cut(front, offsets[i], offsets[i + 1])
    ensures i >= count ==>
              && offsets[count] <= offsets[i] && offsets[i + 1] - offsets[count] <= |tail|
              && rs[i] == Cut(tail, offsets[i] - offsets[count], offsets[i + 1] - offsets[count])
  {
    StoredGet(offsets, front, tail, count, rs, i);
  }

  lemma {:induction false} Undo(a: Bytes, b: Bytes)
    ensures (a + b)[..|a + b| - |b|] == a
  {
  }

  /** `MemMetadataSet`: the loaded records in a fixed holder, later ones in a growing tail, the offsets in a block
      vector of limited size. */
  class MemSet {
    var offsets: BlockVector.Blocks<nat>
    var count: nat
    var holder: Bytes
    var newdata: Bytes
    ghost var records: seq<Bytes>

    ghost predicate Valid()
      reads this, offsets, offsets.owned
    {
      offsets.Valid() && Stored(offsets.items, holder, newdata, count, records)
    }

    /** No further record is taken. A limit of 0 wraps around and never refuses. */
    ghost predicate Full()
      reads this, offsets
    {
      0 < offsets.maxSize <= |records| + 1
    }

    constructor (blockSize: nat, limit: nat)
      requires 0 < blockSize && limit < WORD
      ensures Valid() && records == [] && newdata == [] && offsets.maxSize == limit
      ensures fresh(offsets) && fresh(offsets.owned)
    {
      count, holder, newdata, records := 0, [], [], [];
      offsets := new BlockVector.Blocks();
      new;
      StartOffsets(blockSize, limit);
      assert Stored([0], [], [], 0, []);
    }

    method StartOffsets(blockSize: nat, limit: nat)
      requires 0 < blockSize && limit < WORD && offsets.Valid() && offsets.blocks == []
      modifies offsets, offsets.owned
      ensures offsets.Valid() && offsets.items == [0] && offsets.maxSize == limit
      ensures fresh(offsets.owned - old(offsets.owned))
    {
      offsets.Reserve(blockSize, limit);
      var _ := offsets.PushBack(0);
    }

    method GetMetadata(i: nat) returns (r: Bytes)
      requires Valid() && i < |records|
      ensures r == records[i]
    {
      var start, end, base := Locate(i);
      PartFinds(offsets.items, holder, newdata, count, records, i);
      r := if i < count then Cut(holder, start, end) else Cut(newdata, start - base, end - base);
    }

    method Locate(i: nat) returns (start: nat, end: nat, base: nat)
      requires offsets.Valid() && i + 1 < |offsets.items| && count < |offsets.items|
      ensures start == offsets.items[i] && end == offsets.items[i + 1] && base == offsets.items[count]
    {
      start := offsets.Index(i);
      end := offsets.Index(i + 1);
      base := offsets.Index(count);
    }

    method Count() returns (n: nat)
      requires Valid()
      ensures n == |records|
    {
      n := offsets.size - 1;
    }

    method BufferSize() returns (r: Sizes)
      requires Valid()
      ensures r == Sizes(|Flat(records)|, |IndexFile(records)|)
    {
      var last := offsets.Back();
      r := Sizes(last, 4 + 8 * offsets.size);
    }

    /** Push the offset where a further record of n bytes ends. */
    method PushOffset(n: nat) returns (ok: bool)
      requires offsets.Valid() && 0 < |offsets.items| && offsets.size + 1 < WORD
      modifies offsets, offsets.owned
      ensures offsets.Valid() && offsets.owned >= old(offsets.owned) && fresh(offsets.owned - old(offsets.owned))
      ensures offsets.maxSize == old(offsets.maxSize)
      ensures ok <==> !(0 < offsets.maxSize <= |old(offsets.items)|)
      ensures ok ==> offsets.items == old(offsets.items) + [old(offsets.items)[|old(offsets.items)| - 1] + n]
      ensures !ok ==> offsets.items == old(offsets.items)
    {
      var last := offsets.Back();
      ok := offsets.PushBack(last + n);
    }

    /** The bytes go in first; a refused offset takes them out again. */
    method Add(data: Bytes)
      requires Valid() && |records| + 2 < WORD
      modifies this`newdata, this`records, offsets, offsets.owned
      ensures Valid() && offsets.owned >= old(offsets.owned) && fresh(offsets.owned - old(offsets.owned))
      ensures offsets.maxSize == old(offsets.maxSize)
      ensures records == if old(Full()) then old(records) else old(records) + [data]
    {
      StoredAdd(offsets.items, holder, newdata, count, records, data);
      Undo(newdata, data);
      newdata := newdata + data;
      var ok := PushOffset(|data|);
      if ok {
        records := records + [data];
      } else {
        newdata := newdata[..|newdata| - |data|];
      }
    }

    method SaveIndex() returns (index: Bytes)
      requires Valid()
      ensures index == IndexFile(records)
    {
      var n := Count();
      index := CountBytes(n);
      var i := 0;
      NoWords(n, offsets.items);
      while i <= n
        invariant 0 <= i <= n + 1 && IndexPart(index, n, offsets.items, i)
      {
        var offset := offsets.Index(i);
        index := PutWord(index, offset, n, offsets.items, i);
        i := i + 1;
      }
      AllWords(index, n, offsets.items);
    }

    /** `SaveMetadata` to two streams. */
    method SaveStreams() returns (meta: Bytes, index: Bytes)
      requires Valid()
      ensures meta == Flat(records) && index == IndexFile(records)
    {
      hide Flat, IndexFile;
      index := SaveIndex();
      var front := offsets.Index(count);
      var all := offsets.Back();
      WholeStore(offsets.items, holder, newdata, count, records);
      meta := holder[..front];
      if |newdata| > 0 {
        meta := meta + newdata[..all - front];
      }
    }

    /** `RefineMetadata` into a new set: the records at the given indices, in order, as many as the limit takes. */
    method Refine(indices: seq<nat>, blockSize: nat, limit: nat) returns (refined: MemSet)
      requires Valid() && InRange(indices, |records|)
      requires 0 < blockSize && limit < WORD && |indices| + 2 < WORD
      ensures refined.Valid() && fresh(refined)
      ensures refined.records == Picks(records, indices)[..Taken(|indices|, limit)]
    {
      refined := new MemSet(blockSize, limit);
      refined.AddPicks(this, indices, Picks(records, indices));
    }

    method AddPicks(from: MemSet, indices: seq<nat>, ghost rs: seq<Bytes>)
      requires from.Valid() && from.PicksAre(indices, rs) && |indices| + 2 < WORD
      requires from != this && from.offsets != offsets && from.offsets.owned !! offsets.owned
      requires Refining(rs, 0, offsets.maxSize)
      modifies this`newdata, this`records, offsets, offsets.owned
      ensures Refining(rs, |rs|, old(offsets.maxSize))
    {
      var i := 0;
      while i < |indices|
        invariant 0 <= i <= |indices| && Refining(rs, i, old(offsets.maxSize))
        invariant fresh(offsets.owned - old(offsets.owned))
      {
        var meta := from.GetPick(indices, i, rs);
        AddPick(meta, rs, i);
        i := i + 1;
      }
    }

    ghost predicate PicksAre(indices: seq<nat>, rs: seq<Bytes>)
      reads this
    {
      InRange(indices, |records|) && rs == Picks(records, indices)
    }

    method GetPick(indices: seq<nat>, i: nat, ghost rs: seq<Bytes>) returns (meta: Bytes)
      requires Valid() && i < |indices| && PicksAre(indices, rs)
      ensures meta == rs[i]
    {
      meta := GetMetadata(indices[i]);
    }

    /** Of the first i picked records, as many as fit are in. */
    ghost predicate Refining(rs: seq<Bytes>, i: nat, limit: nat)
      requires i <= |rs|
      reads this, offsets, offsets.owned
    {
      Valid() && offsets.maxSize == limit && records == rs[..Taken(i, limit)]
    }

    method AddPick(meta: Bytes, ghost rs: seq<Bytes>, ghost i: nat)
      requires i < |rs| && Refining(rs, i, offsets.maxSize) && meta == rs[i] && |rs| + 2 < WORD
      modifies this`newdata, this`records, offsets, offsets.owned
      ensures Refining(rs, i + 1, old(offsets.maxSize))
      ensures offsets.owned >= old(offsets.owned) && fresh(offsets.owned - old(offsets.owned))
    {
      ghost var limit := offsets.maxSize;
      Add(meta);
      if Taken(i + 1, limit) > Taken(i, limit) {
        assert rs[..i + 1] == rs[..i] + [rs[i]];
      }
    }

    /** `RefineMetadata` to two streams. */
    method RefineStreams(indices: seq<nat>) returns (meta: Bytes, index: Bytes)
      requires Valid() && InRange(indices, |records|)
      ensures meta == Flat(Picks(records, indices)) && index == IndexFile(Picks(records, indices))
    {
      index := RefineIndex(indices);
      meta := RefineBytes(indices);
    }

    method RefineIndex(indices: seq<nat>) returns (index: Bytes)
      requires Valid() && InRange(indices, |records|)
      ensures index == IndexFile(Picks(records, indices))
    {
      hide Offsets, IndexPart;
      ghost var rs := Picks(records, indices);
      index := CountBytes(|indices|);
      var offset := 0;
      var i := 0;
      NoWords(|indices|, Offsets(rs));
      OffsetAt(rs, 0);
      while i < |indices|
        invariant 0 <= i <= |indices| && PicksAre(indices, rs)
        invariant offset == Offsets(rs)[i] && IndexPart(index, |rs|, Offsets(rs), i)
      {
        index, offset := RefineOffset(indices, i, index, offset, rs);
        i := i + 1;
      }
      index := PutWord(index, offset, |rs|, Offsets(rs), i);
      AllWords(index, |rs|, Offsets(rs));
    }

    method RefineOffset(indices: seq<nat>, i: nat, index: Bytes, offset: nat, ghost rs: seq<Bytes>)
      returns (index': Bytes, offset': nat)
      requires Valid() && i < |indices| && PicksAre(indices, rs)
      requires offset == Offsets(rs)[i] && IndexPart(index, |rs|, Offsets(rs), i)
      ensures offset' == Offsets(rs)[i + 1] && IndexPart(index', |rs|, Offsets(rs), i + 1)
    {
      index' := PutWord(index, offset, |rs|, Offsets(rs), i);
      var one := GetPick(indices, i, rs);
      OffsetNext(rs, i);
      offset' := offset + |one|;
    }

    method RefineBytes(indices: seq<nat>) returns (meta: Bytes)
      requires Valid() && InRange(indices, |records|)
      ensures meta == Flat(Picks(records, indices))
    {
      ghost var rs := Picks(records, indices);
      meta := [];
      var i := 0;
      while i < |indices|
        invariant 0 <= i <= |indices| && meta == Flat(rs[..i])
      {
        var one := GetMetadata(indices[i]);
        FlatNext(rs, i);
        meta := meta + one;
        i := i + 1;
      }
      assert rs[..i] == rs;
    }

    /** `Init`: records [start, start + wanted) of the streams, clamped; a negative `wanted` means all. The offset
        vector takes them whatever its limit. The tail is not cleared, so the set must have had none. */
    method Init(meta: Bytes, index: Bytes, blockSize: nat, limit: nat, start: nat, wanted: int, ghost rs: seq<Bytes>)
      returns (ok: bool)
      requires 0 < blockSize && limit < WORD
      modifies this
      ensures !ParseIndex(index).Index? ==> !ok
      ensures SavedFor(meta, index, rs) ==>
                && ok && fresh(offsets) && fresh(offsets.owned) && offsets.maxSize == limit
                && count == |records| && (Valid() <==> old(newdata) == [])
                && (start >= |rs| ==> records == [])
                && (start < |rs| && wanted < 0 ==> records == rs[start..])
                && (start < |rs| && wanted >= 0 ==> records == rs[start..if wanted <= |rs| - start then start + wanted else |rs|])
    {
      var part := ReadStreams(meta, index, start, wanted, rs);
      ok := part.Part?;
      if ok {
        SetOffsets(blockSize, limit, part.offsets);
        SetHolder(part.front, |part.offsets| - 1, Range(rs, start, wanted));
        if SavedFor(meta, index, rs) {
          OnlyHolder(part.offsets, holder, newdata, count, records);
          RangeIs(rs, start, wanted);
        }
      }
    }

    method SetHolder(front: Bytes, n: nat, ghost rs: seq<Bytes>)
      modifies this`holder, this`count, this`records
      ensures holder == front && count == n && records == rs
    {
      holder, count, records := front, n, rs;
    }

    /** Saving to two streams and loading a range of them gives exactly that range of the records. */
    method SaveAndLoad(start: nat, wanted: int, blockSize: nat, limit: nat) returns (copy: MemSet, ok: bool)
      requires Valid() && Fits(records) && 0 < blockSize && limit < WORD
      ensures ok && copy.Valid()
      ensures start >= |records| ==> copy.records == []
      ensures start < |records| && wanted < 0 ==> copy.records == records[start..]
      ensures start < |records| && wanted >= 0 ==>
                copy.records == records[start..if wanted <= |records| - start then start + wanted else |records|]
    {
      var meta, index := SaveStreams();
      copy := new MemSet(blockSize, limit);
      ok := copy.Init(meta, index, blockSize, limit, start, wanted, records);
    }

    method SetOffsets(blockSize: nat, limit: nat, items: seq<nat>)
      requires 0 < blockSize && limit < WORD && 0 < |items| < WORD
      modifies this`offsets
      ensures fresh(offsets) && fresh(offsets.owned) && offsets.Valid()
      ensures offsets.items == items && offsets.maxSize == limit
    {
      offsets := new BlockVector.Blocks();
      offsets.Reserve(blockSize, limit);
      var _ := offsets.Assign(items);
      assert [] + items == items;
    }
  }

  /** A holder with all the records goes with an empty tail only. */
  lemma {:induction false} OnlyHolder(offsets: seq<nat>, holder: Bytes, tail: Bytes, count: nat, rs: seq<Bytes>)
    requires Stored(offsets, holder, [], count, rs)
    ensures Stored(offsets, holder, tail, count, rs) <==> tail == []
  {
    assert |holder + []| == |holder| && |holder + tail| == |holder| + |tail|;
  }

  /** Streams saved for rs, read from record `from` on: the rebased offsets and the bytes from the first offset. */
  lemma {:induction false} RangeStored(rs: seq<Bytes>, from: nat, n: nat, rebased: seq<nat>)
    requires from + n <= |rs| && |rebased| == n + 1
    requires forall i | 0 <= i <= n :: rebased[i] == Less(Offsets(rs)[from + i], Offsets(rs)[from])
    ensures var front := Read(Flat(rs), Offsets(rs)[from], rebased[n]);
            |front| == rebased[n] && Stored(rebased, front, [], n, rs[from..from + n])
  {
    var part := rs[from..from + n];
    forall i | 0 <= i <= n ensures rebased[i] == Offsets(part)[i] {
      OffsetsSlice(rs, from, from + n, i);
    }
    FlatSlice(rs, from, from + n);
    assert rebased == Offsets(part);
    assert Flat(part) + [] == Flat(part);
  }

  predicate InRange(indices: seq<nat>, n: nat) {
    forall i | 0 <= i < |indices| :: indices[i] < n
  }

  /** The records at the given indices. */
  function Picks(rs: seq<Bytes>, indices: seq<nat>): (r: seq<Bytes>)
    requires InRange(indices, |rs|)
    ensures |r| == |indices| && forall i | 0 <= i < |r| :: r[i] == rs[indices[i]]
  {
    seq(|indices|, i requires 0 <= i < |indices| => rs[indices[i]])
  }

  /** How many of n records an empty set takes: its offset vector also holds the leading 0. */
  function Taken(n: nat, limit: nat): (r: nat)
    ensures r <= n
  {
    if limit == 0 || n + 1 <= limit then n else limit - 1
  }

  lemma {:induction false} OffsetNext(rs: seq<Bytes>, i: nat)
    requires i < |rs|
    ensures Offsets(rs)[i + 1] == Offsets(rs)[i] + |rs[i]|
  {
    RecordBytes(rs, i);
  }

  lemma {:induction false} FlatNext(rs: seq<Bytes>, i: nat)
    requires i < |rs|
    ensures Flat(rs[..i + 1]) == Flat(rs[..i]) + rs[i]
  {
    assert rs[..i + 1] == rs[..i] + [rs[i]];
    Snoc(rs[..i], rs[i]);
  }

  /** The two streams that saving rs writes. */
  predicate SavedFor(meta: Bytes, index: Bytes, rs: seq<Bytes>) {
    index == IndexFile(rs) && meta == Flat(rs) && Fits(rs)
  }

  datatype Part = None | Part(offsets: seq<nat>, front: Bytes)

  /** What reading a range of the streams gives: nothing, or offsets and bytes; for saved streams those of the range. */
  ghost predicate ReadsRange(part: Part, meta: Bytes, index: Bytes, start: nat, wanted: int, rs: seq<Bytes>) {
    && (ParseIndex(index).Bad? ==> part.None?)
    && (part.Part? ==> 0 < |part.offsets| < WORD)
    && (SavedFor(meta, index, rs) ==>
          part.Part? && Stored(part.offsets, part.front, [], |part.offsets| - 1, Range(rs, start, wanted)))
  }

  /** The reading half of `Init`. */
  method ReadStreams(meta: Bytes, index: Bytes, start: nat, wanted: int, ghost rs: seq<Bytes>) returns (part: Part)
    ensures ReadsRange(part, meta, index, start, wanted, rs)
  {
    SavedParses(meta, index, rs);
    var parsed := ParseIndex(index);
    if parsed.Bad? {
      return None;
    }
    part := ReadParsed(meta, parsed, start, wanted, rs);
  }

  lemma {:induction false} SavedParses(meta: Bytes, index: Bytes, rs: seq<Bytes>)
    ensures SavedFor(meta, index, rs) ==> ParseIndex(index) == Index(|rs|, Offsets(rs))
  {
    if SavedFor(meta, index, rs) {
      ParseIndexFile(rs);
    }
  }

  method ReadParsed(meta: Bytes, parsed: Index, start: nat, wanted: int, ghost rs: seq<Bytes>) returns (part: Part)
    requires parsed.Index? && |parsed.offsets| == parsed.count + 1 < WORD
    ensures part.Part? ==> 0 < |part.offsets| < WORD
    ensures parsed == Index(|rs|, Offsets(rs)) && meta == Flat(rs) ==>
              part.Part? && Stored(part.offsets, part.front, [], |part.offsets| - 1, Range(rs, start, wanted))
  {
    part := ReadRange(meta, parsed.offsets, First(parsed.count, start), Length(parsed.count, start, wanted), rs);
  }

  method ReadRange(meta: Bytes, offsets: seq<nat>, from: nat, n: nat, ghost rs: seq<Bytes>) returns (part: Part)
    requires from + n < |offsets|
    ensures part.Part? ==> |part.offsets| == n + 1
    ensures offsets == Offsets(rs) && meta == Flat(rs) ==>
              part.Part? && Stored(part.offsets, part.front, [], n, rs[from..from + n])
  {
    var rebased := Rebase(offsets, from, n);
    var front := Read(meta, offsets[from], rebased[n]);
    part := if |front| == rebased[n] then Part(rebased, front) else None;
    if offsets == Offsets(rs) && meta == Flat(rs) {
      RangeStored(rs, from, n, rebased);
    }
  }

  predicate IndexPart(index: Bytes, n: nat, offsets: seq<nat>, i: nat)
    requires i <= |offsets|
  {
    index == CountBytes(n) + Words(offsets[..i])
  }

  lemma {:induction false} PrefixNext(s: seq<nat>, i: nat)
    requires i < |s|
    ensures s[..i + 1] == s[..i] + [s[i]]
  {
  }

  lemma {:induction false} NoWords(n: nat, offsets: seq<nat>)
    ensures IndexPart(CountBytes(n), n, offsets, 0)
  {
    assert CountBytes(n) + [] == CountBytes(n);
  }

  lemma {:induction false} NextWord(index: Bytes, n: nat, offsets: seq<nat>, i: nat)
    requires i < |offsets| && IndexPart(index, n, offsets, i)
    ensures IndexPart(index + Word(offsets[i]), n, offsets, i + 1)
  {
    var done, next := offsets[..i], offsets[i];
    Associate(CountBytes(n), Words(done), Word(next));
    WordsSnoc(done, next);
    PrefixNext(offsets, i);
  }

  /** One offset more in the index. */
  method PutWord(index: Bytes, w: nat, ghost n: nat, ghost offsets: seq<nat>, ghost i: nat) returns (next: Bytes)
    requires i < |offsets| && w == offsets[i] && IndexPart(index, n, offsets, i)
    ensures IndexPart(next, n, offsets, i + 1)
  {
    NextWord(index, n, offsets, i);
    next := index + Word(w);
  }

  lemma {:induction false} AllWords(index: Bytes, n: nat, offsets: seq<nat>)
    requires IndexPart(index, n, offsets, |offsets|)
    ensures index == CountBytes(n) + Words(offsets)
  {
    assert offsets[..|offsets|] == offsets;
  }

  lemma {:induction false} WholeStore(offsets: seq<nat>, front: Bytes, tail: Bytes, count: nat, rs: seq<Bytes>)
    requires Stored(offsets, front, tail, count, rs)
    ensures front[..offsets[count]] == front && offsets[|rs|] - offsets[count] == |tail| && tail[..|tail|] == tail
    ensures |offsets| == |rs| + 1 && (tail == [] ==> front == Flat(rs))
  {
    assert |Flat(rs)| == |front + tail|;
    if tail == [] {
      assert front + tail == front;
    }
  }

  /** Where the range starts, and how long it is, after clamping. */
  function First(count: nat, start: nat): (r: nat)
    ensures r <= count
  {
    if start > count then count else start
  }

  function Length(count: nat, start: nat, wanted: int): (r: nat)
    ensures First(count, start) + r <= count
  {
    var from := First(count, start);
    if wanted < 0 || wanted > count - from then count - from else wanted
  }

  function Range(rs: seq<Bytes>, start: nat, wanted: int): seq<Bytes> {
    rs[First(|rs|, start)..First(|rs|, start) + Length(|rs|, start, wanted)]
  }

  /** Nothing past the end; everything from the start on for a negative number; else as many as wanted or there are. */
  lemma {:induction false} RangeIs(rs: seq<Bytes>, start: nat, wanted: int)
    ensures start >= |rs| ==> Range(rs, start, wanted) == []
    ensures start < |rs| && wanted < 0 ==> Range(rs, start, wanted) == rs[start..]
    ensures start < |rs| && wanted >= 0 ==>
              Range(rs, start, wanted) == rs[start..if wanted <= |rs| - start then start + wanted else |rs|]
  {
  }

  /** The difference modulo 2^64. */
  lemma {:induction false} LessIs(a: nat, b: nat)
    requires a < WORD && b < WORD
    ensures Less(a, b) < WORD && (Less(a, b) + b == a || Less(a, b) + b == a + WORD)
  {
  }

  /** 64-bit subtraction on offsets read from a stream. */
  function Less(a: nat, b: nat): (r: nat)
    ensures b <= a ==> r == a - b
  {
    if b <= a then a - b else WORD - (b - a) % WORD
  }

  /** The n + 1 offsets from `from` on, less the first. */
  method Rebase(offsets: seq<nat>, from: nat, n: nat) returns (r: seq<nat>)
    requires from + n < |offsets|
    ensures |r| == n + 1
    ensures forall i | 0 <= i <= n :: r[i] == Less(offsets[from + i], offsets[from])
  {
    r := offsets[from..from + n + 1];
    if offsets[from] > 0 {
      var i := 0;
      while i <= n
        invariant 0 <= i <= n + 1 && |r| == n + 1
        invariant forall k | 0 <= k < i :: r[k] == Less(offsets[from + k], offsets[from])
        invariant forall k | i <= k <= n :: r[k] == offsets[from + k]
      {
        r := r[i := Less(r[i], offsets[from])];
        i := i + 1;
      }
    }
  }

  datatype Adding = Idle | Adding(data: Bytes)

  /** What an unlocked reader of a `MemMetadataSet` sees while other threads add records. */
  datatype Shared = Shared(offsets: seq<nat>, newdata: Bytes, adding: Adding)

  /** One visible step of `Add`: the bytes go in, then the offset follows or the bytes are taken out again. */
  ghost predicate AddStep(s: Shared, t: Shared) {
    || (s.adding.Idle? && t.adding.Adding? && t == Shared(s.offsets, s.newdata + t.adding.data, t.adding))
    || (s.adding.Adding? && s.offsets != [] &&
        t == Shared(s.offsets + [s.offsets[|s.offsets| - 1] + |s.adding.data|], s.newdata, Idle))
    || (s.adding.Adding? && |s.adding.data| <= |s.newdata| &&
        t == Shared(s.offsets, s.newdata[..|s.newdata| - |s.adding.data|], Idle))
  }

  ghost predicate IsRun(run: seq<Shared>) {
    run != [] && forall i | 0 < i < |run| :: AddStep(run[i - 1], run[i])
  }

  function InFlight(s: Shared): Bytes {
    if s.adding.Idle? then [] else s.adding.data
  }

  /** rs are the complete records of s; the bytes of a record being added lie behind them. */
  ghost predicate Holds(s: Shared, holder: Bytes, count: nat, rs: seq<Bytes>) {
    exists tail :: s.newdata == tail + InFlight(s) && Stored(s.offsets, holder, tail, count, rs)
  }

  /** Every later state holds the records of the first one and perhaps more. */
  lemma {:induction false} OnlyGrows(run: seq<Shared>, holder: Bytes, count: nat, rs: seq<Bytes>, j: nat)
    returns (more: seq<Bytes>)
    requires IsRun(run) && Holds(run[0], holder, count, rs) && j < |run|
    ensures Holds(run[j], holder, count, rs + more)
  {
    more := [];
    assert rs + [] == rs;
    var i := 0;
    while i < j
      invariant 0 <= i <= j && Holds(run[i], holder, count, rs + more)
    {
      i := i + 1;
      more := GrowOne(run[i - 1], run[i], holder, count, rs, more);
    }
  }

  lemma {:induction false} GrowOne(s: Shared, t: Shared, holder: Bytes, count: nat, rs: seq<Bytes>, more: seq<Bytes>)
    returns (next: seq<Bytes>)
    requires AddStep(s, t) && Holds(s, holder, count, rs + more)
    ensures Holds(t, holder, count, rs + next)
  {
    var tail :| s.newdata == tail + InFlight(s) && Stored(s.offsets, holder, tail, count, rs + more);
    next := more;
    if s.adding.Idle? {
      assert t.newdata == tail + InFlight(t);
    } else if t.newdata == s.newdata && t.offsets != s.offsets {
      StoredAdd(s.offsets, holder, tail, count, rs + more, s.adding.data);
      next := more + [s.adding.data];
      assert rs + next == (rs + more) + [s.adding.data];
      assert t.newdata == (tail + s.adding.data) + InFlight(t);
    } else {
      assert t.newdata == tail + InFlight(t);
    }
  }

  /** What the save reads, at whatever moment it reads it: the offsets of the records it counted at first, and
      their bytes as a prefix of the tail. */
  lemma {:induction false} ReadsPrefix(run: seq<Shared>, holder: Bytes, count: nat, rs: seq<Bytes>, j: nat)
    requires IsRun(run) && Holds(run[0], holder, count, rs) && j < |run|
    ensures Offsets(rs) <= run[j].offsets
    ensures count <= |rs| && |holder| == Offsets(rs)[count] <= |Flat(rs)| && |Flat(rs)| - |holder| <= |run[j].newdata|
    ensures holder + run[j].newdata[..|Flat(rs)| - |holder|] == Flat(rs)
  {
    var more := OnlyGrows(run, holder, count, rs, j);
    OffsetsGrow(rs, more);
    var tail :| run[j].newdata == tail + InFlight(run[j]) && Stored(run[j].offsets, holder, tail, count, rs + more);
    FlatConcat(rs, more);
    FirstPart(run[0], holder, count, rs);
    PrefixOf(holder, tail, InFlight(run[j]), Flat(rs), Flat(more));
  }

  lemma {:induction false} FirstPart(s: Shared, holder: Bytes, count: nat, rs: seq<Bytes>)
    requires Holds(s, holder, count, rs)
    ensures s.offsets == Offsets(rs) && count <= |rs| && |holder| == Offsets(rs)[count] <= |Flat(rs)|
  {
    OffsetAt(rs, count);
  }

  lemma {:induction false} PrefixOf(a: Bytes, b: Bytes, c: Bytes, p: Bytes, q: Bytes)
    requires a + b == p + q && |a| <= |p|
    ensures |p| - |a| <= |b| && a + (b + c)[..|p| - |a|] == p
  {
    assert |a + b| == |p + q|;
    var x := a + (b + c)[..|p| - |a|];
    forall i | 0 <= i < |p| ensures x[i] == p[i] {
      assert x[i] == (a + b)[i] && p[i] == (p + q)[i];
    }
  }

  /** The index half of such a save: the count from the first state, offset i from state when(i). */
  method SaveIndexDuringAdds(run: seq<Shared>, ghost holder: Bytes, ghost count: nat, when: nat -> nat, ghost rs: seq<Bytes>)
    returns (index: Bytes)
    requires IsRun(run) && Holds(run[0], holder, count, rs) && forall i: nat :: when(i) < |run|
    ensures index == IndexFile(rs)
  {
    FirstPart(run[0], holder, count, rs);
    var n := |run[0].offsets| - 1;
    index := CountBytes(n);
    var i := 0;
    NoWords(n, Offsets(rs));
    while i <= n
      invariant 0 <= i <= n + 1 && IndexPart(index, n, Offsets(rs), i)
    {
      ReadsPrefix(run, holder, count, rs, when(i));
      index := PutWord(index, run[when(i)].offsets[i], n, Offsets(rs), i);
      i := i + 1;
    }
    AllWords(index, n, Offsets(rs));
  }

  /** `SaveMetadata` of an in-memory set overlapping additions: it reads the count in the first state of the run,
      offset i in state when(i), the size of the tail in state check and its bytes in state copy. What it writes
      are the records that were complete when it began. */
  method SaveDuringAdds(run: seq<Shared>, holder: Bytes, count: nat, when: nat -> nat, check: nat, copy: nat,
                        ghost rs: seq<Bytes>)
    returns (meta: Bytes, index: Bytes)
    requires IsRun(run) && Holds(run[0], holder, count, rs)
    requires (forall i: nat :: when(i) < |run|) && check < |run| && copy < |run|
    ensures meta == Flat(rs) && index == IndexFile(rs)
  {
    index := SaveIndexDuringAdds(run, holder, count, when, rs);
    FirstPart(run[0], holder, count, rs);
    var n := |run[0].offsets| - 1;
    ReadsPrefix(run, holder, count, rs, check);
    ReadsPrefix(run, holder, count, rs, copy);
    meta := holder;
    if |run[check].newdata| > 0 {
      meta := meta + run[copy].newdata[..run[copy].offsets[n] - run[copy].offsets[count]];
    } else {
      assert holder + [] == holder;
    }
  }

  /** Where a delimited text may be cut: at its ends and behind each delimiter. */
  predicate Boundary(t: Bytes, d: Byte, p: nat) {
    p == 0 || p == |t| || (p < |t| && t[p - 1] == d)
  }

  /** The first boundaries of a text, none left out before the last one found. */
  ghost predicate FirstBoundaries(r: seq<nat>, t: Bytes, d: Byte) {
    && r != [] && r[0] == 0
    && (forall i, j | 0 <= i < j < |r| :: r[i] < r[j])
    && (forall i | 0 <= i < |r| :: Boundary(t, d, r[i]))
    && (forall p: nat | p <= r[|r| - 1] && Boundary(t, d, p) :: p in r)
  }

  /** 0 and the positions behind the delimiters among the first i bytes. */
  function Cuts(t: Bytes, d: Byte, i: nat): (r: seq<nat>)
    requires i <= |t|
    ensures |r| > 0 && r[0] == 0 && r[|r| - 1] <= i
  {
    if i == 0 then [0] else Cuts(t, d, i - 1) + if t[i - 1] == d then [i] else []
  }

  ghost predicate Ascends(r: seq<nat>, bound: nat) {
    && (forall j, k | 0 <= j < k < |r| :: r[j] < r[k])
    && (forall j | 0 <= j < |r| :: r[j] < bound)
  }

  lemma {:induction false} CutsAscend(t: Bytes, d: Byte, i: nat)
    requires i <= |t|
    ensures Ascends(Cuts(t, d, i), i + 1)
  {
    if i > 0 {
      hide Ascends;
      CutsAscend(t, d, i - 1);
      var r := Cuts(t, d, i - 1);
      AscendsMore(r, i);
      assert r + [] == r;
    }
  }

  lemma {:induction false} AscendsMore(r: seq<nat>, i: nat)
    requires Ascends(r, i)
    ensures Ascends(r, i + 1) && Ascends(r + [i], i + 1)
  {
  }

  /** The cuts are exactly the positions behind delimiters. */
  lemma {:induction false} CutIn(t: Bytes, d: Byte, i: nat, p: nat)
    requires i <= |t|
    ensures p in Cuts(t, d, i) <==> p == 0 || (p <= i && t[p - 1] == d)
  {
    if i > 0 {
      CutIn(t, d, i - 1, p);
    }
  }

  lemma {:induction false} CutsAreBoundaries(t: Bytes, d: Byte, i: nat)
    requires i <= |t|
    ensures FirstBoundaries(Cuts(t, d, i), t, d)
  {
    var r := Cuts(t, d, i);
    CutsAscend(t, d, i);
    forall j | 0 <= j < |r| ensures Boundary(t, d, r[j]) {
      CutIn(t, d, i, r[j]);
    }
    forall p: nat | p <= r[|r| - 1] && Boundary(t, d, p) ensures p in r {
      if p < r[|r| - 1] {
        CutIn(t, d, i, p);
      }
    }
  }

  /** A text that does not end with a delimiter has its end as one more boundary. */
  lemma {:induction false} CutsAndEnd(t: Bytes, d: Byte)
    requires t != [] && t[|t| - 1] != d
    ensures FirstBoundaries(Cuts(t, d, |t|) + [|t|], t, d)
  {
    var r := Cuts(t, d, |t|);
    CutIn(t, d, |t|, |t|);
    CutsAscend(t, d, |t|);
    BelowEnd(r, |t|);
    forall j | 0 <= j < |r| + 1 ensures Boundary(t, d, (r + [|t|])[j]) {
      if j < |r| {
        CutIn(t, d, |t|, r[j]);
      }
    }
    forall p: nat | p <= |t| && Boundary(t, d, p) ensures p in r + [|t|] {
      CutIn(t, d, |t|, p);
    }
  }

  lemma {:induction false} BelowEnd(r: seq<nat>, n: nat)
    requires Ascends(r, n + 1) && n !in r
    ensures Ascends(r + [n], n + 1)
  {
    assert forall j | 0 <= j < |r| :: r[j] in r;
  }

  /** A text that ends with a delimiter has its end among the cuts. */
  lemma {:induction false} LastCut(t: Bytes, d: Byte)
    requires t != [] && t[|t| - 1] == d
    ensures var r := Cuts(t, d, |t|); r[|r| - 1] == |t|
  {
  }

  /** Behind the loop: the end of a text that does not end with a delimiter. */
  method CloseOffsets(t: Bytes, wanted: nat, d: Byte, found: seq<nat>, ghost i: nat) returns (r: seq<nat>)
    requires t != [] && i <= |t| && found == Cuts(t, d, i) && |found| <= wanted && (i < |t| ==> |found| == wanted)
    ensures FirstBoundaries(r, t, d) && |r| <= wanted && (|r| < wanted ==> r[|r| - 1] == |t|)
  {
    r := found;
    CutsAreBoundaries(t, d, i);
    if t[|t| - 1] != d && |r| < wanted {
      CutsAndEnd(t, d);
      r := r + [|t|];
    } else if |r| < wanted {
      LastCut(t, d);
    }
  }

  /** `GetMetadataOffsets`: the first `wanted` boundaries, or all of them and a failure if there are fewer. An empty
      text is not for this function: it would look before the text. */
  method GetMetadataOffsets(t: Bytes, wanted: nat, d: Byte) returns (ok: bool, r: seq<nat>)
    requires t != [] && wanted >= 1
    ensures FirstBoundaries(r, t, d) && |r| <= wanted && (ok <==> |r| == wanted)
    ensures !ok ==> r[|r| - 1] == |t|
  {
    r := [0];
    var i := 0;
    while i < |t| && |r| < wanted
      invariant 0 <= i <= |t| && |r| <= wanted && r == Cuts(t, d, i)
    {
      if t[i] == d {
        r := r + [i + 1];
      }
      i := i + 1;
    }
    r := CloseOffsets(t, wanted, d, r, i);
    ok := |r| == wanted;
  }
}
