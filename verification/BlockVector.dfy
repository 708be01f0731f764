/** `LockFreeVector`: an append-only vector kept as a table of equally long blocks, so that growing never moves
    an element and unlocked readers never see the table move. */
module BlockVector {
  import opened Arith
  import opened Bits

  /** Unsigned 64-bit subtraction. */
  function Minus(a: nat, b: nat): (r: nat)
    requires a < WORD && b < WORD
    ensures b <= a ==> r == a - b
    ensures b > a ==> r == WORD + a - b
  {
    if b <= a then a - b else WORD + a - b
  }

  /** `cells` with data in place of the elements from offset at on. */
  function Patched<T>(cells: seq<T>, at: nat, data: seq<T>): (r: seq<T>)
    requires at + |data| <= |cells|
    ensures |r| == |cells|
  {
    cells[..at] + data + cells[at + |data|..]
  }

  lemma PatchedAt<T>(cells: seq<T>, at: nat, data: seq<T>, o: nat)
    requires at + |data| <= |cells| && o < |cells|
    ensures Patched(cells, at, data)[o] == if at <= o < at + |data| then data[o - at] else cells[o]
  {
  }

  /** Data read up to n is followed by the next chunk. */
  lemma NextPrefix<T>(cells: seq<T>, was: seq<T>, s: seq<T>, data: seq<T>, n: nat, next: nat)
    requires n <= next <= |data| && |s| + n <= |was| && was[..|s| + n] == s + data[..n]
    requires |s| + next <= |cells| && cells[..|s| + next] == was[..|s| + n] + data[n..next]
    ensures cells[..|s| + next] == s + data[..next]
  {
    assert data[..next] == data[..n] + data[n..next];
  }

  lemma PrefixStays<T>(cells: seq<T>, s: seq<T>, t: seq<T>)
    requires |s| + |t| <= |cells| && cells[..|s| + |t|] == s + t
    ensures cells[..|s|] == s
  {
    assert cells[..|s|] == cells[..|s| + |t|][..|s|];
  }

  lemma SlicesJoin<T>(s: seq<T>, a: nat, b: nat, c: nat)
    requires a <= b <= c <= |s|
    ensures s[a..b] + s[b..c] == s[a..c]
  {
  }

  /** The lengths of a table of blocks once it has n blocks, new ones of the given length. */
  function Extended(table: seq<nat>, n: nat, block: nat): seq<nat> {
    if n <= |table| then table else table + seq(n - |table|, _ => block)
  }

  /** How many elements a load of the given length asks the table for when n can be read. */
  function Asked(n: nat, length: nat): nat {
    if length <= n then length else n + 1
  }

  lemma ExtendedTwice(table: seq<nat>, n: nat, m: nat, block: nat)
    requires n <= m
    ensures Extended(Extended(table, n, block), m, block) == Extended(table, m, block)
  {
  }

  /** The capacity of a table of the given one after a reservation: room for the maximum, rounded up to blocks. */
  function Widened(capacity: nat, maximum: nat, ex: nat): nat {
    Most(capacity, Shift(maximum + (Power(ex) - 1), ex))
  }

  /** A chunk at offset `at` needs the blocks of the elements up to its end. */
  lemma GrowFurther(was: seq<nat>, cap: nat, at: nat, n: nat, ex: nat)
    requires n > 0 && Mask(at, ex) + n <= Power(ex)
    ensures Extended(Extended(was, Needed(at, ex), Power(ex)), Shift(at, ex) + 1, Power(ex)) ==
            Extended(was, Needed(at + n, ex), Power(ex))
    ensures Most(Most(cap, Needed(at, ex)), Shift(at, ex) + 1) == Most(cap, Needed(at + n, ex))
  {
    NeededChunk(at, n, ex);
    NeededMonotone(at, at + n, ex);
    ExtendedTwice(was, Needed(at, ex), Needed(at + n, ex), Power(ex));
  }

  /** What a caller sees of the vector: a plain sequence, its size limit, and the geometry of the table, which is the
      exponent of its block length, the blocks it holds without moving and the lengths of those allocated so far. */
  datatype Vec<T> = Vec(items: seq<T>, max: nat, ex: nat, capacity: nat, table: seq<nat>)

  /** A vector that was never reserved. */
  function Fresh<T>(): Vec<T> {
    Vec([], 0, 0, 0, [])
  }

  datatype Op<T> =
    | Reserve(blockSize: nat, maximum: nat)
    | Assign(data: seq<T>)
    | PushBack(x: T)
    | Clear
    | Load(input: seq<T>, length: nat)

  function Appended<T>(v: Vec<T>, data: seq<T>): Vec<T> {
    v.(items := v.items + data, table := Extended(v.table, Needed(|v.items| + |data|, v.ex), Power(v.ex)))
  }

  /** What each operation does to the plain sequence. A short read still allocates the blocks it reads into. */
  function Step<T>(v: Vec<T>, op: Op<T>): Vec<T>
    requires Legal(v, op)
  {
    match op
    case Reserve(blockSize, maximum) =>
      var ex := Exponent(blockSize);
      Vec([], maximum, ex, Widened(v.capacity, maximum, ex), v.table)
    case Assign(data) => if |v.items| + |data| <= v.max then Appended(v, data) else v
    case PushBack(x) => if |v.items| < v.max then Appended(v, [x]) else v
    case Clear => v.(items := [])
    case Load(input, length) =>
      if |v.items| + length > Power(v.ex) * v.capacity then v
      else if length <= |input| then Appended(v, input[..length])
      else v.(table := Extended(v.table, Needed(|v.items| + |input| + 1, v.ex), Power(v.ex)))
  }

  /** Appends are no longer than the size limit, sizes stay within 64 bits, and every block that a new reservation
      keeps is long enough for it. */
  predicate Legal<T>(v: Vec<T>, op: Op<T>) {
    match op
    case Reserve(blockSize, maximum) =>
      0 < blockSize && maximum < WORD && forall i | 0 <= i < |v.table| :: v.table[i] >= Power(Exponent(blockSize))
    case Assign(data) => |data| <= v.max && |v.items| + |data| < WORD
    case PushBack(x) => 1 <= v.max && |v.items| + 1 < WORD
    case Clear => true
    case Load(input, length) => |v.items| + length < WORD
  }

  predicate LegalRun<T>(v: Vec<T>, ops: seq<Op<T>>)
    decreases |ops|
  {
    ops == [] || (Legal(v, ops[0]) && LegalRun(Step(v, ops[0]), ops[1..]))
  }

  /** Elements an operation may add. */
  function Adds<T>(op: Op<T>): nat {
    match op
    case Reserve(_, _) => 0
    case Assign(data) => |data|
    case PushBack(_) => 1
    case Clear => 0
    case Load(_, length) => length
  }

  function AllAdds<T>(ops: seq<Op<T>>): nat {
    if ops == [] then 0 else Adds(ops[0]) + AllAdds(ops[1..])
  }

  /** Without another reservation every run of a reserved vector is legal, if what is assigned at once is within the
      limit and all sizes together stay within 64 bits. */
  lemma {:induction false} OneReservationIsLegal<T>(v: Vec<T>, ops: seq<Op<T>>)
    requires v.max >= 1 && |v.items| + AllAdds(ops) < WORD
    requires forall op | op in ops :: !op.Reserve? && (op.Assign? ==> |op.data| <= v.max)
    ensures LegalRun(v, ops)
    decreases |ops|
  {
    if ops != [] {
      assert ops[0] in ops;
      var w := Step(v, ops[0]);
      assert |w.items| <= |v.items| + Adds(ops[0]) && w.max == v.max;
      OneReservationIsLegal(w, ops[1..]);
    }
  }

  function Steps<T>(v: Vec<T>, ops: seq<Op<T>>): Vec<T>
    requires LegalRun(v, ops)
    decreases |ops|
  {
    if ops == [] then v else Steps(Step(v, ops[0]), ops[1..])
  }

  /** Any first reservation is legal. After it was used, a second one is legal exactly when its blocks are no longer. */
  lemma ReserveAgain<T>(blockSize: nat, maximum: nat, x: T, again: nat, maximum': nat)
    requires 0 < blockSize && 0 < maximum < WORD && 0 < again && maximum' < WORD
    ensures LegalRun(Fresh<T>(), [Reserve(blockSize, maximum), PushBack(x)])
    ensures LegalRun(Fresh(), [Reserve(blockSize, maximum), PushBack(x), Reserve(again, maximum')]) <==>
              Power(Exponent(again)) <= Power(Exponent(blockSize))
  {
    var first, second, third := Op<T>.Reserve(blockSize, maximum), PushBack(x), Reserve(again, maximum');
    var v := Step(Fresh<T>(), first);
    FirstOffset(v.ex);
    var w := Step(v, second);
    assert w.table == [Power(v.ex)] && w.table[0] == Power(v.ex);
    LegalCons(w, third, []);
    LegalCons(v, second, []);
    LegalCons(v, second, [third]);
    LegalCons(Fresh(), first, [second]);
    LegalCons(Fresh(), first, [second, third]);
    assert [second] + [] == [second] && [third] + [] == [third];
    assert [first] + [second] == [first, second] && [second] + [third] == [second, third];
    assert [first] + [second, third] == [first, second, third];
  }

  lemma LegalCons<T>(v: Vec<T>, op: Op<T>, rest: seq<Op<T>>)
    ensures LegalRun(v, [op] + rest) <==> Legal(v, op) && LegalRun(Step(v, op), rest)
  {
    assert ([op] + rest)[1..] == rest;
  }

  class Blocks<T(0)> {
    var size: nat
    var maxSize: nat
    var ex: nat                 // m_blockSizeEx
    var block: nat              // m_blockSize + 1
    var blocks: seq<array<T>>
    var capacity: nat           // slots the block table holds without moving
    ghost var items: seq<T>     // what the vector stands for
    ghost var cells: seq<T>     // the cells of all blocks, in order
    ghost var table: seq<nat>   // the lengths of the blocks
    ghost var owned: set<array<T>>

    constructor ()
      ensures Valid() && Reserved() && Abstract() == Fresh() && blocks == [] && owned == {}
    {
      size, maxSize, ex, block, blocks, capacity := 0, 0, 0, 1, [], 0;
      items, cells, table, owned := [], [], [], {};
    }

    ghost predicate Shape()
      reads this
    {
      && block == Power(ex) && size < WORD && maxSize < WORD && |blocks| <= capacity && |table| == |blocks|
      && (forall i | 0 <= i < |blocks| :: blocks[i] in owned && blocks[i].Length == table[i])
      && (forall i, j | 0 <= i < j < |blocks| :: blocks[i] != blocks[j])
    }

    ghost predicate LongEnough()
      reads this
    {
      forall i | 0 <= i < |table| :: table[i] >= block
    }

    /** The table has room for a vector of the maximum size without moving. */
    ghost predicate Reserved()
      reads this
    {
      Needed(maxSize, ex) <= capacity
    }

    /** Offset o lies in block o >> ex at position o & mask, and x is there. */
    ghost predicate CellIs(o: nat, x: T)
      requires Shape() && LongEnough()
      reads this, owned
    {
      MaskAtMost(o, ex);
      Shift(o, ex) < |blocks| && blocks[Shift(o, ex)][Mask(o, ex)] == x
    }

    /** The blocks hold `cells`. */
    ghost predicate Backed()
      reads this, owned
    {
      Shape() && LongEnough() && |cells| == |blocks| * block && forall o | 0 <= o < |cells| :: CellIs(o, cells[o])
    }

    /** The vector stands for `items`. */
    ghost predicate Valid()
      reads this, owned
    {
      Backed() && |items| == size <= |cells| && items == cells[..size]
    }

    ghost function Abstract(): Vec<T>
      reads this
    {
      Vec(items, maxSize, ex, capacity, table)
    }

    // ---- Reservations ----

    /** Start over with a new block size. Blocks allocated earlier stay in the table, so the vector is usable
        exactly when each of them is long enough for the new block size. */
    method Reserve(blockSize: nat, maximum: nat)
      requires Shape() && 0 < blockSize && maximum < WORD
      modifies this
      ensures Shape() && Reserved() && blocks == old(blocks) && owned == old(owned) && size == 0
      ensures Abstract() == Vec([], maximum, Exponent(blockSize), Widened(old(capacity), maximum, Exponent(blockSize)), old(table))
      ensures Valid() <==> forall i | 0 <= i < |table| :: table[i] >= Power(Exponent(blockSize))
    {
      RoundedUp(maximum, Exponent(blockSize));
      size, maxSize, items := 0, maximum, [];
      ex := Exponent(blockSize);
      block := Power(ex);
      capacity := Widened(capacity, maximum, ex);
      Regather();
    }

    ghost method Regather()
      requires Shape() && size == 0 && items == []
      modifies this`cells
      ensures Valid() <==> LongEnough()
    {
      cells := [];
      if LongEnough() {
        cells := Gather();
      }
    }

    /** The cells of the table at the current block length. */
    ghost method Gather() returns (r: seq<T>)
      requires Shape() && LongEnough()
      ensures |r| == |blocks| * block && forall o | 0 <= o < |r| :: CellIs(o, r[o])
    {
      r := [];
      while |r| < |blocks| * block
        invariant |r| <= |blocks| * block && forall o | 0 <= o < |r| :: CellIs(o, r[o])
      {
        InTable(|r|, |blocks|, ex);
        MaskAtMost(|r|, ex);
        r := r + [blocks[Shift(|r|, ex)][Mask(|r|, ex)]];
      }
    }

    method Clear()
      requires Valid()
      modifies this`size, this`items
      ensures Valid() && items == []
    {
      size, items := 0, [];
    }

    // ---- Growing ----

    /** The table, once of blocks of the lengths `was`, now has at least n blocks, new ones of the current length. */
    ghost predicate Grew(was: seq<nat>, cap: nat, n: nat)
      reads this
    {
      table == Extended(was, n, block) && capacity == Most(cap, n)
    }

    method AddBlock()
      requires Backed()
      modifies this`blocks, this`cells, this`table, this`capacity, this`owned
      ensures Backed() && old(cells) <= cells && |blocks| == |old(blocks)| + 1
      ensures owned >= old(owned) && fresh(owned - old(owned))
      ensures table == old(table) + [block] && capacity == Most(old(capacity), |blocks|)
    {
      ghost var was, n := cells, |blocks|;
      var newBlock := new T[block];
      blocks := blocks + [newBlock];
      owned, table, cells := owned + {newBlock}, table + [block], cells + newBlock[..];
      if |blocks| > capacity {
        capacity := |blocks|;
      }
      Carry(n, block);
      forall o | 0 <= o < |cells| ensures CellIs(o, cells[o]) {
        NewCells(o, n, ex);
      }
    }

    /** Make sure block number `cur` exists; the table moves only when it was full. */
    method EnsureBlock(cur: nat)
      requires Backed() && cur <= |blocks|
      modifies this`blocks, this`cells, this`table, this`capacity, this`owned
      ensures Backed() && cur < |blocks| && old(cells) <= cells
      ensures owned >= old(owned) && fresh(owned - old(owned))
      ensures Grew(old(table), old(capacity), cur + 1)
    {
      if cur >= |blocks| {
        AddBlock();
      }
    }

    static method CopyInto(b: array<T>, pos: nat, data: seq<T>)
      requires pos + |data| <= b.Length
      modifies b
      ensures forall p | 0 <= p < b.Length :: b[p] == if pos <= p < pos + |data| then data[p - pos] else old(b[p])
    {
      var i := 0;
      while i < |data|
        invariant 0 <= i <= |data|
        invariant forall p | 0 <= p < b.Length :: b[p] == if pos <= p < pos + i then data[p - pos] else old(b[p])
      {
        b[pos + i] := data[i];
        i := i + 1;
      }
    }

    method WriteBlock(cur: nat, pos: nat, data: seq<T>)
      requires Shape() && cur < |blocks| && pos + |data| <= table[cur]
      modifies blocks[cur]
      ensures forall i, p | 0 <= i < |blocks| && 0 <= p < table[i] ::
                blocks[i][p] == if i == cur && pos <= p < pos + |data| then data[p - pos] else old(blocks[i][p])
    {
      CopyInto(blocks[cur], pos, data);
    }

    /** Copy data into one block, from offset `at` on. */
    method WriteChunk(at: nat, data: seq<T>)
      requires Backed() && at + |data| <= |cells| && at < |cells| && Mask(at, ex) + |data| <= block
      modifies this`cells, owned
      ensures Backed() && cells == Patched(old(cells), at, data)
    {
      ghost var was := cells;
      assert CellIs(at, cells[at]);
      WriteBlock(Shift(at, ex), Mask(at, ex), data);
      cells := Patched(cells, at, data);
      forall o | 0 <= o < |cells| ensures CellIs(o, cells[o]) {
        MaskAtMost(o, ex);
        ChunkCells(at, |data|, ex, o);
        PatchedAt(was, at, data, o);
      }
    }

    /** One round of the copy loops: the next chunk, within one block. */
    method AppendChunk(at: nat, data: seq<T>)
      requires Backed() && at <= |cells| && Mask(at, ex) + |data| <= block
      modifies this`blocks, this`cells, this`table, this`capacity, this`owned, owned
      ensures Backed() && at + |data| <= |cells| && cells[..at + |data|] == old(cells)[..at] + data
      ensures owned >= old(owned) && fresh(owned - old(owned))
      ensures Grew(old(table), old(capacity), Shift(at, ex) + 1)
    {
      NextSlot(at, |blocks|, ex);
      EnsureBlock(Shift(at, ex));
      RoomForChunk(at, |data|, |blocks|, ex);
      WriteChunk(at, data);
    }

    /** The cells start with s and the first n elements of data. */
    ghost predicate Filled(s: seq<T>, data: seq<T>, n: nat)
      requires n <= |data|
      reads this, owned
    {
      Backed() && |s| + n <= |cells| && cells[..|s| + n] == s + data[..n]
    }

    /** The first n elements of data are in place behind s, and the table, which was as given, has grown for them. */
    ghost predicate Written(s: seq<T>, data: seq<T>, n: nat, was: seq<nat>, cap: nat)
      requires n <= |data|
      reads this, owned
    {
      Filled(s, data, n) && Grew(was, cap, Needed(|s| + n, ex))
    }

    lemma NothingWritten(data: seq<T>)
      requires Valid()
      ensures Written(items, data, 0, table, capacity)
    {
      WithinTable(size, |blocks|, ex);
      assert items + data[..0] == items;
    }

    /** A chunk that the table needs up to element `to` and of which data holds the elements up to `next`. */
    method PutChunk(data: seq<T>, n: nat, next: nat, ghost to: nat, ghost s: seq<T>, ghost was: seq<nat>, ghost cap: nat)
      requires n <= next <= |data| && next <= to && n < to && |s| == size && Mask(size + n, ex) + (to - n) <= block
      requires Written(s, data, n, was, cap)
      modifies this`blocks, this`cells, this`table, this`capacity, this`owned, owned
      ensures Filled(s, data, next) && Grew(was, cap, Needed(size + to, ex))
      ensures owned >= old(owned) && fresh(owned - old(owned))
    {
      ghost var before, lengths, room := cells, table, capacity;
      AppendChunk(size + n, data[n..next]);
      PutDone(data, n, next, to, s, was, cap, before, lengths, room);
    }

    lemma PutDone(data: seq<T>, n: nat, next: nat, to: nat, s: seq<T>, was: seq<nat>, cap: nat, before: seq<T>,
                  lengths: seq<nat>, room: nat)
      requires n <= next <= |data| && n < to && |s| == size && Mask(size + n, ex) + (to - n) <= block && Backed()
      requires |s| + n <= |before| && before[..|s| + n] == s + data[..n]
      requires lengths == Extended(was, Needed(size + n, ex), block) && room == Most(cap, Needed(size + n, ex))
      requires size + next <= |cells| && cells[..size + next] == before[..size + n] + data[n..next]
      requires Grew(lengths, room, Shift(size + n, ex) + 1)
      ensures Filled(s, data, next) && Grew(was, cap, Needed(size + to, ex))
    {
      GrowFurther(was, cap, size + n, to - n, ex);
      NextPrefix(cells, before, s, data, n, next);
    }

    /** The next round for data of which n elements are written behind s. */
    method AppendNext(data: seq<T>, n: nat, ghost s: seq<T>, ghost was: seq<nat>, ghost cap: nat) returns (next: nat)
      requires n < |data| && |s| == size && Written(s, data, n, was, cap)
      modifies this`blocks, this`cells, this`table, this`capacity, this`owned, owned
      ensures n < next <= |data| && Written(s, data, next, was, cap)
      ensures owned >= old(owned) && fresh(owned - old(owned))
    {
      next := n + InBlock(size + n, |data| - n, ex);
      PutChunk(data, n, next, next, s, was, cap);
    }

    /** The loop of `assign`: put data behind the current contents, leaving the size field to the caller. */
    method Append(data: seq<T>)
      requires Valid()
      modifies this`blocks, this`cells, this`table, this`capacity, this`owned, owned
      ensures Written(items, data, |data|, old(table), old(capacity))
      ensures owned >= old(owned) && fresh(owned - old(owned))
    {
      ghost var was, cap := table, capacity;
      var written := 0;
      NothingWritten(data);
      while written < |data|
        invariant 0 <= written <= |data| && Written(items, data, written, was, cap)
        invariant owned >= old(owned) && fresh(owned - old(owned))
      {
        written := AppendNext(data, written, items, was, cap);
      }
    }

    /** What fits the size limit fits the reserved table. */
    lemma StaysInTable(n: nat, was: seq<nat>, cap: nat)
      requires n <= maxSize && Needed(maxSize, ex) <= cap && Grew(was, cap, Needed(n, ex))
      ensures capacity == cap
    {
      NeededMonotone(n, maxSize, ex);
    }

    /** Count n more elements that are already in place. */
    method Publish(n: nat, ghost data: seq<T>)
      requires Backed() && |items| == size && |data| == n && size + n < WORD
      requires size + n <= |cells| && cells[..size + n] == items + data
      modifies this`size, this`items
      ensures Valid() && size == old(size) + n && items == old(items) + data
    {
      size, items := size + n, items + data;
    }

    /** `assign`. The guard subtracts in 64 bits: for data no longer than the limit it means what it says, for
        longer data it wraps and lets everything in. */
    method Assign(data: seq<T>) returns (ok: bool)
      requires Valid() && size + |data| < WORD
      modifies this`size, this`items, this`blocks, this`cells, this`table, this`capacity, this`owned, owned
      ensures Valid() && owned >= old(owned) && fresh(owned - old(owned))
      ensures |data| <= maxSize ==> (ok <==> old(size) + |data| <= maxSize)
      ensures |data| > maxSize ==> ok
      ensures items == if ok then old(items) + data else old(items)
      ensures if ok then Grew(old(table), old(capacity), Needed(size, ex)) else table == old(table) && capacity == old(capacity)
      ensures old(Reserved()) && |data| <= maxSize ==> capacity == old(capacity)
    {
      if size > Minus(maxSize, |data|) {
        return false;
      }
      Append(data);
      if size + |data| <= maxSize && old(Reserved()) {
        StaysInTable(size + |data|, old(table), old(capacity));
      }
      assert data[..|data|] == data;
      Publish(|data|, data);
      ok := true;
    }

    method PushBack(x: T) returns (ok: bool)
      requires Valid() && size + 1 < WORD
      modifies this`size, this`items, this`blocks, this`cells, this`table, this`capacity, this`owned, owned
      ensures Valid() && owned >= old(owned) && fresh(owned - old(owned))
      ensures ok <==> old(size) < maxSize || maxSize == 0
      ensures items == if ok then old(items) + [x] else old(items)
      ensures if ok then Grew(old(table), old(capacity), Needed(size, ex)) else table == old(table) && capacity == old(capacity)
      ensures old(Reserved()) && maxSize > 0 ==> capacity == old(capacity)
    {
      if size > Minus(maxSize, 1) {
        return false;
      }
      MaskAtMost(size, ex);
      AppendChunk(size, [x]);
      if size + 1 <= maxSize && old(Reserved()) {
        StaysInTable(size + 1, old(table), old(capacity));
      }
      Publish(1, [x]);
      ok := true;
    }

    // ---- Reading ----

    /** `operator[]`. */
    method Index(o: nat) returns (x: T)
      requires Valid() && o < size
      ensures x == items[o]
    {
      assert CellIs(o, cells[o]);
      MaskAtMost(o, ex);
      x := blocks[Shift(o, ex)][And(o, block - 1)];
    }

    method Back() returns (x: T)
      requires Valid() && size > 0
      ensures x == items[size - 1]
    {
      x := Index(size - 1);
    }

    /** The part of a chunk within one block, as one memcpy. */
    method CopyChunk(o: nat, n: nat) returns (r: seq<T>)
      requires Valid() && o + n <= size && 0 < n && Mask(o, ex) + n <= block
      ensures r == items[o..o + n]
    {
      var pos := Mask(o, ex);
      assert CellIs(o, cells[o]);
      r := blocks[Shift(o, ex)][pos..pos + n];
      forall i | 0 <= i < n ensures r[i] == items[o..o + n][i] {
        ChunkCells(o, n, ex, o + i);
        assert CellIs(o + i, cells[o + i]);
      }
    }

    /** As much of items[from..to] as lies in the first block concerned. */
    method CopyNext(from: nat, to: nat) returns (next: nat, r: seq<T>)
      requires Valid() && from < to <= size
      ensures from < next <= to && r == items[from..next]
    {
      next := from + InBlock(from, to - from, ex);
      r := CopyChunk(from, next - from);
    }

    /** `copy` returns the exact slice. */
    method Copy(offset: nat, length: nat) returns (r: seq<T>)
      requires Valid() && offset + length <= size
      ensures r == items[offset..offset + length]
    {
      r := [];
      var done := offset;
      while done < offset + length
        invariant offset <= done <= offset + length && r == items[offset..done]
        decreases offset + length - done
      {
        var next, chunk := CopyNext(done, offset + length);
        SlicesJoin(items, offset, done, next);
        done, r := next, r + chunk;
      }
    }

    /** The first i blocks are written. */
    ghost predicate Saved(out: seq<T>, i: nat)
      reads this
    {
      && |out| <= |items| && out == items[..|out|] && i <= Shift(|items|, ex)
      && Shift(|out|, ex) == i && Mask(|out|, ex) == 0
    }

    method SaveBlock(out: seq<T>, i: nat) returns (next: seq<T>)
      requires Valid() && Saved(out, i) && i < Shift(size, ex)
      ensures Saved(next, i + 1)
    {
      BlockStart(|out|, size, ex);
      var chunk := CopyChunk(|out|, block);
      SlicesJoin(items, 0, |out|, |out| + block);
      NextBlock(|out|, ex);
      next := out + chunk;
    }

    method SaveRest(out: seq<T>) returns (all: seq<T>)
      requires Valid() && Saved(out, Shift(size, ex))
      ensures all == items
    {
      BlockStart(|out|, size, ex);
      MaskAtMost(size, ex);
      all := out;
      if Mask(size, ex) > 0 {
        var chunk := CopyChunk(|out|, Mask(size, ex));
        all := out + chunk;
      }
    }

    /** `save` writes the full blocks and then the remainder: the whole contents. */
    method Save() returns (out: seq<T>)
      requires Valid()
      ensures out == items
    {
      out := [];
      var i := 0;
      FirstOffset(ex);
      while i < Shift(size, ex)
        invariant Saved(out, i)
      {
        out := SaveBlock(out, i);
        i := i + 1;
      }
      out := SaveRest(out);
    }

    // ---- Loading ----

    /** One round of `load`: a short read leaves what came in the block and gives up. */
    method LoadNext(input: seq<T>, length: nat, n: nat, ghost was: seq<nat>, ghost cap: nat) returns (next: nat, ok: bool)
      requires n < length && n <= |input| && |items| == size && Written(items, input, n, was, cap)
      modifies this`blocks, this`cells, this`table, this`capacity, this`owned, owned
      ensures owned >= old(owned) && fresh(owned - old(owned))
      ensures if ok then n < next <= length && next <= |input| && Written(items, input, next, was, cap)
              else |input| < length && LeftIn(items) && Grew(was, cap, Needed(size + |input| + 1, ex))
    {
      next := n + InBlock(size + n, length - n, ex);
      ok := next <= |input|;
      if ok {
        PutChunk(input, n, next, next, items, was, cap);
      } else {
        PutChunk(input, n, |input|, |input| + 1, items, was, cap);
        PrefixStays(cells, items, input[..|input|]);
      }
    }

    /** The contents are untouched, whatever is in the cells behind them. */
    ghost predicate LeftIn(s: seq<T>)
      reads this, owned
    {
      Backed() && |s| <= |cells| && cells[..|s|] == s
    }

    method LoadAll(input: seq<T>, length: nat) returns (ok: bool)
      requires Valid()
      modifies this`blocks, this`cells, this`table, this`capacity, this`owned, owned
      ensures owned >= old(owned) && fresh(owned - old(owned))
      ensures ok <==> length <= |input|
      ensures if ok then Written(items, input, length, old(table), old(capacity))
              else LeftIn(items) && Grew(old(table), old(capacity), Needed(size + |input| + 1, ex))
    {
      ghost var was, cap := table, capacity;
      var written := 0;
      NothingWritten(input);
      while written < length
        invariant 0 <= written <= length && written <= |input| && Written(items, input, written, was, cap)
        invariant owned >= old(owned) && fresh(owned - old(owned))
      {
        written, ok := LoadNext(input, length, written, was, cap);
        if !ok {
          return false;
        }
      }
      ok := true;
    }

    /** `load` takes `length` elements from the input, or fails and leaves the contents as they were. */
    method Load(input: seq<T>, length: nat) returns (ok: bool)
      requires Valid() && size + length < WORD
      modifies this`size, this`items, this`blocks, this`cells, this`table, this`capacity, this`owned, owned
      ensures Valid() && owned >= old(owned) && fresh(owned - old(owned))
      ensures capacity == old(capacity)
      ensures ok <==> old(size) + length <= block * capacity && length <= |input|
      ensures items == if ok then old(items) + input[..length] else old(items)
      ensures table == if old(size) + length > block * capacity then old(table)
                       else Extended(old(table), Needed(old(size) + Asked(|input|, length), ex), block)
    {
      if size + length > block * capacity {
        return false;
      }
      WithinTable(size + length, capacity, ex);
      NeededMonotone(size + Asked(|input|, length), size + length, ex);
      ok := LoadAll(input, length);
      if ok {
        Publish(length, input[..length]);
      }
    }

    // ---- Runs ----

    method Do(op: Op<T>)
      requires Valid() && Reserved() && Legal(Abstract(), op)
      modifies this, owned
      ensures Valid() && Reserved() && Abstract() == Step(old(Abstract()), op)
      ensures owned >= old(owned) && fresh(owned - old(owned))
    {
      match op {
        case Reserve(blockSize, maximum) => Reserve(blockSize, maximum);
        case Assign(data) => var _ := Assign(data);
        case PushBack(x) => var _ := PushBack(x);
        case Clear => Clear();
        case Load(input, length) => var _ := Load(input, length);
      }
    }

    /** Every legal run refines the same run on a plain sequence. Between reservations the capacity of the table
        does not change, so the table never moves under an unlocked reader. */
    method Run(ops: seq<Op<T>>)
      requires Valid() && Reserved() && LegalRun(Abstract(), ops)
      modifies this, owned
      ensures Valid() && Reserved() && Abstract() == Steps(old(Abstract()), ops)
      ensures |blocks| <= capacity
      ensures (forall op | op in ops :: !op.Reserve?) ==> capacity == old(capacity)
    {
      var i := 0;
      while i < |ops|
        invariant 0 <= i <= |ops| && Valid() && Reserved() && LegalRun(Abstract(), ops[i..])
        invariant Steps(Abstract(), ops[i..]) == Steps(old(Abstract()), ops)
        invariant owned >= old(owned) && fresh(owned - old(owned))
        invariant (forall op | op in ops[..i] :: !op.Reserve?) ==> capacity == old(capacity)
      {
        assert ops[i..][0] == ops[i] && ops[i..][1..] == ops[i + 1..];
        assert ops[..i + 1] == ops[..i] + [ops[i]];
        Do(ops[i]);
        i := i + 1;
      }
      assert ops[..i] == ops;
    }

    /** Saving a vector and loading the bytes into an empty one with room for them gives the same contents. */
    static method SaveThenLoad(from: Blocks<T>, to: Blocks<T>) returns (ok: bool)
      requires from.Valid() && to.Valid() && to.items == [] && |from.items| <= to.block * to.capacity
      requires from != to && from.owned !! to.owned
      modifies to, to.owned
      ensures ok && to.Valid() && to.items == from.items
    {
      var bytes := from.Save();
      ok := to.Load(bytes, |bytes|);
    }

    /** A run from a new vector. The first reservation may ask for blocks of any length, as there are none yet. */
    static method RunFresh(ops: seq<Op<T>>) returns (v: Blocks<T>)
      requires LegalRun(Fresh(), ops)
      ensures v.Valid() && v.Reserved() && v.Abstract() == Steps(Fresh(), ops) && fresh(v)
    {
      v := new Blocks();
      v.Run(ops);
    }

    /** Data longer than the size limit is let in: the limit is not kept for it. */
    static method OverlongIsAccepted(x: T) returns (v: Blocks<T>)
      ensures v.Valid() && v.Reserved() && v.maxSize == 1 && v.items == [x, x]
    {
      v := new Blocks();
      v.Reserve(1, 1);
      var ok := v.Assign([x, x]);
    }

    /** A vector that holds a block of one cell and is reserved again for blocks of two is not usable: offset 1 belongs
        to position 1 of block 0, which has no such position. */
    static method ReservedTooLong(x: T) returns (v: Blocks<T>)
      ensures v.Shape() && v.Reserved() && v.size == 0 && v.maxSize == 2 && !v.Valid()
      ensures |v.blocks| == 1 && Shift(1, v.ex) == 0 && Mask(1, v.ex) == 1 == v.blocks[0].Length
    {
      v := new Blocks();
      assert Exponent(1) == 0 && Exponent(2) == 1 && Power(1) == 2;
      v.Reserve(1, 2);
      var ok := v.PushBack(x);
      assert v.table == [1];
      v.Reserve(2, 2);
      assert v.table[0] == 1;
    }
  }
}
