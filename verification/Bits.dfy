/** Shifts and masks on natural numbers, and the arithmetic of a table of blocks of 2^ex cells. */
module Bits {
  import opened Arith

  /** 1 << ex. */
  function Power(ex: nat): (p: nat)
    ensures p > 0
  {
    if ex == 0 then 1 else 2 * Power(ex - 1)
  }

  /** n >> ex. */
  function Shift(n: nat, ex: nat): nat {
    if ex == 0 then n else Shift(n / 2, ex - 1)
  }

  /** a & b, bit by bit. */
  function And(a: nat, b: nat): nat {
    if a == 0 || b == 0 then 0
    else (if a % 2 == 1 && b % 2 == 1 then 1 else 0) + 2 * And(a / 2, b / 2)
  }

  /** Position of an offset in its block of 2^ex cells: o & (2^ex - 1). */
  function Mask(o: nat, ex: nat): nat {
    And(o, Power(ex) - 1)
  }

  lemma {:induction false} MaskStep(o: nat, ex: nat)
    requires ex > 0
    ensures Mask(o, ex) == o % 2 + 2 * Mask(o / 2, ex - 1)
  {
    var m := Power(ex) - 1;
    assert m % 2 == 1 && m / 2 == Power(ex - 1) - 1;
  }

  /** Shift and mask split an offset into block number and position. */
  lemma {:induction false} ShiftMask(o: nat, ex: nat)
    ensures o == Shift(o, ex) * Power(ex) + Mask(o, ex) && Mask(o, ex) < Power(ex)
  {
    if ex > 0 {
      ShiftMask(o / 2, ex - 1);
      MaskStep(o, ex);
      Doubled(o, Shift(o / 2, ex - 1), Power(ex - 1), Mask(o / 2, ex - 1));
    }
  }

  lemma Doubled(o: nat, q: nat, p: nat, m: nat)
    requires o / 2 == q * p + m
    ensures o == q * (2 * p) + (o % 2 + 2 * m)
  {
    assert q * (2 * p) == 2 * (q * p);
  }

  /** The shift is the quotient and the mask the remainder by 2^ex. */
  lemma ShiftMaskAreDivMod(o: nat, ex: nat)
    ensures Shift(o, ex) == o / Power(ex) && Mask(o, ex) == o % Power(ex)
  {
    ShiftMask(o, ex);
    DivModUnique(o, Power(ex), Shift(o, ex), Mask(o, ex));
  }

  lemma ShiftMaskUnique(o: nat, ex: nat, q: nat, r: nat)
    requires o == q * Power(ex) + r && r < Power(ex)
    ensures Shift(o, ex) == q && Mask(o, ex) == r
  {
    ShiftMaskAreDivMod(o, ex);
    DivModUnique(o, Power(ex), q, r);
  }

  function ExponentFrom(n: nat, ex: nat): (r: nat)
    ensures ex <= r && n <= Power(r) && (r > ex ==> Power(r - 1) < n)
    decreases n - Power(ex)
  {
    if n <= Power(ex) then ex else ExponentFrom(n, ex + 1)
  }

  /** ceil(log2(n)): the exponent of the least power of two that is at least n. */
  function Exponent(n: nat): (r: nat)
    requires n > 0
    ensures n <= Power(r) && (r > 0 ==> Power(r - 1) < n)
  {
    ExponentFrom(n, 0)
  }

  // ---- Offsets, block numbers and positions ----

  /** Two offsets in order of block number: blocks below lie wholly below. */
  lemma EarlierBlock(a: nat, b: nat, ex: nat)
    requires Shift(a, ex) < Shift(b, ex)
    ensures a - Mask(a, ex) + Power(ex) <= b - Mask(b, ex) && a < b
  {
    ShiftMask(a, ex);
    ShiftMask(b, ex);
    NextMultiple(Shift(a, ex), Shift(b, ex), Power(ex));
  }

  lemma NextMultiple(q: nat, q': nat, p: nat)
    requires q < q'
    ensures q * p + p <= q' * p
  {
    MulLe(q + 1, q', p);
    assert (q + 1) * p == q * p + p;
  }

  lemma SameBlock(a: nat, b: nat, ex: nat)
    requires Shift(a, ex) == Shift(b, ex)
    ensures a - b == Mask(a, ex) - Mask(b, ex)
  {
    ShiftMask(a, ex);
    ShiftMask(b, ex);
  }

  /** The cells of a chunk that stays within one block are exactly the offsets of the chunk. */
  lemma ChunkCells(at: nat, n: nat, ex: nat, o: nat)
    requires Mask(at, ex) + n <= Power(ex)
    ensures at <= o < at + n <==>
              Shift(o, ex) == Shift(at, ex) && Mask(at, ex) <= Mask(o, ex) < Mask(at, ex) + n
    ensures at <= o < at + n ==> Mask(o, ex) - Mask(at, ex) == o - at
  {
    MaskAtMost(o, ex);
    if Shift(o, ex) < Shift(at, ex) {
      EarlierBlock(o, at, ex);
    } else if Shift(o, ex) > Shift(at, ex) {
      EarlierBlock(at, o, ex);
    } else {
      SameBlock(o, at, ex);
    }
  }

  lemma MaskAtMost(o: nat, ex: nat)
    ensures Mask(o, ex) <= o && Mask(o, ex) < Power(ex)
  {
    ShiftMask(o, ex);
  }

  /** How much of `left` elements from offset o on lies in the block of o. */
  function InBlock(o: nat, left: nat, ex: nat): (r: nat)
    ensures r <= left && (left > 0 ==> r > 0) && Mask(o, ex) + r <= Power(ex)
    ensures r == left || Mask(o, ex) + r == Power(ex)
  {
    MaskAtMost(o, ex);
    Least(Power(ex) - Mask(o, ex), left)
  }

  lemma ShiftMonotone(a: nat, b: nat, ex: nat)
    requires a <= b
    ensures Shift(a, ex) <= Shift(b, ex)
  {
    if Shift(a, ex) > Shift(b, ex) {
      EarlierBlock(b, a, ex);
    }
  }

  lemma ShiftNext(o: nat, ex: nat)
    ensures Shift(o + 1, ex) <= Shift(o, ex) + 1
  {
    ShiftMask(o, ex);
    if Mask(o, ex) + 1 < Power(ex) {
      ShiftMaskUnique(o + 1, ex, Shift(o, ex), Mask(o, ex) + 1);
    } else {
      Carry(Shift(o, ex), Power(ex));
      ShiftMaskUnique(o + 1, ex, Shift(o, ex) + 1, 0);
    }
  }

  lemma Carry(q: nat, p: nat)
    ensures (q + 1) * p == q * p + p
  {
  }

  /** The start o of a block below the block of n: the whole block lies below n. At n's own block only n's
      position in it is left. */
  lemma BlockStart(o: nat, n: nat, ex: nat)
    requires Mask(o, ex) == 0 && Shift(o, ex) <= Shift(n, ex)
    ensures Shift(o, ex) < Shift(n, ex) ==> o + Power(ex) <= n
    ensures Shift(o, ex) == Shift(n, ex) ==> n == o + Mask(n, ex)
  {
    MaskAtMost(n, ex);
    if Shift(o, ex) < Shift(n, ex) {
      EarlierBlock(o, n, ex);
    } else {
      SameBlock(n, o, ex);
    }
  }

  lemma FirstOffset(ex: nat)
    ensures Shift(0, ex) == 0 && Mask(0, ex) == 0
  {
    ShiftMaskUnique(0, ex, 0, 0);
  }

  /** A whole block further. */
  lemma NextBlock(o: nat, ex: nat)
    ensures Shift(o + Power(ex), ex) == Shift(o, ex) + 1 && Mask(o + Power(ex), ex) == Mask(o, ex)
  {
    ShiftMask(o, ex);
    Carry(Shift(o, ex), Power(ex));
    ShiftMaskUnique(o + Power(ex), ex, Shift(o, ex) + 1, Mask(o, ex));
  }

  /** Number of blocks that n elements take. */
  function Needed(n: nat, ex: nat): nat {
    if n == 0 then 0 else Shift(n - 1, ex) + 1
  }

  lemma NeededMonotone(a: nat, b: nat, ex: nat)
    requires a <= b
    ensures Needed(a, ex) <= Needed(b, ex)
  {
    if a > 0 {
      ShiftMonotone(a - 1, b - 1, ex);
    }
  }

  /** A chunk within one block: its last element lies in the block of its first. */
  lemma NeededChunk(at: nat, n: nat, ex: nat)
    requires n > 0 && Mask(at, ex) + n <= Power(ex)
    ensures Needed(at + n, ex) == Shift(at, ex) + 1
  {
    ShiftMask(at, ex);
    ShiftMaskUnique(at + n - 1, ex, Shift(at, ex), Mask(at, ex) + (n - 1));
  }

  /** Rounding up by adding the mask before the shift: exactly the blocks that n elements take. */
  lemma RoundedUp(n: nat, ex: nat)
    ensures Shift(n + (Power(ex) - 1), ex) == Needed(n, ex)
  {
    if n == 0 {
      ShiftMaskUnique(Power(ex) - 1, ex, 0, Power(ex) - 1);
    } else {
      ShiftMask(n - 1, ex);
      var q, r := Shift(n - 1, ex), Mask(n - 1, ex);
      Carry(q, Power(ex));
      ShiftMaskUnique(n + (Power(ex) - 1), ex, q + 1, r);
    }
  }

  /** n elements fit into the cells of `capacity` blocks exactly when they take no more blocks. */
  lemma WithinTable(n: nat, capacity: nat, ex: nat)
    ensures n <= Power(ex) * capacity <==> Needed(n, ex) <= capacity
  {
    if n > 0 {
      ShiftMask(n - 1, ex);
      SlotsOf(n, Shift(n - 1, ex), Mask(n - 1, ex), capacity, Power(ex));
    }
  }

  /** Offset o lies in a table of n blocks exactly when its block does. */
  lemma InTable(o: nat, n: nat, ex: nat)
    ensures o < n * Power(ex) <==> Shift(o, ex) < n
  {
    WithinTable(o + 1, n, ex);
  }

  /** The first offset behind a table of n blocks lies in the next block. */
  lemma NextSlot(o: nat, n: nat, ex: nat)
    requires o <= n * Power(ex)
    ensures Shift(o, ex) <= n
  {
    InTable(o, n + 1, ex);
    Carry(n, Power(ex));
  }

  /** The cells of a table of n blocks, and of block n behind it. */
  lemma NewCells(o: nat, n: nat, ex: nat)
    requires o < n * Power(ex) + Power(ex)
    ensures if o < n * Power(ex) then Shift(o, ex) < n else Shift(o, ex) == n && Mask(o, ex) == o - n * Power(ex)
  {
    InTable(o, n, ex);
    if o >= n * Power(ex) {
      ShiftMaskUnique(o, ex, n, o - n * Power(ex));
    }
  }

  lemma RoomForChunk(at: nat, n: nat, blocks: nat, ex: nat)
    requires Shift(at, ex) < blocks && Mask(at, ex) + n <= Power(ex)
    ensures at < blocks * Power(ex) && at + n <= blocks * Power(ex)
  {
    ShiftMask(at, ex);
    NextMultiple(Shift(at, ex), blocks, Power(ex));
  }

  lemma SlotsOf(n: nat, q: nat, r: nat, capacity: nat, block: nat)
    requires n - 1 == q * block + r && r < block
    ensures n <= block * capacity <==> q < capacity
  {
    if q < capacity {
      MulLe(q + 1, capacity, block);
    } else {
      MulLe(capacity, q, block);
    }
  }
}
