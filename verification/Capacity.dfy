/** How many vectors fit in a memory budget, and how much memory a number of vectors needs: the two estimates of an
    index, each rounded to whole blocks. */
module Capacity {
  import opened Arith

  datatype Algo = BKT | KDT | Other

  /** What one vector costs depends on: bytes per value, dimensions, metadata bytes, neighbours and trees. */
  datatype Shape = Shape(valueSize: nat, dimension: nat, maxMeta: nat, neighbors: nat, trees: nat)

  function NodeSize(algo: Algo): nat {
    match algo
    case BKT => 4 * 3
    case KDT => 4 * 2 + 4 + 4
    case Other => 0
  }

  /** Bytes per vector: values, metadata, metadata offset, graph, deleted flag, tree nodes. */
  function Unit(algo: Algo, s: Shape): (r: nat)
    ensures r > 0
  {
    s.valueSize * s.dimension + s.maxMeta + 8 + 4 * s.neighbors + 1 + NodeSize(algo) * s.trees
  }

  function EstimatedVectorCount(memory: nat, algo: Algo, s: Shape, block: nat): nat
    requires block > 0
  {
    if algo == Other then 0 else RoundDown(memory / Unit(algo, s), block)
  }

  function RoundUp(n: nat, block: nat): nat
    requires block > 0
  {
    (n + block - 1) / block * block
  }

  function RoundDown(n: nat, block: nat): nat
    requires block > 0
  {
    n / block * block
  }

  /** The sum over all vectors, part by part, before it is cut to 64 bits. */
  function Parts(n: nat, algo: Algo, s: Shape): nat {
    s.valueSize * s.dimension * n + s.maxMeta * n + 8 * n + 4 * s.neighbors * n + n + NodeSize(algo) * s.trees * n
  }

  function EstimatedMemoryUsage(n: nat, algo: Algo, s: Shape, block: nat): nat
    requires block > 0
  {
    if algo == Other then 0 else Parts(RoundUp(n, block), algo, s) % WORD
  }

  /** The parts add up to one unit for each vector. */
  lemma {:induction false} PartsAreUnits(n: nat, algo: Algo, s: Shape)
    ensures Parts(n, algo, s) == n * Unit(algo, s)
  {
    var a, b, c, d := s.valueSize * s.dimension, s.maxMeta, s.neighbors, NodeSize(algo) * s.trees;
    assert n * (a + b + 8 + 4 * c + 1 + d) == a * n + b * n + 8 * n + 4 * c * n + n + d * n;
  }

  lemma {:induction false} RoundUpLe(n: nat, block: nat, q: nat)
    requires block > 0
    ensures (n + block - 1) / block <= q <==> n <= q * block
  {
    DivGalois(n + block - 1, q + 1, block);
    assert (q + 1) * block == q * block + block;
  }

  lemma {:induction false} RoundDownIs(n: nat, block: nat)
    requires block > 0
    ensures RoundDown(n, block) % block == 0 && RoundDown(n, block) <= n
    ensures forall m: nat | m % block == 0 && m <= n :: m <= RoundDown(n, block)
  {
    DivTimesLe(n, block);
    DivModUnique(RoundDown(n, block), block, n / block, 0);
    forall m: nat | m % block == 0 && m <= n ensures m <= RoundDown(n, block) {
      DivMonotone(m, n, block);
      MulLe(m / block, n / block, block);
    }
  }

  lemma {:induction false} RoundUpIs(n: nat, block: nat)
    requires block > 0
    ensures RoundUp(n, block) % block == 0 && n <= RoundUp(n, block) < n + block
  {
    DivTimesLe(n + block - 1, block);
    DivModUnique(RoundUp(n, block), block, (n + block - 1) / block, 0);
  }

  /** The bytes of one vector, in the sizes of the code's types. */
  lemma {:induction false} UnitIs(s: Shape)
    ensures Unit(BKT, s) == s.valueSize * s.dimension + s.maxMeta + 8 + 4 * s.neighbors + 1 + 12 * s.trees
    ensures Unit(KDT, s) == s.valueSize * s.dimension + s.maxMeta + 8 + 4 * s.neighbors + 1 + 16 * s.trees
  {
  }

  /** The count is the largest number of whole blocks of vectors that fit, with 12 bytes a tree for BKT and 16 for
      KDT. */
  lemma {:induction false} CountIsLargest(m: nat, algo: Algo, s: Shape, block: nat)
    requires block > 0 && algo != Other
    ensures var node := if algo == BKT then 12 else 16;
            var unit := s.valueSize * s.dimension + s.maxMeta + 8 + 4 * s.neighbors + 1 + node * s.trees;
            var n := EstimatedVectorCount(m, algo, s, block);
            && n % block == 0 && n * unit <= m
            && forall k: nat | k % block == 0 && k * unit <= m :: k <= n
  {
    UnitIs(s);
    var unit, n := Unit(algo, s), EstimatedVectorCount(m, algo, s, block);
    RoundDownIs(m / unit, block);
    DivGalois(m, n, unit);
    forall k: nat | k % block == 0 && k * unit <= m ensures k <= n {
      DivGalois(m, k, unit);
    }
  }

  /** The usage is that of the fewest whole blocks that hold n vectors. */
  lemma {:induction false} UsageIsWholeBlocks(n: nat, algo: Algo, s: Shape, block: nat) returns (k: nat)
    requires block > 0 && algo != Other && Parts(RoundUp(n, block), algo, s) < WORD
    ensures k % block == 0 && n <= k < n + block
    ensures var node := if algo == BKT then 12 else 16;
            EstimatedMemoryUsage(n, algo, s, block) ==
            k * (s.valueSize * s.dimension + s.maxMeta + 8 + 4 * s.neighbors + 1 + node * s.trees)
  {
    k := RoundUp(n, block);
    RoundUpIs(n, block);
    UnitIs(s);
    PartsAreUnits(k, algo, s);
    NoOverflow(Parts(k, algo, s));
  }

  /** Rounding up before multiplying is adjoint to dividing before rounding down. */
  lemma {:induction false} RoundingGalois(n: nat, m: nat, u: nat, block: nat)
    requires u > 0 && block > 0
    ensures RoundUp(n, block) * u <= m <==> n <= RoundDown(m / u, block)
  {
    DivGalois(m, RoundUp(n, block), u);
    BlockGalois(n, m / u, block);
  }

  lemma {:induction false} BlockGalois(n: nat, k: nat, block: nat)
    requires block > 0
    ensures RoundUp(n, block) <= k <==> n <= RoundDown(k, block)
  {
    DivGalois(k, (n + block - 1) / block, block);
    RoundUpLe(n, block, k / block);
  }

  lemma {:induction false} NoOverflow(x: nat)
    requires x < WORD
    ensures x % WORD == x
  {
  }

  /** The estimates form a Galois connection, while the usage fits 64 bits: n vectors fit into m bytes exactly when n
      is at most the count for m bytes. */
  lemma {:induction false} FitsIff(n: nat, m: nat, algo: Algo, s: Shape, block: nat)
    requires algo != Other && block > 0 && Parts(RoundUp(n, block), algo, s) < WORD
    ensures EstimatedMemoryUsage(n, algo, s, block) <= m <==> n <= EstimatedVectorCount(m, algo, s, block)
  {
    NoOverflow(Parts(RoundUp(n, block), algo, s));
    PartsAreUnits(RoundUp(n, block), algo, s);
    RoundingGalois(n, m, Unit(algo, s), block);
  }

  /** So the count for the memory n vectors need is at least n, and the memory for the count of m bytes is at most m. */
  lemma {:induction false} RoundTrips(n: nat, m: nat, algo: Algo, s: Shape, block: nat)
    requires algo != Other && block > 0 && Parts(RoundUp(n, block), algo, s) < WORD && m < WORD
    ensures n <= EstimatedVectorCount(EstimatedMemoryUsage(n, algo, s, block), algo, s, block)
    ensures EstimatedMemoryUsage(EstimatedVectorCount(m, algo, s, block), algo, s, block) <= m
  {
    FitsIff(n, EstimatedMemoryUsage(n, algo, s, block), algo, s, block);
    var k := EstimatedVectorCount(m, algo, s, block);
    RoundingGalois(k, m, Unit(algo, s), block);
    PartsAreUnits(RoundUp(k, block), algo, s);
    FitsIff(k, m, algo, s, block);
  }

  /** For any other algorithm both estimates are 0, and the connection holds for no vectors only. */
  lemma {:induction false} OtherAlgo(n: nat, m: nat, s: Shape, block: nat)
    requires block > 0
    ensures (EstimatedMemoryUsage(n, Other, s, block) <= m <==> n <= EstimatedVectorCount(m, Other, s, block)) <==> n == 0
  {
  }
}
