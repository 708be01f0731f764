/** All ranks of the balanced partitioner in lockstep: quota rounds separated by the exchange of counts. */
module PartitionRounds {
  import opened Arith
  import opened Sorting
  import opened HardAssign

  /** `factor` scales the mean cluster size to the bound T on a cluster's global count; `hardcut` scales the first
      round's share of it. With `merged` the ranks exchange their counts by files, whose merge saturates. */
  datatype Config = Config(data: seq<Matrix>, clusters: nat, columns: nat, cf: real, factor: real, hardcut: nat, merged: bool)

  /** The number of vectors of all ranks. */
  function Total(data: seq<Matrix>): nat {
    if data == [] then 0 else Total(data[..|data| - 1]) + |data[|data| - 1]|
  }

  lemma TotalSnoc(data: seq<Matrix>, d: Matrix)
    ensures Total(data + [d]) == Total(data) + |d|
  {
    assert (data + [d])[..|data|] == data;
  }

  /** T: floor(total / clusters * factor), the capacity the partitioner computes. */
  function Capacity(g: Config): nat
    requires g.clusters > 0 && g.factor >= 0.0
  {
    (Total(g.data) as real / g.clusters as real * g.factor).Floor
  }

  /** The capacity is the largest number of vectors within the mean cluster size times the factor. */
  lemma CapacityIs(g: Config)
    requires g.clusters > 0 && g.factor >= 0.0
    ensures var mean := Total(g.data) as real / g.clusters as real;
            Capacity(g) as real <= mean * g.factor < (Capacity(g) + 1) as real
  {
  }

  ghost predicate ConfigOk(g: Config) {
    && |g.data| > 0 && 0 < g.columns <= g.clusters <= NONE && g.factor >= 0.0
    && (forall r | 0 <= r < |g.data| :: Shaped(g.data[r], g.clusters) && |g.data[r]| <= MAX_SIZE)
    && FirstLimitOk(g.hardcut, Capacity(g), |g.data|)
  }

  /** The cast of an unsigned 64-bit number to a signed 32-bit one. */
  function ToInt(n: nat): (r: int)
    ensures -MAX_SIZE - 1 <= r <= MAX_SIZE
    ensures n <= MAX_SIZE ==> r == n
    ensures r >= 0 <==> n % WRAP <= MAX_SIZE
    ensures r <= n
  {
    var m := n % WRAP;
    if m <= MAX_SIZE then m else m - WRAP
  }

  /** The cast leaves a rank's first limit nonnegative. */
  predicate FirstLimitOk(hardcut: nat, capacity: nat, size: nat)
    requires size > 0
  {
    hardcut == 0 || hardcut * capacity / size % WRAP <= MAX_SIZE
  }

  /** A rank's first limit is within an int before it is cast to one. */
  predicate FirstLimitFits(hardcut: nat, capacity: nat, size: nat)
    requires size > 0
  {
    hardcut == 0 || hardcut * capacity / size <= MAX_SIZE
  }

  /** The first round's limit of a rank with n vectors. */
  function FirstLimit(hardcut: nat, capacity: nat, size: nat, n: nat): (l: int)
    requires size > 0
    ensures hardcut == 0 ==> l == n
    ensures hardcut > 0 && FirstLimitFits(hardcut, capacity, size) ==> l == hardcut * capacity / size
  {
    if hardcut == 0 then n else ToInt(hardcut * capacity / size)
  }

  /** One round of all ranks: the state it starts from and the state it ends in. */
  datatype Stage = Stage(ready: seq<RankState>, done: seq<RankState>)

  /** `MPI_Allreduce` over the local counts. */
  ghost function Global(ranks: seq<RankState>, k: nat): int
    requires forall r | 0 <= r < |ranks| :: k < |ranks[r].counts|
  {
    if ranks == [] then 0 else Global(ranks[..|ranks| - 1], k) + ranks[|ranks| - 1].counts[k]
  }

  ghost predicate RanksFit(g: Config, ranks: seq<RankState>) {
    |ranks| == |g.data| && forall r | 0 <= r < |ranks| :: Fits(ranks[r], |g.data[r]|, g.clusters, g.columns)
  }

  ghost predicate RankInitial(g: Config, d: Matrix, s: RankState)
    requires ConfigOk(g)
  {
    && Fits(s, |d|, g.clusters, g.columns)
    && (forall k | 0 <= k < g.clusters :: s.counts[k] == 0)
    && (forall k | 0 <= k < g.clusters :: s.limit[k] == FirstLimit(g.hardcut, Capacity(g), |g.data|, |d|))
  }

  /** The global count as the ranks see it between rounds. */
  ghost function Seen(g: Config, done: seq<RankState>, k: nat): int
    requires RanksFit(g, done) && k < g.clusters
  {
    if g.merged then Least(Global(done, k), MAX_SIZE) else Global(done, k)
  }

  /** Between rounds a rank's limit is its own count plus its share of the remaining global capacity. */
  ghost predicate RankRebalanced(g: Config, done: seq<RankState>, was: RankState, s: RankState)
    requires ConfigOk(g) && RanksFit(g, done)
  {
    && s.counts == was.counts && s.labels == was.labels && |s.limit| == |was.counts| == g.clusters
    && (forall k | 0 <= k < g.clusters :: s.limit[k] == was.counts[k] + Share(Capacity(g), Seen(g, done, k), |g.data|))
  }

  ghost predicate RoundAt(g: Config, t: seq<Stage>, c: nat, r: nat)
    requires ConfigOk(g) && c < |t| && c < g.columns && r < |g.data| && r < |t[c].ready| && r < |t[c].done|
  {
    IsRound(g.data[r], g.cf, c, c == g.columns - 1, g.clusters, g.columns, t[c].ready[r], t[c].done[r])
  }

  ghost predicate Rebalanced(g: Config, done: seq<RankState>, ready: seq<RankState>)
    requires ConfigOk(g)
  {
    && RanksFit(g, done) && |ready| == |done|
    && forall r | 0 <= r < |ready| :: RankRebalanced(g, done, done[r], ready[r])
  }

  /** Some rounds of all ranks, from the start. */
  ghost predicate IsRun(g: Config, t: seq<Stage>)
    requires ConfigOk(g)
  {
    && 0 < |t| <= g.columns
    && (forall c | 0 <= c < |t| :: |t[c].ready| == |t[c].done| == |g.data|)
    && (forall r | 0 <= r < |g.data| :: RankInitial(g, g.data[r], t[0].ready[r]))
    && (forall c, r | 0 <= c < |t| && 0 <= r < |g.data| :: RoundAt(g, t, c, r))
    && (forall c | 0 < c < |t| :: Rebalanced(g, t[c - 1].done, t[c].ready))
  }

  /** A stage is the round of column c on every rank. */
  ghost predicate StageIs(g: Config, s: Stage, c: nat)
    requires ConfigOk(g) && c < g.columns
  {
    && |s.ready| == |s.done| == |g.data|
    && forall r | 0 <= r < |g.data| ::
         IsRound(g.data[r], g.cf, c, c == g.columns - 1, g.clusters, g.columns, s.ready[r], s.done[r])
  }

  lemma RunStart(g: Config, s: Stage)
    requires ConfigOk(g) && StageIs(g, s, 0)
    requires forall r | 0 <= r < |g.data| :: RankInitial(g, g.data[r], s.ready[r])
    ensures IsRun(g, [s])
  {
    var t := [s];
    forall c, r | 0 <= c < |t| && 0 <= r < |g.data| ensures RoundAt(g, t, c, r) {
    }
  }

  lemma RunNext(g: Config, t: seq<Stage>, s: Stage)
    requires ConfigOk(g) && IsRun(g, t) && |t| < g.columns && StageIs(g, s, |t|)
    requires Rebalanced(g, t[|t| - 1].done, s.ready)
    ensures IsRun(g, t + [s])
  {
    var t' := t + [s];
    forall c, r | 0 <= c < |t'| && 0 <= r < |g.data| ensures RoundAt(g, t', c, r) {
      if c < |t| {
        assert RoundAt(g, t, c, r);
      }
    }
    forall c | 0 < c < |t'| ensures Rebalanced(g, t'[c - 1].done, t'[c].ready) {
      if c < |t| {
        assert Rebalanced(g, t[c - 1].done, t[c].ready);
      }
    }
  }

  lemma RunFits(g: Config, t: seq<Stage>, c: nat)
    requires ConfigOk(g) && IsRun(g, t) && c < |t|
    ensures RanksFit(g, t[c].ready) && RanksFit(g, t[c].done)
  {
    forall r | 0 <= r < |g.data|
      ensures Fits(t[c].ready[r], |g.data[r]|, g.clusters, g.columns) && Fits(t[c].done[r], |g.data[r]|, g.clusters, g.columns)
    {
      assert RoundAt(g, t, c, r);
    }
  }

  /** What a run says about rank r in round c. */
  lemma RunStep(g: Config, t: seq<Stage>, c: nat, r: nat)
    requires ConfigOk(g) && IsRun(g, t) && c < |t| && r < |g.data|
    ensures RanksFit(g, t[c].ready) && RanksFit(g, t[c].done) && RoundAt(g, t, c, r)
    ensures c == 0 ==> RankInitial(g, g.data[r], t[0].ready[r])
    ensures c > 0 ==> RanksFit(g, t[c - 1].done) && RankRebalanced(g, t[c - 1].done, t[c - 1].done[r], t[c].ready[r])
  {
    RunFits(g, t, c);
    if c > 0 {
      assert Rebalanced(g, t[c - 1].done, t[c].ready);
    }
  }

  // ---- One rank, one cluster ----

  lemma RoundWithinLimit(d: Matrix, cf: real, c: nat, fill: bool, clusters: nat, columns: nat, s: RankState, r: RankState, k: nat)
    requires Shaped(d, clusters) && c < columns <= clusters <= NONE && k < clusters
    requires IsRound(d, cf, c, fill, clusters, columns, s, r) && s.limit[k] >= s.counts[k]
    ensures s.counts[k] <= r.counts[k] <= s.limit[k]
  {
    ItemsAreOk(d, cf, c, clusters);
    KeptCountIsQuota(Items(d, cf, c, clusters), r.limit, k);
  }

  lemma InitialQuota(g: Config, d: Matrix, s: RankState, k: nat)
    requires ConfigOk(g) && RankInitial(g, d, s) && k < g.clusters
    ensures 0 == s.counts[k] <= s.limit[k]
  {
    var l := FirstLimit(g.hardcut, Capacity(g), |g.data|, |d|);
    assert l >= 0;
  }

  /** No rank ever starts a round with a negative quota, and none exceeds its limit. */
  lemma {:induction false} QuotaNeverNegative(g: Config, t: seq<Stage>, c: nat, r: nat, k: nat)
    requires ConfigOk(g) && IsRun(g, t) && c < |t| && r < |g.data| && k < g.clusters
    ensures RanksFit(g, t[c].ready) && RanksFit(g, t[c].done)
    ensures 0 <= t[c].ready[r].counts[k] <= t[c].ready[r].limit[k]
    ensures t[c].ready[r].counts[k] <= t[c].done[r].counts[k] <= t[c].ready[r].limit[k]
  {
    RunStep(g, t, c, r);
    if c == 0 {
      InitialQuota(g, g.data[r], t[0].ready[r], k);
    } else {
      QuotaNeverNegative(g, t, c - 1, r, k);
    }
    RoundWithinLimit(g.data[r], g.cf, c, c == g.columns - 1, g.clusters, g.columns, t[c].ready[r], t[c].done[r], k);
  }

  lemma {:induction false} FitsIsOk(hardcut: nat, capacity: nat, size: nat)
    requires size > 0 && FirstLimitFits(hardcut, capacity, size)
    ensures FirstLimitOk(hardcut, capacity, size)
  {
    if hardcut > 0 {
      DivGalois(hardcut * capacity, 0, size);
      assert ToInt(hardcut * capacity / size) >= 0;
    }
  }

  /** The cast never raises the first limit. It leaves it alone exactly if it fits, and makes it negative exactly if the
      first round's quotas are. */
  lemma FirstLimitWraps(hardcut: nat, capacity: nat, size: nat, n: nat)
    requires size > 0 && hardcut > 0
    ensures FirstLimit(hardcut, capacity, size, n) <= hardcut * capacity / size
    ensures FirstLimit(hardcut, capacity, size, n) == hardcut * capacity / size <==> FirstLimitFits(hardcut, capacity, size)
    ensures FirstLimit(hardcut, capacity, size, n) < 0 <==> !FirstLimitOk(hardcut, capacity, size)
  {
  }

  // ---- The global bound ----

  ghost function LimitSum(ranks: seq<RankState>, k: nat): int
    requires forall r | 0 <= r < |ranks| :: k < |ranks[r].limit|
  {
    if ranks == [] then 0 else LimitSum(ranks[..|ranks| - 1], k) + ranks[|ranks| - 1].limit[k]
  }

  lemma {:induction false} GlobalWithinLimits(done: seq<RankState>, ready: seq<RankState>, k: nat)
    requires |done| == |ready|
    requires forall r | 0 <= r < |done| :: k < |done[r].counts| && k < |ready[r].limit| && k < |ready[r].counts|
    requires forall r | 0 <= r < |done| :: ready[r].counts[k] <= done[r].counts[k] <= ready[r].limit[k]
    ensures Global(ready, k) <= Global(done, k) <= LimitSum(ready, k)
  {
    if done != [] {
      GlobalWithinLimits(done[..|done| - 1], ready[..|ready| - 1], k);
    }
  }

  lemma {:induction false} LimitSumShares(done: seq<RankState>, ready: seq<RankState>, k: nat, share: int)
    requires |done| == |ready|
    requires forall r | 0 <= r < |done| :: k < |done[r].counts| && k < |ready[r].limit| && k < |ready[r].counts|
    requires forall r | 0 <= r < |done| :: ready[r].limit[k] == done[r].counts[k] + share
    ensures LimitSum(ready, k) == Global(done, k) + |done| * share
  {
    if done != [] {
      LimitSumShares(done[..|done| - 1], ready[..|ready| - 1], k, share);
      assert |done| * share == (|done| - 1) * share + share;
    }
  }

  /** Handing every rank its share never gives out more than remains. */
  lemma SharesFit(capacity: int, global: int, size: nat)
    requires size > 0
    ensures global + size * Share(capacity, global, size) <= Most(capacity, global)
  {
    if capacity > global {
      DivTimesLe(capacity - global, size);
    }
  }

  /** A share is the largest equal part: one vector more for every rank would not fit. */
  lemma ShareIsLargest(capacity: int, global: int, size: nat)
    requires size > 0
    ensures capacity > global ==> global + size * Share(capacity, global, size) <= capacity < global + size * (Share(capacity, global, size) + 1)
    ensures capacity <= global ==> Share(capacity, global, size) == 0
  {
    if capacity > global {
      DivTimesLe(capacity - global, size);
    }
  }

  /** With a saturated count that holds exactly if the capacity leaves less than one for each rank above the largest int,
      or the exact count is not past the largest int by more than what the division drops. */
  lemma MergedSharesFit(capacity: int, exact: int, size: nat)
    requires size > 0
    ensures exact + size * Share(capacity, Least(exact, MAX_SIZE), size) <= Most(capacity, exact) <==>
              capacity < MAX_SIZE + size || exact <= MAX_SIZE + (capacity - MAX_SIZE) % size
  {
    var over := capacity - MAX_SIZE;
    if exact <= MAX_SIZE {
      SharesFit(capacity, exact, size);
    } else if over > 0 {
      var q, rem := over / size, over % size;
      assert over == size * q + rem;
      if over < size {
        DivModUnique(over, size, 0, over);
      } else {
        DivGalois(over, 1, size);
        MulLe(1, q, size);
      }
    }
  }

  /** When the saturation cannot matter: no rank's share exceeds one less than the room above the largest int, or the
      capacity is past what int-sized ranks can hold. */
  predicate MergeSafe(g: Config)
    requires g.clusters > 0 && g.factor >= 0.0
  {
    !g.merged || Capacity(g) < MAX_SIZE + |g.data| || Capacity(g) >= |g.data| * MAX_SIZE
  }

  lemma StageBound(g: Config, t: seq<Stage>, c: nat, k: nat)
    requires ConfigOk(g) && IsRun(g, t) && c < |t| && k < g.clusters
    ensures RanksFit(g, t[c].ready) && RanksFit(g, t[c].done)
    ensures Global(t[c].done, k) <= LimitSum(t[c].ready, k)
  {
    RunFits(g, t, c);
    forall r | 0 <= r < |g.data| ensures t[c].ready[r].counts[k] <= t[c].done[r].counts[k] <= t[c].ready[r].limit[k] {
      QuotaNeverNegative(g, t, c, r, k);
    }
    GlobalWithinLimits(t[c].done, t[c].ready, k);
  }

  lemma {:induction false} LimitSumConstant(ranks: seq<RankState>, k: nat, limit: int)
    requires forall r | 0 <= r < |ranks| :: k < |ranks[r].limit| && ranks[r].limit[k] == limit
    ensures LimitSum(ranks, k) == |ranks| * limit
  {
    if ranks != [] {
      LimitSumConstant(ranks[..|ranks| - 1], k, limit);
      assert |ranks| * limit == (|ranks| - 1) * limit + limit;
    }
  }

  /** A stage's limits are the counts before it and one share each. */
  lemma RebalancedLimits(g: Config, t: seq<Stage>, c: nat, k: nat)
    requires ConfigOk(g) && IsRun(g, t) && 0 < c < |t| && k < g.clusters
    ensures RanksFit(g, t[c - 1].done) && RanksFit(g, t[c].ready)
    ensures LimitSum(t[c].ready, k) ==
            Global(t[c - 1].done, k) + |g.data| * Share(Capacity(g), Seen(g, t[c - 1].done, k), |g.data|)
  {
    RunFits(g, t, c - 1);
    RunFits(g, t, c);
    var before, ready := t[c - 1].done, t[c].ready;
    var share := Share(Capacity(g), Seen(g, before, k), |g.data|);
    forall r | 0 <= r < |g.data| ensures ready[r].limit[k] == before[r].counts[k] + share {
      RunStep(g, t, c, r);
    }
    LimitSumShares(before, ready, k, share);
  }

  /** Rounds after the first never push a cluster past max(T, its count after the first round). */
  lemma {:induction false} LaterRoundsWithinCapacity(g: Config, t: seq<Stage>, c: nat, k: nat)
    requires ConfigOk(g) && IsRun(g, t) && c < |t| && k < g.clusters && MergeSafe(g)
    ensures RanksFit(g, t[0].done) && RanksFit(g, t[c].done)
    ensures Global(t[c].done, k) <= Most(Capacity(g), Global(t[0].done, k))
  {
    RunFits(g, t, 0);
    StageBound(g, t, c, k);
    if c > 0 {
      LaterRoundsWithinCapacity(g, t, c - 1, k);
      RebalancedLimits(g, t, c, k);
      var before := Global(t[c - 1].done, k);
      if !g.merged {
        SharesFit(Capacity(g), before, |g.data|);
      } else if Capacity(g) < MAX_SIZE + |g.data| {
        MergedSharesFit(Capacity(g), before, |g.data|);
      } else {
        GlobalAtMostVectors(g, t, c, k);
      }
    }
  }

  /** With hardcut = 1 no cluster's global count exceeds the capacity after any round of any run. */
  lemma CapacityBound(g: Config, t: seq<Stage>, c: nat, k: nat)
    requires ConfigOk(g) && IsRun(g, t) && c < |t| && k < g.clusters && g.hardcut == 1 && MergeSafe(g)
    ensures RanksFit(g, t[c].done) && Global(t[c].done, k) <= Capacity(g)
  {
    StageBound(g, t, 0, k);
    var l := FirstLimit(1, Capacity(g), |g.data|, 0);
    FirstLimitWraps(1, Capacity(g), |g.data|, 0);
    forall r | 0 <= r < |g.data| ensures t[0].ready[r].limit[k] == l {
      RunStep(g, t, 0, r);
    }
    LimitSumConstant(t[0].ready, k, l);
    MulLe(l, Capacity(g) / |g.data|, |g.data|);
    DivTimesLe(Capacity(g), |g.data|);
    LaterRoundsWithinCapacity(g, t, c, k);
  }

  // ---- Counts and labels agree ----

  function Equals(k: int): int -> bool {
    (x: int) => x == k
  }

  /** Label cells equal to k among the first c columns. */
  function CellCount(labels: seq<seq<int>>, c: nat, k: int): nat
    requires forall i | 0 <= i < |labels| :: c <= |labels[i]|
  {
    if labels == [] then 0
    else CellCount(labels[..|labels| - 1], c, k) + CountIf(Equals(k), labels[|labels| - 1][..c])
  }

  lemma {:induction false} CellCountGrows(before: seq<seq<int>>, after: seq<seq<int>>, items: seq<Edge>, q: Edge -> bool,
                                          added: seq<int>, c: nat, fill: bool, width: nat, k: int)
    requires |before| == |after| == |items| == |added| && c < width && RowsOf(before, width) && RowsOf(after, width)
    requires forall i | 0 <= i < |before| :: after[i] == RowWith(before[i], added[i], c, fill)
    requires forall i | 0 <= i < |before| :: added[i] == k <==> q(items[i])
    ensures CellCount(after, c + 1, k) == CellCount(before, c, k) + CountIf(q, items)
  {
    if before != [] {
      var n := |before| - 1;
      CellCountGrows(before[..n], after[..n], items[..n], q, added[..n], c, fill, width, k);
      assert after[n][..c + 1] == before[n][..c] + [added[n]];
      CountIfSnoc(Equals(k), before[n][..c], added[n]);
      assert items == items[..n] + [items[n]];
      CountIfSnoc(q, items[..n], items[n]);
    }
  }

  /** A round keeps the counts equal to the label cells. */
  lemma RoundKeepsCellCount(d: Matrix, cf: real, c: nat, fill: bool, clusters: nat, columns: nat, s: RankState, r: RankState, k: nat)
    requires Shaped(d, clusters) && c < columns <= clusters <= NONE && k < clusters
    requires IsRound(d, cf, c, fill, clusters, columns, s, r) && s.counts[k] == CellCount(s.labels, c, k)
    ensures r.counts[k] == CellCount(r.labels, c + 1, k)
  {
    var items := Items(d, cf, c, clusters);
    var added := seq(|d|, i requires 0 <= i < |d| => Label(items, r.limit, items[i]));
    CellCountGrows(s.labels, r.labels, items, KeptIn(items, r.limit, k), added, c, fill, columns, k);
  }

  /** After every round each rank's count of a cluster is the number of its label cells that name it. */
  lemma {:induction false} CountsAreLabelCells(g: Config, t: seq<Stage>, c: nat, r: nat, k: nat)
    requires ConfigOk(g) && IsRun(g, t) && c < |t| && r < |g.data| && k < g.clusters
    ensures RanksFit(g, t[c].done) && t[c].done[r].counts[k] == CellCount(t[c].done[r].labels, c + 1, k)
  {
    RunStep(g, t, c, r);
    if c == 0 {
      NoColumnsNoCells(t[0].ready[r].labels, k);
    } else {
      CountsAreLabelCells(g, t, c - 1, r, k);
    }
    RoundKeepsCellCount(g.data[r], g.cf, c, c == g.columns - 1, g.clusters, g.columns, t[c].ready[r], t[c].done[r], k);
  }

  lemma {:induction false} NoColumnsNoCells(labels: seq<seq<int>>, k: int)
    ensures CellCount(labels, 0, k) == 0
  {
    if labels != [] {
      NoColumnsNoCells(labels[..|labels| - 1], k);
    }
  }

  // ---- No vector is given a cluster twice ----

  /** Cell j of vector i is empty or names the vector's j-th nearest center. */
  lemma {:induction false} CellsNameRankedCenters(g: Config, t: seq<Stage>, c: nat, r: nat, i: nat, j: nat)
    requires ConfigOk(g) && IsRun(g, t) && j <= c < |t| && r < |g.data| && i < |g.data[r]|
    ensures RanksFit(g, t[c].done) && |Ranking(g.data[r][i])| == g.clusters
    ensures var cell := t[c].done[r].labels[i][j]; cell == NONE || cell == Ranking(g.data[r][i])[j].node
  {
    RunStep(g, t, c, r);
    var items := Items(g.data[r], g.cf, c, g.clusters);
    assert t[c].done[r].labels[i] ==
           RowWith(t[c].ready[r].labels[i], Label(items, t[c].done[r].limit, items[i]), c, c == g.columns - 1);
    if j < c {
      CellsNameRankedCenters(g, t, c - 1, r, i, j);
    }
  }

  /** Across all rounds no vector is given the same cluster twice. */
  lemma NoClusterTwice(g: Config, t: seq<Stage>, c: nat, r: nat, i: nat, j: nat, j': nat)
    requires ConfigOk(g) && IsRun(g, t) && j < j' <= c < |t| && r < |g.data| && i < |g.data[r]|
    ensures RanksFit(g, t[c].done)
    ensures var row := t[c].done[r].labels[i]; row[j] != row[j'] || row[j] == row[j'] == NONE
  {
    CellsNameRankedCenters(g, t, c, r, i, j);
    CellsNameRankedCenters(g, t, c, r, i, j');
    RankingFacts(g.data[r][i]);
  }

  /** A row whose cells differ, but for empty ones, names a cluster at most once. */
  lemma {:induction false} AtMostOnce(row: seq<int>, k: int)
    requires forall j, j' | 0 <= j < j' < |row| :: row[j] != row[j'] || row[j] != k
    ensures CountIf(Equals(k), row) <= 1
  {
    if row != [] {
      AtMostOnce(row[1..], k);
      if row[0] == k {
        assert forall j | 0 <= j < |row[1..]| :: row[1..][j] == row[j + 1];
        CountIfInterval(Equals(k), row[1..], 0, 0);
      }
    }
  }

  lemma {:induction false} CellCountAtMost(labels: seq<seq<int>>, c: nat, k: int)
    requires forall i | 0 <= i < |labels| :: c <= |labels[i]| && CountIf(Equals(k), labels[i][..c]) <= 1
    ensures CellCount(labels, c, k) <= |labels|
  {
    if labels != [] {
      CellCountAtMost(labels[..|labels| - 1], c, k);
    }
  }

  /** A rank's count of a cluster is at most the number of its vectors. */
  lemma LocalAtMostVectors(g: Config, t: seq<Stage>, c: nat, r: nat, k: nat)
    requires ConfigOk(g) && IsRun(g, t) && c < |t| && r < |g.data| && k < g.clusters
    ensures RanksFit(g, t[c].done) && t[c].done[r].counts[k] <= |g.data[r]|
  {
    CountsAreLabelCells(g, t, c, r, k);
    var labels := t[c].done[r].labels;
    forall i | 0 <= i < |labels| ensures CountIf(Equals(k), labels[i][..c + 1]) <= 1 {
      forall j, j' | 0 <= j < j' < c + 1 ensures labels[i][j] != labels[i][j'] || labels[i][j] != k {
        NoClusterTwice(g, t, c, r, i, j, j');
      }
      AtMostOnce(labels[i][..c + 1], k);
    }
    CellCountAtMost(labels, c + 1, k);
  }

  lemma {:induction false} GlobalNotNegative(ranks: seq<RankState>, k: nat)
    requires forall r | 0 <= r < |ranks| :: k < |ranks[r].counts| && ranks[r].counts[k] >= 0
    ensures Global(ranks, k) >= 0
  {
    if ranks != [] {
      GlobalNotNegative(ranks[..|ranks| - 1], k);
    }
  }

  lemma {:induction false} ShareAtMost(capacity: nat, global: nat, size: nat)
    requires size > 0
    ensures Share(capacity, global, size) <= capacity / size
  {
    DivMonotone(Most(capacity - global, 0), capacity, size);
    DivMonotone(0, capacity, size);
  }

  /** If a rank's vectors and its part of the capacity together fit an int, so does every limit it is given later. */
  lemma LaterLimitsFit(g: Config, t: seq<Stage>, c: nat, r: nat, k: nat)
    requires ConfigOk(g) && IsRun(g, t) && 0 < c < |t| && r < |g.data| && k < g.clusters
    requires |g.data[r]| + Capacity(g) / |g.data| <= MAX_SIZE
    ensures RanksFit(g, t[c].ready) && 0 <= t[c].ready[r].limit[k] <= MAX_SIZE
  {
    RunFits(g, t, c - 1);
    RunFits(g, t, c);
    RunStep(g, t, c, r);
    QuotaNeverNegative(g, t, c, r, k);
    LocalAtMostVectors(g, t, c - 1, r, k);
    var done := t[c - 1].done;
    forall q | 0 <= q < |done| ensures done[q].counts[k] >= 0 {
      QuotaNeverNegative(g, t, c - 1, q, k);
    }
    GlobalNotNegative(done, k);
    ShareAtMost(Capacity(g), Seen(g, done, k), |g.data|);
  }

  lemma {:induction false} GlobalAtMost(ranks: seq<RankState>, k: nat, bound: nat)
    requires forall r | 0 <= r < |ranks| :: k < |ranks[r].counts| && ranks[r].counts[k] <= bound
    ensures Global(ranks, k) <= |ranks| * bound
  {
    if ranks != [] {
      GlobalAtMost(ranks[..|ranks| - 1], k, bound);
      assert |ranks| * bound == (|ranks| - 1) * bound + bound;
    }
  }

  /** Int-sized ranks hold at most the largest int of vectors each. */
  lemma GlobalAtMostVectors(g: Config, t: seq<Stage>, c: nat, k: nat)
    requires ConfigOk(g) && IsRun(g, t) && c < |t| && k < g.clusters
    ensures RanksFit(g, t[c].done) && Global(t[c].done, k) <= |g.data| * MAX_SIZE
  {
    RunFits(g, t, c);
    forall r | 0 <= r < |g.data| ensures t[c].done[r].counts[k] <= MAX_SIZE {
      LocalAtMostVectors(g, t, c, r, k);
    }
    GlobalAtMost(t[c].done, k, MAX_SIZE);
  }
}
