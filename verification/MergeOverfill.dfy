/** The rounds of `ProcessWithoutMPI`, whose ranks see the saturated merge of their counts: exactly for which numbers of
    ranks and capacities every run keeps the bound of the exact counts. */
module MergeOverfill {
  import opened Arith
  import opened Sorting
  import opened HardAssign
  import opened PartitionRounds

  // ---- Every configuration has a run ----

  function Start(g: Config, d: Matrix): (s: RankState)
    requires ConfigOk(g)
    ensures RankInitial(g, d, s)
  {
    RankState(seq(g.clusters, _ => FirstLimit(g.hardcut, Capacity(g), |g.data|, |d|)),
              seq(g.clusters, _ => 0), seq(|d|, _ => seq(g.columns, _ => 0)))
  }

  ghost function Started(g: Config): (ready: seq<RankState>)
    requires ConfigOk(g)
    ensures RanksFit(g, ready) && forall r | 0 <= r < |g.data| :: ready[r] == Start(g, g.data[r])
  {
    seq(|g.data|, r requires 0 <= r < |g.data| => Start(g, g.data[r]))
  }

  ghost function Rounded(g: Config, ready: seq<RankState>, c: nat): (done: seq<RankState>)
    requires ConfigOk(g) && RanksFit(g, ready) && c < g.columns
    ensures RanksFit(g, done)
    ensures forall r | 0 <= r < |g.data| ::
              IsRound(g.data[r], g.cf, c, c == g.columns - 1, g.clusters, g.columns, ready[r], done[r])
  {
    seq(|g.data|, r requires 0 <= r < |g.data| =>
      Round(g.data[r], g.cf, c, c == g.columns - 1, g.clusters, g.columns, ready[r]))
  }

  ghost function Relimited(g: Config, done: seq<RankState>, was: RankState): (s: RankState)
    requires ConfigOk(g) && RanksFit(g, done) && |was.counts| == g.clusters
    ensures RankRebalanced(g, done, was, s)
  {
    was.(limit := seq(g.clusters, k requires 0 <= k < g.clusters =>
      was.counts[k] + Share(Capacity(g), Seen(g, done, k), |g.data|)))
  }

  ghost function Relimits(g: Config, done: seq<RankState>): (ready: seq<RankState>)
    requires ConfigOk(g) && RanksFit(g, done)
    ensures RanksFit(g, ready) && Rebalanced(g, done, ready)
  {
    seq(|g.data|, r requires 0 <= r < |g.data| => Relimited(g, done, done[r]))
  }

  ghost function TwoRounds(g: Config): (t: seq<Stage>)
    requires ConfigOk(g) && g.columns >= 2
  {
    var ready := Started(g);
    var done := Rounded(g, ready, 0);
    var ready' := Relimits(g, done);
    [Stage(ready, done), Stage(ready', Rounded(g, ready', 1))]
  }

  lemma TwoRoundsRun(g: Config)
    requires ConfigOk(g) && g.columns >= 2
    ensures IsRun(g, TwoRounds(g))
  {
    var t := TwoRounds(g);
    RunStart(g, t[0]);
    RunNext(g, [t[0]], t[1]);
    assert [t[0]] + [t[1]] == t;
  }

  // ---- Vectors around two centers ----

  /** a vectors nearest to center 0 and b nearest to center 1; each may also go to the other one. */
  function Near(a: nat, b: nat): (d: Matrix)
    ensures |d| == a + b && Shaped(d, 2)
    ensures forall i | 0 <= i < a + b :: d[i] == if i < a then [1.0, 2.0] else [2.0, 1.0]
  {
    seq(a, _ => [1.0, 2.0]) + seq(b, _ => [2.0, 1.0])
  }

  /** The ranking of two centers at different distances. */
  lemma RankTwo(row: seq<real>)
    requires |row| == 2 && row[0] != row[1]
    ensures Ranking(row)[0].node == (if row[0] < row[1] then 0 else 1)
    ensures Ranking(row)[1].node == (if row[0] < row[1] then 1 else 0)
    ensures forall j | 0 <= j < 2 :: Ranking(row)[j].dist == row[Ranking(row)[j].node]
  {
    RankingFacts(row);
    var r := Ranking(row);
    assert CenterLe(r[0], r[1]) && r[0].node != r[1].node;
  }

  lemma ItemNode(a: nat, b: nat, c: nat, i: nat)
    requires c < 2 && i < a + b
    ensures Items(Near(a, b), 2.0, c, 2)[i].node == if i < a then c else 1 - c
  {
    RankTwo(Near(a, b)[i]);
  }

  /** In round 0 the candidates of cluster 0 are the first a vectors, in round 1 the other b. */
  lemma Candidates(a: nat, b: nat, c: nat)
    requires c < 2
    ensures CountIf(CandidateOf(0), Items(Near(a, b), 2.0, c, 2)) == if c == 0 then a else b
  {
    var items := Items(Near(a, b), 2.0, c, 2);
    forall i | 0 <= i < |items| ensures items[i].node == if i < a then c else 1 - c {
      ItemNode(a, b, c, i);
    }
    if c == 0 {
      CountIfInterval(CandidateOf(0), items, 0, a);
    } else {
      CountIfInterval(CandidateOf(0), items, a, a + b);
    }
  }

  /** What a round adds to cluster 0: the smaller of the quota and the candidates. */
  lemma RoundAdds(a: nat, b: nat, c: nat, fill: bool, s: RankState, r: RankState)
    requires c < 2 && IsRound(Near(a, b), 2.0, c, fill, 2, 2, s, r) && s.counts[0] <= s.limit[0]
    ensures r.counts[0] == s.counts[0] + Least(s.limit[0] - s.counts[0], if c == 0 then a else b)
  {
    ItemsAreOk(Near(a, b), 2.0, c, 2);
    KeptCountIsQuota(Items(Near(a, b), 2.0, c, 2), r.limit, 0);
    Candidates(a, b, c);
  }

  // ---- n ranks with a vectors of center 0 each, and one of center 1 on the first `extra` of them ----

  function Ranks(n: nat, a: nat, extra: nat): seq<Matrix> {
    if n == 0 then [] else Ranks(n - 1, a, extra) + [Near(a, Extra(n - 1, extra))]
  }

  function Extra(r: nat, extra: nat): nat {
    if r < extra then 1 else 0
  }

  lemma {:induction false} RanksAre(n: nat, a: nat, extra: nat)
    ensures |Ranks(n, a, extra)| == n
    ensures forall r | 0 <= r < n :: Ranks(n, a, extra)[r] == Near(a, Extra(r, extra))
  {
    if n > 0 {
      RanksAre(n - 1, a, extra);
    }
  }

  lemma {:induction false} RanksTotal(n: nat, a: nat, extra: nat)
    ensures Total(Ranks(n, a, extra)) == n * a + Least(n, extra)
  {
    if n > 0 {
      RanksTotal(n - 1, a, extra);
      TotalSnoc(Ranks(n - 1, a, extra), Near(a, Extra(n - 1, extra)));
      OneMore(n, a);
    }
  }

  lemma OneMore(n: nat, a: nat)
    requires n > 0
    ensures n * a == (n - 1) * a + a
  {
  }

  lemma {:induction false} CountsAdd(ranks: seq<RankState>, a: nat, extra: nat)
    requires forall r | 0 <= r < |ranks| :: |ranks[r].counts| > 0 && ranks[r].counts[0] == a + Extra(r, extra)
    ensures Global(ranks, 0) == |ranks| * a + Least(|ranks|, extra)
  {
    if ranks != [] {
      CountsAdd(ranks[..|ranks| - 1], a, extra);
      OneMore(|ranks|, a);
    }
  }

  function Overfull(n: nat, capacity: nat, hardcut: nat): Config
    requires n > 0
  {
    Config(Ranks(n, capacity / n, capacity % n + 1), 2, 2, 2.0, Factor(capacity), hardcut, true)
  }

  /** The scale that makes half of capacity + 1 the capacity again. */
  function Factor(capacity: nat): (f: real)
    ensures f >= 0.0 && (capacity + 1) as real / 2.0 * f == capacity as real
  {
    var x, c := (capacity + 1) as real, capacity as real;
    var f := c / (x / 2.0);
    assert x / 2.0 > 0.0;
    f
  }

  /** Every rank gets its part of the capacity and there is room for one vector more. */
  lemma ShareOut(n: nat, capacity: nat)
    requires MAX_SIZE + n <= capacity < n * MAX_SIZE && n > 0
    ensures n * (capacity / n) + capacity % n == capacity && capacity / n + 1 <= MAX_SIZE
  {
    var a := capacity / n;
    assert n * a + capacity % n == capacity;
    if a >= MAX_SIZE {
      MulLe(MAX_SIZE, a, n);
    }
  }

  /** The capacity is past the largest int by at least one for every rank, also after the first round. */
  lemma ShareLeft(n: nat, capacity: nat, first: nat)
    requires MAX_SIZE + n <= capacity && n > 0 && first + capacity % n == capacity
    ensures MAX_SIZE < first <= capacity && Share(capacity, Least(first, MAX_SIZE), n) >= 1
  {
    DivGalois(capacity - MAX_SIZE, 1, n);
  }

  lemma CapacityIs(g: Config, capacity: nat)
    requires g.clusters == 2 && g.factor == Factor(capacity) && Total(g.data) == capacity + 1
    ensures Capacity(g) == capacity
  {
    var x := (capacity + 1) as real;
    assert Total(g.data) as real / g.clusters as real == x / 2.0;
    assert x / 2.0 * g.factor == capacity as real;
  }

  lemma OverfullOk(n: nat, capacity: nat, hardcut: nat)
    requires MAX_SIZE + n <= capacity < n * MAX_SIZE && n > 0 && FirstLimitFits(hardcut, capacity, n)
    ensures var g := Overfull(n, capacity, hardcut); ConfigOk(g) && Capacity(g) == capacity && |g.data| == n
  {
    hide FirstLimitOk, FirstLimitFits;
    FitsIsOk(hardcut, capacity, n);
    var g, a, extra := Overfull(n, capacity, hardcut), capacity / n, capacity % n + 1;
    RanksAre(n, a, extra);
    RanksTotal(n, a, extra);
    ShareOut(n, capacity);
    CapacityIs(g, capacity);
  }

  lemma FirstLimitAtLeast(hardcut: nat, capacity: nat, n: nat, vectors: nat)
    requires n > 0 && FirstLimitFits(hardcut, capacity, n) && vectors >= capacity / n
    ensures FirstLimit(hardcut, capacity, n, vectors) >= capacity / n
  {
    if hardcut > 0 {
      MulLe(1, hardcut, capacity);
      DivMonotone(capacity, hardcut * capacity, n);
    }
  }

  /** After the first round every rank holds its a vectors in cluster 0. */
  lemma FirstRound(n: nat, capacity: nat, hardcut: nat, r: nat)
    requires MAX_SIZE + n <= capacity < n * MAX_SIZE && r < n && FirstLimitFits(hardcut, capacity, n)
    ensures var g := Overfull(n, capacity, hardcut);
            ConfigOk(g) && RanksFit(g, TwoRounds(g)[0].done) && |g.data| == n &&
            TwoRounds(g)[0].done[r].counts[0] == capacity / n
  {
    hide IsRound, FirstLimitOk, FirstLimitFits, Capacity, FirstLimit;
    var g, a, extra := Overfull(n, capacity, hardcut), capacity / n, capacity % n + 1;
    OverfullOk(n, capacity, hardcut);
    RanksAre(n, a, extra);
    var stage := TwoRounds(g)[0];
    FirstLimitAtLeast(hardcut, capacity, n, |g.data[r]|);
    RoundAdds(a, Extra(r, extra), 0, false, stage.ready[r], stage.done[r]);
  }

  /** The count the ranks then see is the largest int, so every rank may take at least one more. */
  lemma FirstGlobal(n: nat, capacity: nat, hardcut: nat)
    requires MAX_SIZE + n <= capacity < n * MAX_SIZE && n > 0 && FirstLimitFits(hardcut, capacity, n)
    ensures var g := Overfull(n, capacity, hardcut);
            ConfigOk(g) && |g.data| == n && RanksFit(g, TwoRounds(g)[0].done) &&
            Global(TwoRounds(g)[0].done, 0) == n * (capacity / n) && MAX_SIZE < n * (capacity / n) <= capacity &&
            Share(capacity, Seen(g, TwoRounds(g)[0].done, 0), n) >= 1
  {
    var g, a := Overfull(n, capacity, hardcut), capacity / n;
    OverfullOk(n, capacity, hardcut);
    var done := TwoRounds(g)[0].done;
    forall r | 0 <= r < n ensures done[r].counts[0] == a + Extra(r, 0) {
      FirstRound(n, capacity, hardcut, r);
    }
    CountsAdd(done, a, 0);
    ShareOut(n, capacity);
    ShareLeft(n, capacity, n * a);
  }

  lemma SecondRound(n: nat, capacity: nat, hardcut: nat, r: nat)
    requires MAX_SIZE + n <= capacity < n * MAX_SIZE && r < n && FirstLimitFits(hardcut, capacity, n)
    ensures var g := Overfull(n, capacity, hardcut);
            ConfigOk(g) && RanksFit(g, TwoRounds(g)[1].done) && |g.data| == n &&
            TwoRounds(g)[1].done[r].counts[0] == capacity / n + Extra(r, capacity % n + 1)
  {
    hide IsRound, FirstLimitOk, FirstLimitFits, Capacity, Global, FirstLimit;
    var g, a, extra := Overfull(n, capacity, hardcut), capacity / n, capacity % n + 1;
    FirstRound(n, capacity, hardcut, r);
    FirstGlobal(n, capacity, hardcut);
    OverfullOk(n, capacity, hardcut);
    RanksAre(n, a, extra);
    var t := TwoRounds(g);
    assert RankRebalanced(g, t[0].done, t[0].done[r], t[1].ready[r]);
    RoundAdds(a, Extra(r, extra), 1, true, t[1].ready[r], t[1].done[r]);
  }

  /** A run of n int-sized ranks that ends with one vector more in cluster 0 than its capacity, which it did not
      exceed after the first round. */
  lemma Overfills(n: nat, capacity: nat, hardcut: nat)
    requires MAX_SIZE + n <= capacity < n * MAX_SIZE && n > 0 && FirstLimitFits(hardcut, capacity, n)
    ensures var g := Overfull(n, capacity, hardcut);
            && ConfigOk(g) && g.merged && |g.data| == n && Capacity(g) == capacity && g.hardcut == hardcut
            && IsRun(g, TwoRounds(g)) && RanksFit(g, TwoRounds(g)[0].done) && RanksFit(g, TwoRounds(g)[1].done)
            && Global(TwoRounds(g)[0].done, 0) <= capacity && Global(TwoRounds(g)[1].done, 0) == capacity + 1
  {
    hide IsRound, FirstLimitOk, FirstLimitFits, Capacity, Global, FirstLimit, IsRun;
    var g, a, extra := Overfull(n, capacity, hardcut), capacity / n, capacity % n + 1;
    OverfullOk(n, capacity, hardcut);
    TwoRoundsRun(g);
    FirstGlobal(n, capacity, hardcut);
    var done := TwoRounds(g)[1].done;
    forall r | 0 <= r < n ensures done[r].counts[0] == a + Extra(r, extra) {
      SecondRound(n, capacity, hardcut, r);
    }
    CountsAdd(done, a, extra);
    ShareOut(n, capacity);
  }

  /** Two ranks, with a capacity two above the largest int and the first round cut to it. */
  lemma TwoRanksOverfill() returns (g: Config, t: seq<Stage>)
    ensures ConfigOk(g) && g.merged && |g.data| == 2 && g.hardcut == 1 && Capacity(g) == MAX_SIZE + 2 && IsRun(g, t)
    ensures |t| == 2 && RanksFit(g, t[1].done) && Global(t[1].done, 0) > Capacity(g)
  {
    Overfills(2, MAX_SIZE + 2, 1);
    g := Overfull(2, MAX_SIZE + 2, 1);
    t := TwoRounds(g);
  }

  /** After round c of the run cluster k is within the larger of the capacity and its count after the first round. */
  ghost predicate Within(g: Config, t: seq<Stage>, c: nat, k: nat)
    requires ConfigOk(g) && IsRun(g, t) && c < |t| && k < g.clusters
  {
    RanksFit(g, t[0].done) && RanksFit(g, t[c].done) &&
    Global(t[c].done, k) <= Most(Capacity(g), Global(t[0].done, k))
  }

  /** Every run of n int-sized ranks that merge their counts keeps the bound. */
  ghost predicate AlwaysWithin(n: nat, capacity: nat, hardcut: nat) {
    forall g, t, c: nat, k: nat |
      && ConfigOk(g) && g.merged && |g.data| == n && Capacity(g) == capacity && g.hardcut == hardcut
      && IsRun(g, t) && c < |t| && k < g.clusters :: Within(g, t, c, k)
  }

  /** The saturation is harmless exactly when the capacity is less than one per rank above the largest int, or is past
      what n int-sized ranks can hold. */
  lemma MergedBoundIff(n: nat, capacity: nat, hardcut: nat)
    requires n > 0 && FirstLimitFits(hardcut, capacity, n)
    ensures AlwaysWithin(n, capacity, hardcut) <==> capacity < MAX_SIZE + n || capacity >= n * MAX_SIZE
  {
    if capacity < MAX_SIZE + n || capacity >= n * MAX_SIZE {
      forall g, t, c: nat, k: nat |
        && ConfigOk(g) && g.merged && |g.data| == n && Capacity(g) == capacity && g.hardcut == hardcut
        && IsRun(g, t) && c < |t| && k < g.clusters
        ensures Within(g, t, c, k)
      {
        LaterRoundsWithinCapacity(g, t, c, k);
      }
    } else {
      Overfills(n, capacity, hardcut);
      var g := Overfull(n, capacity, hardcut);
      assert !Within(g, TwoRounds(g), 1, 0);
    }
  }
}
