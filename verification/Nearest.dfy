/** The distances of a vector to all centers, read without sorting them: which center is the c-th nearest, and which
    ones are close enough. */
module Nearest {
  import opened Arith
  import opened Collections
  import opened Sorting
  import opened HardAssign

  /** The centers before k in order of distance and number. */
  function Closer(row: seq<real>, k: int): set<int>
    requires 0 <= k < |row|
  {
    set j | 0 <= j < |row| && (row[j] < row[k] || (row[j] == row[k] && j < k))
  }

  /** Exactly c centers come before center k. */
  predicate IsNth(row: seq<real>, c: nat, k: int) {
    0 <= k < |row| && |Closer(row, k)| == c
  }

  ghost predicate IsSmallest(row: seq<real>, x: real) {
    x in row && forall y | y in row :: x <= y
  }

  /** Center k is at most factor times as far as the nearest one. */
  ghost predicate CloseEnough(row: seq<real>, factor: real, k: int) {
    0 <= k < |row| && exists x :: IsSmallest(row, x) && row[k] <= x * factor
  }

  function FirstNodes(r: seq<Ranked>, c: nat): set<int>
    requires c <= |r|
  {
    set j | 0 <= j < c :: r[j].node
  }

  lemma {:induction false} FirstNodesSize(r: seq<Ranked>, c: nat)
    requires c <= |r| && forall i, j | 0 <= i < j < |r| :: r[i].node != r[j].node
    ensures |FirstNodes(r, c)| == c
  {
    if c > 0 {
      FirstNodesSize(r, c - 1);
      assert FirstNodes(r, c) == FirstNodes(r, c - 1) + {r[c - 1].node};
    }
  }

  /** Every center has a place in the ranking. */
  lemma {:induction false} PlaceOf(row: seq<real>, k: nat) returns (c: nat)
    requires k < |row|
    ensures c < |row| && Ranking(row)[c].node == k
  {
    assert Centers(row)[k] == Ranked(k, row[k]);
    PermutationMember(Centers(row), Ranking(row), Ranked(k, row[k]));
    c :| c < |row| && Ranking(row)[c] == Ranked(k, row[k]);
  }

  /** The center at place c of the ranking is the c-th nearest. */
  lemma {:induction false} PlaceIsNth(row: seq<real>, c: nat)
    requires c < |row|
    ensures IsNth(row, c, Ranking(row)[c].node)
  {
    RankingFacts(row);
    var r := Ranking(row);
    var k := r[c].node;
    forall j ensures j in Closer(row, k) <==> j in FirstNodes(r, c) {
      if 0 <= j < |row| {
        var p := PlaceOf(row, j);
        if p < c {
          assert CenterLe(r[p], r[c]);
        } else if c < p {
          assert CenterLe(r[c], r[p]);
        }
      }
    }
    assert Closer(row, k) == FirstNodes(r, c);
    FirstNodesSize(r, c);
  }

  /** The ranking lists exactly the c-th nearest centers, each with its distance. */
  lemma {:induction false} RankingIsNth(row: seq<real>, c: nat, k: int)
    requires c < |row|
    ensures IsNth(row, c, Ranking(row)[c].node)
    ensures Ranking(row)[c].dist == row[Ranking(row)[c].node]
    ensures IsNth(row, c, k) <==> k == Ranking(row)[c].node
  {
    RankingFacts(row);
    PlaceIsNth(row, c);
    if IsNth(row, c, k) {
      var p := PlaceOf(row, k);
      PlaceIsNth(row, p);
    }
  }

  lemma {:induction false} FirstIsSmallest(row: seq<real>)
    requires row != []
    ensures IsSmallest(row, Ranking(row)[0].dist)
  {
    RankingFacts(row);
    var r := Ranking(row);
    forall y | y in row ensures r[0].dist <= y {
      var k :| 0 <= k < |row| && row[k] == y;
      var p := PlaceOf(row, k);
      if p > 0 {
        assert CenterLe(r[0], r[p]);
      }
    }
  }

  /** The test of the code on the sorted centers. */
  lemma {:induction false} CloseIs(row: seq<real>, factor: real, c: nat)
    requires c < |row|
    ensures CloseEnough(row, factor, Ranking(row)[c].node) <==> Ranking(row)[c].dist <= Ranking(row)[0].dist * factor
  {
    RankingFacts(row);
    FirstIsSmallest(row);
    var x := Ranking(row)[0].dist;
    assert forall y | IsSmallest(row, y) :: y == x;
  }

  // ---- A round of the balanced partitioner, on the distances ----

  /** Vector i asks for cluster k in round c. */
  ghost predicate Asks(d: Matrix, cf: real, c: nat, i: int, k: int)
    requires 0 <= i < |d|
  {
    IsNth(d[i], c, k) && CloseEnough(d[i], cf, k)
  }

  /** Vector i comes before vector j in cluster k. */
  predicate Before(d: Matrix, k: int, i: int, j: int)
    requires 0 <= i < |d| && 0 <= j < |d| && 0 <= k < |d[i]| && k < |d[j]|
  {
    d[i][k] < d[j][k] || (d[i][k] == d[j][k] && i < j)
  }

  lemma {:induction false} ItemAsks(d: Matrix, cf: real, c: nat, clusters: nat, i: nat, k: int)
    requires Shaped(d, clusters) && c < clusters <= NONE && i < |d| && k < clusters
    ensures var e := Items(d, cf, c, clusters)[i];
            && (Asks(d, cf, c, i, k) <==> e.tonode >= 0 && e.node == k)
            && (e.tonode >= 0 ==> 0 <= e.node < clusters && e == Edge(e.node, d[i][e.node], i) && Asks(d, cf, c, i, e.node))
            && (e.tonode < 0 ==> e.node == MAX_SIZE && e.tonode == -1 - i)
  {
    hide IsNth, CloseEnough, Ranking;
    RankingIsNth(d[i], c, k);
    RankingFacts(d[i]);
    CloseIs(d[i], cf, c);
  }

  lemma {:induction false} AskersBefore(d: Matrix, cf: real, c: nat, clusters: nat, k: nat, i: nat, j: nat)
    requires Shaped(d, clusters) && c < clusters <= NONE && i < |d| && j < |d| && k < clusters
    requires Asks(d, cf, c, i, k) && Asks(d, cf, c, j, k)
    ensures var items := Items(d, cf, c, clusters); EdgeLess(items[i], items[j]) <==> Before(d, k, i, j)
  {
    ItemAsks(d, cf, c, clusters, i, k);
    ItemAsks(d, cf, c, clusters, j, k);
  }

  /** The label cell a round writes for a vector: the cluster it asks for, or empty. */
  lemma {:induction false} CellOnDistances(d: Matrix, cf: real, c: nat, fill: bool, clusters: nat, columns: nat, s: RankState, r: RankState, i: nat)
    requires Shaped(d, clusters) && c < columns <= clusters <= NONE && i < |d|
    requires IsRound(d, cf, c, fill, clusters, columns, s, r)
    ensures |r.labels[i]| == |s.labels[i]| == columns
    ensures r.labels[i][c] != NONE ==> Asks(d, cf, c, i, r.labels[i][c])
    ensures forall j | 0 <= j < columns && j != c :: r.labels[i][j] == if fill && j > c then NONE else s.labels[i][j]
  {
    ItemAsks(d, cf, c, clusters, i, 0);
  }

  /** If i was given cluster k and j, which asked for it as well, was not, then i is nearer to k, or as near and the
      smaller number. */
  lemma {:induction false} NearestAreKept(d: Matrix, cf: real, c: nat, fill: bool, clusters: nat, columns: nat, s: RankState, r: RankState,
                                          k: nat, i: nat, j: nat)
    requires Shaped(d, clusters) && c < columns <= clusters <= NONE && k < clusters && i < |d| && j < |d|
    requires IsRound(d, cf, c, fill, clusters, columns, s, r)
    requires IsNth(d[i], c, k) && CloseEnough(d[i], cf, k) && IsNth(d[j], c, k) && CloseEnough(d[j], cf, k)
    ensures |r.labels[i]| == |r.labels[j]| == columns
    ensures r.labels[i][c] == k && r.labels[j][c] == NONE ==> d[i][k] < d[j][k] || (d[i][k] == d[j][k] && i < j)
  {
    hide IsNth, CloseEnough, Nearer;
    var items := Items(d, cf, c, clusters);
    CellOnDistances(d, cf, c, fill, clusters, columns, s, r, i);
    CellOnDistances(d, cf, c, fill, clusters, columns, s, r, j);
    ItemAsks(d, cf, c, clusters, i, k);
    ItemAsks(d, cf, c, clusters, j, k);
    AskersBefore(d, cf, c, clusters, k, j, i);
    if Keeps(items, r.limit, items[i]) && EdgeLess(items[j], items[i]) {
      KeptAreNearest(items, r.limit, items[i], items[j]);
    }
  }

  /** The vectors that ask for cluster k, and those that got it. */
  ghost function Askers(d: Matrix, cf: real, c: nat, k: int): set<int> {
    set i | 0 <= i < |d| && Asks(d, cf, c, i, k)
  }

  ghost function Given(labels: seq<seq<int>>, c: nat, k: int): set<int>
    requires forall i | 0 <= i < |labels| :: c < |labels[i]|
  {
    set i | 0 <= i < |labels| && labels[i][c] == k
  }

  lemma {:induction false} WithoutOne(ids: set<int>, n: int)
    ensures |ids| == |ids - {n}| + if n in ids then 1 else 0
  {
    if n in ids {
      assert ids == (ids - {n}) + {n};
    } else {
      assert ids == ids - {n};
    }
  }

  /** Counting items is counting vectors. */
  lemma {:induction false} CountIsSize<T>(p: T -> bool, s: seq<T>, ids: set<int>)
    requires forall i :: i in ids <==> 0 <= i < |s| && p(s[i])
    ensures CountIf(p, s) == |ids|
    decreases |s|
  {
    if s == [] {
      forall i ensures i !in ids {
      }
      assert ids == {};
    } else {
      hide CountIf;
      var n := |s| - 1;
      var rest := ids - {n};
      CountIsSize(p, s[..n], rest);
      CountIfSnoc(p, s[..n], s[n]);
      assert s[..n] + [s[n]] == s;
      WithoutOne(ids, n);
    }
  }

  /** A cluster is given to as many of its askers as its quota takes: to all of them if it is large enough. */
  lemma {:induction false} QuotaIsUsed(d: Matrix, cf: real, c: nat, fill: bool, clusters: nat, columns: nat, s: RankState, r: RankState, k: nat)
    requires Shaped(d, clusters) && c < columns <= clusters <= NONE && k < clusters
    requires IsRound(d, cf, c, fill, clusters, columns, s, r) && s.counts[k] <= s.limit[k]
    ensures forall i | 0 <= i < |d| :: c < |r.labels[i]|
    ensures var asked, given, quota := |Askers(d, cf, c, k)|, |Given(r.labels, c, k)|, s.limit[k] - s.counts[k];
            && given == (if asked <= quota then asked else quota)
            && r.counts[k] == s.counts[k] + given
  {
    var items := Items(d, cf, c, clusters);
    forall i | 0 <= i < |d|
      ensures c < |r.labels[i]|
      ensures i in Askers(d, cf, c, k) <==> CandidateOf(k)(items[i])
      ensures i in Given(r.labels, c, k) <==> KeptIn(items, r.limit, k)(items[i])
    {
      CellOnDistances(d, cf, c, fill, clusters, columns, s, r, i);
      ItemAsks(d, cf, c, clusters, i, k);
    }
    CountIsSize(CandidateOf(k), items, Askers(d, cf, c, k));
    CountIsSize(KeptIn(items, r.limit, k), items, Given(r.labels, c, k));
    ItemsAreOk(d, cf, c, clusters);
    KeptCountIsQuota(items, r.limit, k);
  }
}
