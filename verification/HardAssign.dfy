/** One quota round of the balanced partitioner on one rank, as a function of the distances: which
    candidate each vector offers, which candidates a cluster keeps, and what the round writes. */
module HardAssign {
  import opened Arith
  import opened Collections
  import opened Sorting

  /** Distance of each vector (row) to each center (column). */
  type Matrix = seq<seq<real>>

  /** The label of an unassigned cell: the largest `short`. */
  const NONE := 32767
  const MAX_DIST: real := 34028234663852885981170418348451692544.0

  datatype Ranked = Ranked(node: int, dist: real)

  /** A candidate assignment; a negative `tonode` encodes vector -tonode - 1 as not assigned. */
  datatype Edge = Edge(node: int, dist: real, tonode: int)

  ghost predicate Shaped(d: Matrix, clusters: nat) {
    forall i | 0 <= i < |d| :: |d[i]| == clusters
  }

  // ---- The centers of one vector, nearest first ----

  predicate CenterLe(a: Ranked, b: Ranked) {
    a.dist < b.dist || (a.dist == b.dist && a.node <= b.node)
  }

  function Centers(row: seq<real>): seq<Ranked> {
    seq(|row|, k requires 0 <= k < |row| => Ranked(k, row[k]))
  }

  /** All centers, sorted by distance and then by number. */
  function Ranking(row: seq<real>): (r: seq<Ranked>)
    ensures |r| == |row|
  {
    Sort(CenterLe, Centers(row))
  }

  /** Each center occurs once in the ranking, with its distance. */
  lemma RankingFacts(row: seq<real>)
    ensures var r := Ranking(row);
            && (forall j | 0 <= j < |r| :: 0 <= r[j].node < |row| && r[j].dist == row[r[j].node])
            && (forall i, j | 0 <= i < j < |r| :: CenterLe(r[i], r[j]) && r[i].node != r[j].node)
  {
    var r := Ranking(row);
    DistinctPermutation(Centers(row), r);
    forall j | 0 <= j < |r| ensures r[j] in Centers(row) {
      PermutationMember(r, Centers(row), r[j]);
    }
  }

  /** The candidate vector i offers in round c: its c-th nearest center, unless that is too far. */
  function Item(d: Matrix, cf: real, c: nat, i: nat): (e: Edge)
    requires i < |d| && c < |d[i]|
  {
    var r := Ranking(d[i]);
    if r[c].dist <= r[0].dist * cf then Edge(r[c].node, r[c].dist, i)
    else Edge(MAX_SIZE, MAX_DIST, -1 - i)
  }

  function Items(d: Matrix, cf: real, c: nat, clusters: nat): (s: seq<Edge>)
    requires Shaped(d, clusters) && c < clusters
    ensures |s| == |d|
  {
    seq(|d|, i requires 0 <= i < |d| => Item(d, cf, c, i))
  }

  function Vector(e: Edge): int {
    if e.tonode >= 0 then e.tonode else -e.tonode - 1
  }

  /** What the items of a round look like before and after sorting. */
  ghost predicate ItemsOk(s: seq<Edge>, clusters: nat) {
    && Distinct(s)
    && forall e | e in s :: if e.tonode >= 0 then 0 <= e.node < clusters else e.node == MAX_SIZE
  }

  lemma ItemsAreOk(d: Matrix, cf: real, c: nat, clusters: nat)
    requires Shaped(d, clusters) && c < clusters
    ensures ItemsOk(Items(d, cf, c, clusters), clusters)
    ensures forall i | 0 <= i < |d| :: Vector(Items(d, cf, c, clusters)[i]) == i
  {
    forall i | 0 <= i < |d| ensures 0 <= Ranking(d[i])[c].node < clusters {
      RankingFacts(d[i]);
    }
  }

  // ---- Which candidates a cluster keeps ----

  /** `EdgeCompare`: by cluster, then distance, then vector. */
  predicate EdgeLess(a: Edge, b: Edge) {
    if a.node == b.node then a.dist < b.dist || (a.dist == b.dist && a.tonode < b.tonode)
    else a.node < b.node
  }

  predicate EdgeLe(a: Edge, b: Edge) {
    !EdgeLess(b, a)
  }

  /** The candidates of the same cluster that are nearer, or as near with a smaller vector number. */
  function Nearer(e: Edge): Edge -> bool {
    (x: Edge) => x.node == e.node && EdgeLess(x, e)
  }

  /** A candidate is kept when fewer than the cluster's quota of candidates are nearer. */
  predicate Keeps(items: seq<Edge>, quota: seq<int>, e: Edge) {
    e.tonode >= 0 && 0 <= e.node < |quota| && CountIf(Nearer(e), items) < quota[e.node]
  }

  function Label(items: seq<Edge>, quota: seq<int>, e: Edge): int {
    if Keeps(items, quota, e) then e.node else NONE
  }

  function KeptIn(items: seq<Edge>, quota: seq<int>, k: int): Edge -> bool {
    (e: Edge) => e.node == k && Keeps(items, quota, e)
  }

  function CandidateOf(k: int): Edge -> bool {
    (e: Edge) => e.node == k
  }

  /** The number of vectors the round adds to cluster k. */
  function KeptCount(items: seq<Edge>, quota: seq<int>, k: int): nat {
    CountIf(KeptIn(items, quota, k), items)
  }

  // ---- Sorted items: each cluster is a segment, ordered by nearness ----

  function Below(k: int): Edge -> bool {
    (e: Edge) => e.node < k
  }

  /** First position of cluster k's segment. */
  function Start(s: seq<Edge>, k: int): nat {
    CountIf(Below(k), s)
  }

  ghost predicate NodesAscend(s: seq<Edge>) {
    forall i, j | 0 <= i < j < |s| :: s[i].node <= s[j].node
  }

  lemma {:induction false} StartSplits(s: seq<Edge>, k: int)
    requires NodesAscend(s)
    ensures Start(s, k) <= |s|
    ensures forall j | 0 <= j < |s| :: s[j].node < k <==> j < Start(s, k)
  {
    if s != [] {
      StartSplits(s[1..], k);
      forall j | 0 <= j < |s| ensures s[j].node < k <==> j < Start(s, k) {
        if j > 0 {
          assert s[j] == s[1..][j - 1];
        }
        if s[0].node >= k && |s| > 1 {
          assert s[1..][0].node >= k;
        }
      }
    }
  }

  lemma SortedAscends(s: seq<Edge>)
    requires SortedBy(EdgeLe, s)
    ensures NodesAscend(s)
  {
  }

  /** In sorted order the number of nearer candidates is the distance from the start of the segment. */
  lemma NearerInSorted(s: seq<Edge>, p: nat)
    requires SortedBy(EdgeLe, s) && Distinct(s) && p < |s|
    ensures Start(s, s[p].node) <= p
    ensures CountIf(Nearer(s[p]), s) == p - Start(s, s[p].node)
  {
    var k := s[p].node;
    SortedAscends(s);
    StartSplits(s, k);
    var lo := Start(s, k);
    forall j | 0 <= j < |s| ensures Nearer(s[p])(s[j]) <==> lo <= j < p {
      if j < p {
        assert EdgeLe(s[j], s[p]) && s[j] != s[p];
      } else if j > p {
        assert EdgeLe(s[p], s[j]);
      }
    }
    CountIfInterval(Nearer(s[p]), s, lo, p);
  }

  /** A sorted item is kept exactly when it lies within the first quota positions of its segment. */
  lemma KeepsInSorted(items: seq<Edge>, s: seq<Edge>, quota: seq<int>, p: nat)
    requires multiset(s) == multiset(items) && SortedBy(EdgeLe, s) && Distinct(s) && p < |s|
    ensures Keeps(items, quota, s[p]) <==>
              s[p].tonode >= 0 && 0 <= s[p].node < |quota| && p < Start(s, s[p].node) + quota[s[p].node]
  {
    NearerInSorted(s, p);
    CountIfPermutation(Nearer(s[p]), s, items);
  }

  /** The sorted items of a round. */
  function Sorted(items: seq<Edge>): (s: seq<Edge>)
    ensures SortedBy(EdgeLe, s) && multiset(s) == multiset(items) && |s| == |items|
  {
    Sort(EdgeLe, items)
  }

  lemma SortedOk(items: seq<Edge>, clusters: nat)
    requires ItemsOk(items, clusters)
    ensures ItemsOk(Sorted(items), clusters) && NodesAscend(Sorted(items))
  {
    DistinctPermutation(items, Sorted(items));
    SortedAscends(Sorted(items));
    forall e | e in Sorted(items) ensures e in items {
      PermutationMember(Sorted(items), items, e);
    }
  }

  /** Cluster k's candidates are the positions from its start to the start of the next cluster. */
  lemma SegmentOf(s: seq<Edge>, k: int)
    requires NodesAscend(s)
    ensures Start(s, k) <= Start(s, k + 1) <= |s|
    ensures forall j | 0 <= j < |s| :: s[j].node == k <==> Start(s, k) <= j < Start(s, k + 1)
    ensures CountIf(CandidateOf(k), s) == Start(s, k + 1) - Start(s, k)
  {
    StartSplits(s, k);
    StartSplits(s, k + 1);
    CountIfMonotone(Below(k), Below(k + 1), s);
    CountIfInterval(CandidateOf(k), s, Start(s, k), Start(s, k + 1));
  }

  lemma KeptSegment(items: seq<Edge>, s: seq<Edge>, quota: seq<int>, k: nat, end: nat)
    requires multiset(s) == multiset(items) && SortedBy(EdgeLe, s) && ItemsOk(s, |quota|)
    requires k < |quota| <= MAX_SIZE && quota[k] >= 0
    requires end == Least(Start(s, k) + quota[k], Start(s, k + 1)) && Start(s, k) <= Start(s, k + 1) <= |s|
    requires forall j | 0 <= j < |s| :: s[j].node == k <==> Start(s, k) <= j < Start(s, k + 1)
    ensures CountIf(KeptIn(items, quota, k), s) == end - Start(s, k)
  {
    forall p | 0 <= p < |s| ensures KeptIn(items, quota, k)(s[p]) <==> Start(s, k) <= p < end {
      KeepsInSorted(items, s, quota, p);
      assert s[p] in s;
    }
    CountIfInterval(KeptIn(items, quota, k), s, Start(s, k), end);
  }

  /** A cluster keeps its quota, or all its candidates if there are fewer. */
  lemma KeptCountIsQuota(items: seq<Edge>, quota: seq<int>, k: nat)
    requires ItemsOk(items, |quota|) && k < |quota| && quota[k] >= 0 && |quota| <= MAX_SIZE
    ensures KeptCount(items, quota, k) == Least(quota[k], CountIf(CandidateOf(k), items))
  {
    var s := Sorted(items);
    SortedOk(items, |quota|);
    SegmentOf(s, k);
    KeptSegment(items, s, quota, k, Least(Start(s, k) + quota[k], Start(s, k + 1)));
    CountIfPermutation(KeptIn(items, quota, k), s, items);
    CountIfPermutation(CandidateOf(k), s, items);
  }

  /** What a cluster keeps is closed under nearness: the quota smallest by (distance, vector). */
  lemma KeptAreNearest(items: seq<Edge>, quota: seq<int>, e: Edge, x: Edge)
    requires Keeps(items, quota, e) && x.node == e.node && x.tonode >= 0 && EdgeLess(x, e)
    ensures Keeps(items, quota, x)
  {
    CountIfMonotone(Nearer(x), Nearer(e), items);
  }

  // ---- What a round does to the state of a rank ----

  ghost predicate RowsOf(rows: seq<seq<int>>, width: nat) {
    forall r | 0 <= r < |rows| :: |rows[r]| == width
  }

  /** A label row after column c was written; with `fill` the later columns are cleared. */
  function RowWith(row: seq<int>, lab: int, c: nat, fill: bool): (r: seq<int>)
    requires c < |row|
    ensures |r| == |row|
  {
    row[..c] + [lab] + if fill then seq(|row| - c - 1, _ => NONE) else row[c + 1..]
  }

  /** A rank between rounds: per cluster the limit and the vectors assigned so far, per vector the label row. */
  datatype RankState = RankState(limit: seq<int>, counts: seq<int>, labels: seq<seq<int>>)

  ghost predicate Fits(s: RankState, n: nat, clusters: nat, columns: nat) {
    |s.limit| == |s.counts| == clusters && |s.labels| == n && RowsOf(s.labels, columns)
  }

  /** The round of column c takes s to r: the limits become what each cluster may still take on this rank,
      every vector's label cell c is decided by its own candidate, and the counts grow by the kept ones. */
  ghost predicate IsRound(d: Matrix, cf: real, c: nat, fill: bool, clusters: nat, columns: nat, s: RankState, r: RankState)
    requires Shaped(d, clusters) && c < columns <= clusters
  {
    && Fits(s, |d|, clusters, columns) && Fits(r, |d|, clusters, columns)
    && (forall k | 0 <= k < clusters :: r.limit[k] == s.limit[k] - s.counts[k])
    && (forall k | 0 <= k < clusters :: r.counts[k] == s.counts[k] + KeptCount(Items(d, cf, c, clusters), r.limit, k))
    && (forall i | 0 <= i < |d| ::
          r.labels[i] == RowWith(s.labels[i], Label(Items(d, cf, c, clusters), r.limit, Items(d, cf, c, clusters)[i]), c, fill))
  }

  /** What the round of column c makes of s. */
  function Round(d: Matrix, cf: real, c: nat, fill: bool, clusters: nat, columns: nat, s: RankState): (r: RankState)
    requires Shaped(d, clusters) && c < columns <= clusters && Fits(s, |d|, clusters, columns)
    ensures IsRound(d, cf, c, fill, clusters, columns, s, r)
  {
    var items := Items(d, cf, c, clusters);
    var quota := seq(clusters, k requires 0 <= k < clusters => s.limit[k] - s.counts[k]);
    RankState(quota,
              seq(clusters, k requires 0 <= k < clusters => s.counts[k] + KeptCount(items, quota, k)),
              seq(|d|, i requires 0 <= i < |d| => RowWith(s.labels[i], Label(items, quota, items[i]), c, fill)))
  }

  /** A rank's share of what cluster k may still take. */
  function Share(capacity: int, global: int, size: nat): (s: int)
    requires size > 0
    ensures s >= 0
  {
    if capacity > global then (capacity - global) / size else 0
  }
}
