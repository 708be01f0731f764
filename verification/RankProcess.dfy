/** One rank of the balanced partitioner: the arrays it owns and `HardMultipleClustersAssign`, which runs
    one quota round on them. */
module RankProcess {
  import opened Arith
  import opened Sorting
  import opened HardAssign

  // ---- Shards: how positions 0..n are cut among the threads ----

  /** (n - 1) / th + 1 with the division truncating toward zero. */
  function Subsize(n: nat, th: nat): nat
    requires th > 0
  {
    if n == 0 then (if th == 1 then 0 else 1) else (n - 1) / th + 1
  }

  /** Where thread tid starts; where thread tid - 1 ends. */
  function Cut(n: nat, th: nat, tid: nat): (p: nat)
    requires th > 0
    ensures p <= n
  {
    Least(tid * Subsize(n, th), n)
  }

  lemma CutsCover(n: nat, th: nat, tid: nat)
    requires th > 0 && tid < th
    ensures Cut(n, th, 0) == 0 && Cut(n, th, th) == n
    ensures Cut(n, th, tid) <= Cut(n, th, tid + 1)
  {
    MulLe(tid, tid + 1, Subsize(n, th));
    if n > 0 {
      DivTimesLe(n - 1, th);
      assert th * Subsize(n, th) == (n - 1) / th * th + th;
    }
  }

  // ---- Column sums of the per-thread counters ----

  ghost function ColumnSum(rows: seq<seq<int>>, width: nat, col: nat): int
    requires RowsOf(rows, width) && col < width
  {
    if rows == [] then 0
    else ColumnSum(rows[..|rows| - 1], width, col) + rows[|rows| - 1][col]
  }

  ghost function Totals(rows: seq<seq<int>>, width: nat): seq<int>
    requires RowsOf(rows, width)
  {
    seq(width, k requires 0 <= k < width => ColumnSum(rows, width, k))
  }

  lemma {:induction false} NothingCounted(rows: seq<seq<int>>, width: nat, col: nat)
    requires RowsOf(rows, width) && col < width && forall r | 0 <= r < |rows| :: rows[r][col] == 0
    ensures ColumnSum(rows, width, col) == 0
  {
    if rows != [] {
      NothingCounted(rows[..|rows| - 1], width, col);
    }
  }

  lemma {:induction false} BumpColumn(rows: seq<seq<int>>, width: nat, tid: nat, node: nat, col: nat)
    requires RowsOf(rows, width) && col < width && node < width && tid < |rows|
    ensures var after := rows[tid := rows[tid][node := rows[tid][node] + 1]];
            ColumnSum(after, width, col) == ColumnSum(rows, width, col) + if col == node then 1 else 0
  {
    var after := rows[tid := rows[tid][node := rows[tid][node] + 1]];
    if tid == |rows| - 1 {
      assert after[..tid] == rows[..tid];
    } else {
      var init := rows[..|rows| - 1];
      assert after[..|rows| - 1] == init[tid := init[tid][node := init[tid][node] + 1]];
      BumpColumn(init, width, tid, node, col);
    }
  }

  // ---- Marks: the sorted items after the drop loop ----

  /** Beyond the quota of its segment. */
  ghost predicate Dropped(s: seq<Edge>, quota: seq<int>, p: nat)
    requires p < |s|
  {
    s[p].tonode >= 0 && 0 <= s[p].node < |quota| && p >= Start(s, s[p].node) + quota[s[p].node]
  }

  function Flip(e: Edge): Edge {
    e.(tonode := -e.tonode - 1)
  }

  /** The drop loop has reached position `bound`. */
  ghost predicate MarkedBelow(m: seq<Edge>, s: seq<Edge>, quota: seq<int>, bound: nat) {
    && |m| == |s|
    && forall p | 0 <= p < |s| :: m[p] == if p < bound && Dropped(s, quota, p) then Flip(s[p]) else s[p]
  }

  lemma NothingMarked(s: seq<Edge>, quota: seq<int>)
    requires NodesAscend(s) && ItemsOk(s, |quota|)
    ensures Start(s, 0) == 0 && MarkedBelow(s, s, quota, 0)
  {
    assert forall p | 0 <= p < |s| :: s[p] in s;
    CountIfInterval(Below(0), s, 0, 0);
  }

  /** One cluster of the drop loop flips its segment from its quota on. */
  lemma MarkSegment(s: seq<Edge>, quota: seq<int>, i: nat, m: seq<Edge>, after: seq<Edge>)
    requires i < |quota| && NodesAscend(s) && MarkedBelow(m, s, quota, Start(s, i)) && |after| == |s| && quota[i] >= 0
    requires forall p | 0 <= p < |s| ::
               after[p] == if Start(s, i) + quota[i] <= p < Start(s, i + 1) && m[p].tonode >= 0 then Flip(m[p]) else m[p]
    ensures MarkedBelow(after, s, quota, Start(s, i + 1))
  {
    SegmentOf(s, i);
  }

  lemma MarkedAscend(m: seq<Edge>, s: seq<Edge>, quota: seq<int>, bound: nat)
    requires NodesAscend(s) && MarkedBelow(m, s, quota, bound)
    ensures NodesAscend(m)
  {
    assert forall p | 0 <= p < |s| :: m[p].node == s[p].node;
  }

  lemma MarkRest(s: seq<Edge>, quota: seq<int>, m: seq<Edge>)
    requires ItemsOk(s, |quota|) && NodesAscend(s) && |quota| <= MAX_SIZE && MarkedBelow(m, s, quota, Start(s, |quota|))
    ensures MarkedBelow(m, s, quota, |s|)
  {
    StartSplits(s, |quota|);
    assert forall p | 0 <= p < |s| :: s[p] in s;
  }

  function MarkLabel(e: Edge): int {
    if e.tonode >= 0 then e.node else NONE
  }

  function KeptMark(k: int): Edge -> bool {
    (e: Edge) => e.tonode >= 0 && e.node == k
  }

  /** Positions name pairwise different vectors, and kept marks name clusters. */
  ghost predicate MarksOk(m: seq<Edge>, n: nat, clusters: nat) {
    && |m| == n
    && (forall p | 0 <= p < n :: 0 <= Vector(m[p]) < n)
    && (forall p, q | 0 <= p < q < n :: Vector(m[p]) != Vector(m[q]))
    && (forall p | 0 <= p < n && m[p].tonode >= 0 :: 0 <= m[p].node < clusters)
  }

  /** The labels after the marks were written one by one. */
  function WriteMarks(rows: seq<seq<int>>, m: seq<Edge>, c: nat, fill: bool, width: nat): (r: seq<seq<int>>)
    requires RowsOf(rows, width) && c < width && forall p | 0 <= p < |m| :: 0 <= Vector(m[p]) < |rows|
    ensures |r| == |rows| && RowsOf(r, width)
  {
    if m == [] then rows
    else
      var e := m[|m| - 1];
      var before := WriteMarks(rows, m[..|m| - 1], c, fill, width);
      before[Vector(e) := RowWith(before[Vector(e)], MarkLabel(e), c, fill)]
  }

  /** As the marks name different vectors, each row is written once, by the mark that names it. */
  lemma {:induction false} WriteMarksRow(rows: seq<seq<int>>, m: seq<Edge>, c: nat, fill: bool, width: nat, v: nat)
    requires RowsOf(rows, width) && c < width && v < |rows|
    requires forall p | 0 <= p < |m| :: 0 <= Vector(m[p]) < |rows|
    requires forall p, q | 0 <= p < q < |m| :: Vector(m[p]) != Vector(m[q])
    ensures (forall p | 0 <= p < |m| :: Vector(m[p]) != v) ==> WriteMarks(rows, m, c, fill, width)[v] == rows[v]
    ensures forall p | 0 <= p < |m| && Vector(m[p]) == v ::
              WriteMarks(rows, m, c, fill, width)[v] == RowWith(rows[v], MarkLabel(m[p]), c, fill)
  {
    if m != [] {
      var init := m[..|m| - 1];
      WriteMarksRow(rows, init, c, fill, width, v);
      assert forall p | 0 <= p < |init| :: init[p] == m[p];
    }
  }

  /** After the first p marks: the labels hold them, and the counters grew by the kept ones. */
  ghost predicate Written(m: seq<Edge>, p: nat, c: nat, fill: bool, rows: seq<seq<int>>, width: nat,
                          counted: seq<seq<int>>, clusters: nat, labels: seq<seq<int>>, newCounts: seq<seq<int>>)
    requires p <= |m| == |rows| && MarksOk(m, |m|, clusters) && c < width
  {
    && RowsOf(rows, width) && RowsOf(counted, clusters) && RowsOf(newCounts, clusters)
    && labels == WriteMarks(rows, m[..p], c, fill, width)
    && forall k | 0 <= k < clusters ::
         ColumnSum(newCounts, clusters, k) == ColumnSum(counted, clusters, k) + CountIf(KeptMark(k), m[..p])
  }

  lemma WrittenStep(m: seq<Edge>, p: nat, c: nat, fill: bool, rows: seq<seq<int>>, width: nat,
                    counted: seq<seq<int>>, clusters: nat, labels: seq<seq<int>>, newCounts: seq<seq<int>>, tid: nat)
    requires p < |m| == |rows| && MarksOk(m, |m|, clusters) && c < width && tid < |newCounts|
    requires Written(m, p, c, fill, rows, width, counted, clusters, labels, newCounts)
    ensures |labels| == |rows| && RowsOf(labels, width)
    ensures var e := m[p];
            Written(m, p + 1, c, fill, rows, width, counted, clusters,
                    labels[Vector(e) := RowWith(labels[Vector(e)], MarkLabel(e), c, fill)],
                    if e.tonode < 0 then newCounts
                    else newCounts[tid := newCounts[tid][e.node := newCounts[tid][e.node] + 1]])
  {
    var e := m[p];
    assert m[..p + 1] == m[..p] + [e] && m[..p + 1][..p] == m[..p];
    var after := if e.tonode < 0 then newCounts
                 else newCounts[tid := newCounts[tid][e.node := newCounts[tid][e.node] + 1]];
    forall k | 0 <= k < clusters
      ensures ColumnSum(after, clusters, k) == ColumnSum(counted, clusters, k) + CountIf(KeptMark(k), m[..p + 1])
    {
      CountIfSnoc(KeptMark(k), m[..p], e);
      if e.tonode >= 0 {
        BumpColumn(newCounts, clusters, tid, e.node, k);
      }
    }
  }

  /** The marks of a round: kept exactly where the cluster keeps the candidate. */
  lemma MarkMeaning(items: seq<Edge>, s: seq<Edge>, quota: seq<int>, m: seq<Edge>, p: nat)
    requires s == Sorted(items) && ItemsOk(items, |quota|) && MarkedBelow(m, s, quota, |s|) && p < |s|
    ensures Vector(m[p]) == Vector(s[p]) && m[p].node == s[p].node
    ensures m[p].tonode >= 0 <==> Keeps(items, quota, s[p])
  {
    SortedOk(items, |quota|);
    assert s[p] in s;
    KeepsInSorted(items, s, quota, p);
  }

  /** Every vector is named by exactly one position of the sorted items. */
  ghost predicate Numbered(items: seq<Edge>) {
    forall i | 0 <= i < |items| :: Vector(items[i]) == i
  }

  lemma PositionOf(items: seq<Edge>, i: nat) returns (p: nat)
    requires i < |items|
    ensures p < |items| && Sorted(items)[p] == items[i]
  {
    PermutationMember(items, Sorted(items), items[i]);
    p :| 0 <= p < |items| && Sorted(items)[p] == items[i];
  }

  lemma MarksAreOk(items: seq<Edge>, quota: seq<int>, m: seq<Edge>)
    requires ItemsOk(items, |quota|) && Numbered(items) && MarkedBelow(m, Sorted(items), quota, |items|)
    ensures MarksOk(m, |items|, |quota|)
  {
    var s := Sorted(items);
    SortedOk(items, |quota|);
    forall p | 0 <= p < |s|
      ensures Vector(m[p]) == Vector(s[p]) && s[p] in items && 0 <= Vector(s[p]) < |items| && items[Vector(s[p])] == s[p]
    {
      MarkMeaning(items, s, quota, m, p);
      PermutationMember(s, items, s[p]);
    }
    forall p | 0 <= p < |s| && m[p].tonode >= 0 ensures 0 <= m[p].node < |quota| {
      MarkMeaning(items, s, quota, m, p);
      assert s[p] in s;
    }
  }

  /** Writing the marks gives each vector the label of its own candidate. */
  lemma LabelsOfRound(rows: seq<seq<int>>, items: seq<Edge>, quota: seq<int>, m: seq<Edge>, c: nat, fill: bool, width: nat, i: nat)
    requires ItemsOk(items, |quota|) && Numbered(items) && MarkedBelow(m, Sorted(items), quota, |items|)
    requires RowsOf(rows, width) && c < width && |rows| == |items| && i < |rows|
    ensures MarksOk(m, |items|, |quota|)
    ensures WriteMarks(rows, m, c, fill, width)[i] == RowWith(rows[i], Label(items, quota, items[i]), c, fill)
  {
    MarksAreOk(items, quota, m);
    var p := PositionOf(items, i);
    MarkMeaning(items, Sorted(items), quota, m, p);
    WriteMarksRow(rows, m, c, fill, width, i);
  }

  lemma CountOfRound(items: seq<Edge>, quota: seq<int>, m: seq<Edge>, k: nat)
    requires ItemsOk(items, |quota|) && MarkedBelow(m, Sorted(items), quota, |items|)
    ensures CountIf(KeptMark(k), m) == KeptCount(items, quota, k)
  {
    var s := Sorted(items);
    forall p | 0 <= p < |s| ensures KeptMark(k)(m[p]) == KeptIn(items, quota, k)(s[p]) {
      MarkMeaning(items, s, quota, m, p);
    }
    CountIfPointwise(KeptMark(k), m, KeptIn(items, quota, k), s);
    CountIfPermutation(KeptIn(items, quota, k), s, items);
  }

  /** A finished round, in terms of the candidates. */
  lemma RoundResult(items: seq<Edge>, quota: seq<int>, m: seq<Edge>, c: nat, fill: bool, rows: seq<seq<int>>, width: nat,
                    counted: seq<seq<int>>, labels: seq<seq<int>>, newCounts: seq<seq<int>>)
    requires ItemsOk(items, |quota|) && Numbered(items) && MarkedBelow(m, Sorted(items), quota, |items|)
    requires |m| == |rows| == |items| && MarksOk(m, |m|, |quota|) && c < width
    requires Written(m, |m|, c, fill, rows, width, counted, |quota|, labels, newCounts)
    ensures |labels| == |rows|
    ensures forall i | 0 <= i < |items| :: labels[i] == RowWith(rows[i], Label(items, quota, items[i]), c, fill)
    ensures forall k | 0 <= k < |quota| ::
              ColumnSum(newCounts, |quota|, k) == ColumnSum(counted, |quota|, k) + KeptCount(items, quota, k)
  {
    assert m[..|m|] == m;
    forall i | 0 <= i < |items| ensures labels[i] == RowWith(rows[i], Label(items, quota, items[i]), c, fill) {
      LabelsOfRound(rows, items, quota, m, c, fill, width, i);
    }
    forall k | 0 <= k < |quota|
      ensures ColumnSum(newCounts, |quota|, k) == ColumnSum(counted, |quota|, k) + KeptCount(items, quota, k)
    {
      CountOfRound(items, quota, m, k);
    }
  }

  /** The first n items are as wanted. */
  ghost predicate Agree(items: seq<Edge>, want: seq<Edge>, n: nat) {
    n <= |items| == |want| && forall i | 0 <= i < n :: items[i] == want[i]
  }

  class Rank {
    const n: nat         // vectors
    const clusters: nat  // _K
    const threads: nat   // _TH
    const columns: nat   // label.C()
    const labels: array<seq<int>>     // one row per vector
    const newCounts: array<seq<int>>  // one row per thread
    const counts: array<int>
    const limit: array<int>

    ghost predicate Valid()
      reads labels, newCounts
    {
      && 0 < threads && 0 < columns <= clusters <= NONE
      && labels.Length == n && RowsOf(labels[..], columns)
      && newCounts.Length == threads && RowsOf(newCounts[..], clusters)
      && counts.Length == clusters && limit.Length == clusters
      && labels != newCounts && counts != limit
    }

    /** Everything the rank owns. */
    ghost function Arrays(): set<object> {
      {labels as object, newCounts as object, counts as object, limit as object}
    }

    /** Cleared counters, one limit for all clusters, and label rows with whatever is in them. */
    constructor (rows: seq<seq<int>>, clusters: nat, columns: nat, threads: nat, first: int)
      requires 0 < threads && 0 < columns <= clusters <= NONE && RowsOf(rows, columns)
      ensures Valid() && n == |rows| && this.clusters == clusters && this.columns == columns
      ensures fresh(Arrays())
      ensures State() == RankState(seq(clusters, _ => first), seq(clusters, _ => 0), rows)
      ensures counts[..] == State().counts
    {
      this.n, this.clusters, this.columns, this.threads := |rows|, clusters, columns, threads;
      labels := new seq<int>[|rows|](i requires 0 <= i < |rows| => rows[i]);
      newCounts := new seq<int>[threads](_ => seq(clusters, _ => 0));
      counts := new int[clusters](_ => 0);
      limit := new int[clusters](_ => first);
      new;
      assert labels[..] == rows && limit[..] == seq(clusters, _ => first);
      forall k | 0 <= k < clusters ensures State().counts[k] == 0 {
        NothingCounted(newCounts[..], clusters, k);
      }
      assert State().counts == counts[..] == seq(clusters, _ => 0);
    }

    /** Vectors of this rank assigned to cluster k so far. */
    ghost function Local(k: nat): int
      requires Valid() && k < clusters
      reads labels, newCounts
    {
      ColumnSum(newCounts[..], clusters, k)
    }

    ghost function State(): (s: RankState)
      requires Valid()
      reads labels, newCounts, limit
    {
      RankState(limit[..], Totals(newCounts[..], clusters), labels[..])
    }

    // ---- Phase 1: every thread fills its share of the items ----

    method BuildItems(d: Matrix, cf: real, c: nat) returns (items: array<Edge>)
      requires Valid() && |d| == n && Shaped(d, clusters) && c < clusters
      ensures fresh(items) && items[..] == Items(d, cf, c, clusters)
    {
      items := new Edge[n](_ => Edge(MAX_SIZE, MAX_DIST, MAX_SIZE));
      ghost var want := Items(d, cf, c, clusters);
      FillAll(items, d, cf, c, want);
    }

    method FillAll(items: array<Edge>, d: Matrix, cf: real, c: nat, ghost want: seq<Edge>)
      requires Shaped(d, clusters) && c < clusters && want == Items(d, cf, c, clusters) && |d| == items.Length == n && threads > 0
      modifies items
      ensures items[..] == want
    {
      hide Cut, Items;
      var tid := 0;
      CutsCover(n, threads, 0);
      while tid < threads
        invariant 0 <= tid <= threads && Agree(items[..], want, Cut(n, threads, tid))
      {
        CutsCover(n, threads, tid);
        FillShard(items, d, cf, c, Cut(n, threads, tid), Cut(n, threads, tid + 1), want);
        tid := tid + 1;
      }
    }

    method FillShard(items: array<Edge>, d: Matrix, cf: real, c: nat, lo: nat, hi: nat, ghost want: seq<Edge>)
      requires Shaped(d, clusters) && c < clusters && want == Items(d, cf, c, clusters)
      requires lo <= hi <= |d| == items.Length && Agree(items[..], want, lo)
      modifies items
      ensures Agree(items[..], want, hi)
    {
      var i := lo;
      while i < hi
        invariant lo <= i <= hi && Agree(items[..], want, i)
      {
        items[i] := Item(d, cf, c, i);
        i := i + 1;
      }
    }

    // ---- Phase 2: sort by cluster, distance and vector ----

    static method SortItems(items: array<Edge>)
      modifies items
      ensures items[..] == Sorted(old(items[..]))
    {
      var s := Sorted(items[..]);
      var i := 0;
      while i < items.Length
        invariant 0 <= i <= items.Length
        invariant forall j | 0 <= j < i :: items[j] == s[j]
      {
        items[i] := s[i];
        i := i + 1;
      }
    }

    // ---- Phase 3: what is left of each cluster's limit ----

    method TakeQuota()
      requires Valid()
      modifies limit
      ensures forall k | 0 <= k < clusters :: limit[k] == old(limit[k]) - Local(k)
    {
      var i := 0;
      while i < threads
        invariant 0 <= i <= threads
        invariant forall k | 0 <= k < clusters :: limit[k] == old(limit[k]) - ColumnSum(newCounts[..i], clusters, k)
      {
        var k := 0;
        assert newCounts[..i + 1][..i] == newCounts[..i];
        while k < clusters
          invariant 0 <= k <= clusters
          invariant forall j | 0 <= j < k :: limit[j] == old(limit[j]) - ColumnSum(newCounts[..i + 1], clusters, j)
          invariant forall j | k <= j < clusters :: limit[j] == old(limit[j]) - ColumnSum(newCounts[..i], clusters, j)
        {
          limit[k] := limit[k] - newCounts[i][k];
          k := k + 1;
        }
        i := i + 1;
      }
      assert newCounts[..i] == newCounts[..];
    }

    // ---- Phase 4: mark what lies beyond the quota ----

    /** `std::lower_bound` on the cluster number. */
    static method LowerBound(items: array<Edge>, v: int) returns (r: nat)
      requires NodesAscend(items[..])
      ensures r <= items.Length
      ensures forall j | 0 <= j < items.Length :: items[j].node < v <==> j < r
    {
      var lo, hi := 0, items.Length;
      while lo < hi
        invariant 0 <= lo <= hi <= items.Length
        invariant forall j | 0 <= j < lo :: items[..][j].node < v
        invariant forall j | hi <= j < items.Length :: items[..][j].node >= v
      {
        var mid := (lo + hi) / 2;
        if items[mid].node < v {
          lo := mid + 1;
        } else {
          hi := mid;
        }
      }
      r := lo;
    }

    /** One cluster of the drop loop: flip the positions of its segment from its quota on. */
    static method DropSegment(items: array<Edge>, from: nat, end: nat)
      requires end <= items.Length
      modifies items
      ensures forall p | 0 <= p < items.Length ::
                items[p] == if from <= p < end && old(items[p]).tonode >= 0 then Flip(old(items[p])) else old(items[p])
    {
      var p := from;
      while p < end
        invariant from <= p
        invariant forall q | 0 <= q < items.Length ::
                    items[q] == if from <= q < end && q < p && old(items[q]).tonode >= 0 then Flip(old(items[q])) else old(items[q])
      {
        if items[p].tonode >= 0 {
          items[p] := Flip(items[p]);
        }
        p := p + 1;
      }
    }

    /** One iteration of the drop loop; returns where the next cluster starts. */
    method DropCluster(items: array<Edge>, i: nat, start: nat, ghost s: seq<Edge>, ghost quota: seq<int>) returns (end: nat)
      requires Valid() && i < clusters && quota == limit[..] && quota[i] >= 0
      requires NodesAscend(s) && start == Start(s, i) && MarkedBelow(items[..], s, quota, start)
      modifies items
      ensures end == Start(s, i + 1) && MarkedBelow(items[..], s, quota, end)
    {
      ghost var m := items[..];
      MarkedAscend(m, s, quota, start);
      end := LowerBound(items, i + 1);
      CountIfInterval(Below(i + 1), s, 0, end);
      DropSegment(items, start + limit[i], end);
      MarkSegment(s, quota, i, m, items[..]);
    }

    method DropOverQuota(items: array<Edge>)
      requires Valid() && SortedBy(EdgeLe, items[..]) && ItemsOk(items[..], clusters)
      requires forall k | 0 <= k < clusters :: limit[k] >= 0
      modifies items
      ensures MarkedBelow(items[..], old(items[..]), limit[..], items.Length)
    {
      ghost var s, quota := items[..], limit[..];
      SortedAscends(s);
      var start, i := 0, 0;
      NothingMarked(s, quota);
      while i < clusters
        invariant 0 <= i <= clusters && start == Start(s, i)
        invariant MarkedBelow(items[..], s, quota, start)
      {
        start := DropCluster(items, i, start, s, quota);
        i := i + 1;
      }
      MarkRest(s, quota, items[..]);
    }

    // ---- Phase 5: write labels and counters ----

    /** Clear the columns behind c. */
    method FillRow(v: nat, c: nat)
      requires Valid() && v < n && c < columns
      modifies labels
      ensures Valid() && labels[..] == old(labels[..])[v := RowWith(old(labels[v]), old(labels[v])[c], c, true)]
    {
      var k := c + 1;
      while k < columns
        invariant c < k <= columns && Valid()
        invariant labels[..] == old(labels[..])[v := labels[v]]
        invariant labels[v][..c + 1] == old(labels[v])[..c + 1]
        invariant forall j | c < j < k :: labels[v][j] == NONE
      {
        labels[v] := labels[v][k := NONE];
        k := k + 1;
      }
      assert labels[v] == RowWith(old(labels[v]), old(labels[v])[c], c, true);
    }

    /** One position of the second thread function. */
    method WriteOne(items: array<Edge>, c: nat, fill: bool, tid: nat, p: nat)
      requires Valid() && tid < threads && c < columns && p < items.Length
      requires 0 <= Vector(items[p]) < n && (items[p].tonode >= 0 ==> 0 <= items[p].node < clusters)
      modifies items, labels, newCounts
      ensures Valid()
      ensures forall q | 0 <= q < items.Length && q != p :: items[q] == old(items[q])
      ensures labels[..] ==
                old(labels[..])[Vector(old(items[p])) := RowWith(old(labels[Vector(items[p])]), MarkLabel(old(items[p])), c, fill)]
      ensures newCounts[..] == if old(items[p]).tonode < 0 then old(newCounts[..])
                               else var k := old(items[p]).node; var row := old(newCounts[tid]);
                                    old(newCounts[..])[tid := row[k := row[k] + 1]]
    {
      if items[p].tonode >= 0 {
        var k := items[p].node;
        labels[items[p].tonode] := labels[items[p].tonode][c := k];
        newCounts[tid] := newCounts[tid][k := newCounts[tid][k] + 1];
      } else {
        items[p] := Flip(items[p]);
        labels[items[p].tonode] := labels[items[p].tonode][c := NONE];
      }
      var v := items[p].tonode;
      assert labels[v] == RowWith(old(labels[v]), MarkLabel(old(items[p])), c, false);
      if fill {
        FillRow(v, c);
      }
    }

    method WriteNext(items: array<Edge>, c: nat, fill: bool, tid: nat, p: nat, ghost m: seq<Edge>,
                     ghost rows: seq<seq<int>>, ghost counted: seq<seq<int>>)
      requires Valid() && tid < threads && c < columns && p < n == items.Length == |rows|
      requires MarksOk(m, n, clusters) && items[p] == m[p]
      requires Written(m, p, c, fill, rows, columns, counted, clusters, labels[..], newCounts[..])
      modifies items, labels, newCounts
      ensures Valid() && forall q | p < q < n :: items[q] == old(items[q])
      ensures Written(m, p + 1, c, fill, rows, columns, counted, clusters, labels[..], newCounts[..])
    {
      WrittenStep(m, p, c, fill, rows, columns, counted, clusters, labels[..], newCounts[..], tid);
      WriteOne(items, c, fill, tid, p);
    }

    /** Positions lo..hi, by thread tid, continuing after the positions below lo were written. */
    method WriteShard(items: array<Edge>, c: nat, fill: bool, tid: nat, lo: nat, hi: nat, ghost m: seq<Edge>,
                      ghost rows: seq<seq<int>>, ghost counted: seq<seq<int>>)
      requires Valid() && tid < threads && c < columns && lo <= hi <= n == items.Length == |rows|
      requires MarksOk(m, n, clusters) && forall q | lo <= q < n :: items[q] == m[q]
      requires Written(m, lo, c, fill, rows, columns, counted, clusters, labels[..], newCounts[..])
      modifies items, labels, newCounts
      ensures Valid() && forall q | hi <= q < n :: items[q] == m[q]
      ensures Written(m, hi, c, fill, rows, columns, counted, clusters, labels[..], newCounts[..])
    {
      hide Written;
      var p := lo;
      while p < hi
        invariant lo <= p <= hi && Valid() && forall q | p <= q < n :: items[q] == m[q]
        invariant Written(m, p, c, fill, rows, columns, counted, clusters, labels[..], newCounts[..])
      {
        WriteNext(items, c, fill, tid, p, m, rows, counted);
        p := p + 1;
      }
    }

    method WriteLabels(items: array<Edge>, c: nat, fill: bool)
      requires Valid() && c < columns && items.Length == n && MarksOk(items[..], n, clusters)
      modifies items, labels, newCounts
      ensures Valid()
      ensures MarksOk(old(items[..]), n, clusters) && |old(labels[..])| == n
      ensures Written(old(items[..]), n, c, fill, old(labels[..]), columns, old(newCounts[..]), clusters, labels[..], newCounts[..])
    {
      ghost var m, rows, counted := items[..], labels[..], newCounts[..];
      var tid := 0;
      CutsCover(n, threads, 0);
      while tid < threads
        invariant 0 <= tid <= threads && Valid()
        invariant forall q | Cut(n, threads, tid) <= q < n :: items[q] == m[q]
        invariant Written(m, Cut(n, threads, tid), c, fill, rows, columns, counted, clusters, labels[..], newCounts[..])
      {
        CutsCover(n, threads, tid);
        WriteShard(items, c, fill, tid, Cut(n, threads, tid), Cut(n, threads, tid + 1), m, rows, counted);
        tid := tid + 1;
      }
    }

    // ---- Phase 6: the rank's totals ----

    method SumCounts()
      requires Valid()
      modifies counts
      ensures forall k | 0 <= k < clusters :: counts[k] == Local(k)
    {
      var k := 0;
      while k < clusters
        invariant 0 <= k <= clusters
        invariant forall j | 0 <= j < k :: counts[j] == 0
      {
        counts[k] := 0;
        k := k + 1;
      }
      var i := 0;
      while i < threads
        invariant 0 <= i <= threads
        invariant forall j | 0 <= j < clusters :: counts[j] == ColumnSum(newCounts[..i], clusters, j)
      {
        assert newCounts[..i + 1][..i] == newCounts[..i];
        k := 0;
        while k < clusters
          invariant 0 <= k <= clusters
          invariant forall j | 0 <= j < k :: counts[j] == ColumnSum(newCounts[..i + 1], clusters, j)
          invariant forall j | k <= j < clusters :: counts[j] == ColumnSum(newCounts[..i], clusters, j)
        {
          counts[k] := counts[k] + newCounts[i][k];
          k := k + 1;
        }
        i := i + 1;
      }
      assert newCounts[..i] == newCounts[..];
    }

    /** `HardMultipleClustersAssign`: one quota round. Each vector's candidate of column c is kept exactly when
        fewer than the cluster's remaining quota of candidates are nearer, whatever the number of threads; the
        label cell, the counters and the limits follow. */
    method HardAssign(d: Matrix, cf: real, c: nat, fill: bool)
      requires Valid() && |d| == n && Shaped(d, clusters) && c < columns
      requires forall k | 0 <= k < clusters :: limit[k] >= Local(k)
      modifies labels, newCounts, counts, limit
      ensures Valid()
      ensures IsRound(d, cf, c, fill, clusters, columns, old(State()), State())
      ensures counts[..] == State().counts
    {
      ghost var rows, counted := labels[..], newCounts[..];
      var items := MarkItems(d, cf, c);
      ghost var m := items[..];
      WriteLabels(items, c, fill);
      SumCounts();
      RoundResult(Items(d, cf, c, clusters), limit[..], m, c, fill, rows, columns, counted, labels[..], newCounts[..]);
    }

    /** Between rounds: keep the own counts as limits, take over the global counts, add this rank's share. */
    method Rebalance(global: seq<int>, capacity: int, size: nat)
      requires Valid() && counts[..] == State().counts && |global| == clusters && size > 0
      modifies counts, limit
      ensures counts[..] == global
      ensures State().counts == old(State().counts) && State().labels == old(State().labels)
      ensures forall k | 0 <= k < clusters :: limit[k] == Local(k) + Share(capacity, global[k], size)
    {
      var k := 0;
      while k < clusters
        invariant 0 <= k <= clusters
        invariant forall j | 0 <= j < k :: limit[j] == Local(j) && counts[j] == global[j]
        invariant forall j | k <= j < clusters :: counts[j] == Local(j)
      {
        limit[k] := counts[k];
        counts[k] := global[k];
        k := k + 1;
      }
      k := 0;
      while k < clusters
        invariant 0 <= k <= clusters && counts[..] == global
        invariant forall j | 0 <= j < k :: limit[j] == Local(j) + Share(capacity, global[j], size)
        invariant forall j | k <= j < clusters :: limit[j] == Local(j)
      {
        if capacity > counts[k] {
          limit[k] := limit[k] + (capacity - counts[k]) / size;
        }
        k := k + 1;
      }
    }

    /** Phases 1 to 4. */
    method MarkItems(d: Matrix, cf: real, c: nat) returns (items: array<Edge>)
      requires Valid() && |d| == n && Shaped(d, clusters) && c < clusters
      requires forall k | 0 <= k < clusters :: limit[k] >= Local(k)
      modifies limit
      ensures forall k | 0 <= k < clusters :: limit[k] == old(limit[k]) - Local(k)
      ensures fresh(items) && MarkedBelow(items[..], Sorted(Items(d, cf, c, clusters)), limit[..], n)
      ensures MarksOk(items[..], n, clusters)
      ensures ItemsOk(Items(d, cf, c, clusters), clusters) && Numbered(Items(d, cf, c, clusters))
    {
      ItemsAreOk(d, cf, c, clusters);
      SortedOk(Items(d, cf, c, clusters), clusters);
      items := BuildItems(d, cf, c);
      SortItems(items);
      TakeQuota();
      DropOverQuota(items);
      MarksAreOk(Items(d, cf, c, clusters), limit[..], items[..]);
    }
  }
}
