/** `MultipleClustersAssign`: one pass over all vectors, sharded among threads, and the merge of the threads'
    tallies. */
module SoftAssign {
  import opened Arith
  import opened Collections
  import opened Sorting
  import opened HardAssign
  import opened RankProcess
  import opened Nearest

  /** The extreme vector of a cluster; index -1 means none yet. */
  datatype Best = Best(idx: int, dist: real)

  /** One assignment of a vector to a cluster. */
  datatype Event = Event(node: int, best: Best)

  /** What one thread accumulates. */
  datatype Tally = Tally(counts: seq<int>, best: seq<Best>)

  /** The test `dist <= nearest * closurefactor`, as a function of the nearest center's distance and another one. */
  type Closeness = (real, real) -> bool

  function Closure(factor: real): Closeness {
    (nearest: real, dist: real) => dist <= nearest * factor
  }

  // ---- One vector ----

  /** The vector's col-th nearest center is close enough, compared with the nearest. */
  predicate Assigned(row: seq<real>, close: Closeness, col: nat)
    requires col < |row|
  {
    close(Ranking(row)[0].dist, Ranking(row)[col].dist)
  }

  /** A vector's assigned columns form a prefix. */
  lemma AssignedIsPrefix(row: seq<real>, factor: real, col: nat, col': nat)
    requires col <= col' < |row| && Assigned(row, Closure(factor), col')
    ensures Assigned(row, Closure(factor), col)
  {
    RankingFacts(row);
    if col < col' {
      assert CenterLe(Ranking(row)[col], Ranking(row)[col']);
    }
  }

  function SoftLabel(row: seq<real>, close: Closeness, col: nat): int
    requires col < |row|
  {
    if Assigned(row, close, col) then Ranking(row)[col].node else NONE
  }

  function SoftRow(row: seq<real>, close: Closeness, columns: nat): (r: seq<int>)
    requires columns <= |row|
    ensures |r| == columns
  {
    if columns == 0 then [] else SoftRow(row, close, columns - 1) + [SoftLabel(row, close, columns - 1)]
  }

  /** The assignments of one vector, nearest center first. */
  function VectorEvents(row: seq<real>, close: Closeness, idx: int, columns: nat): seq<Event>
    requires columns <= |row|
  {
    if columns == 0 then []
    else
      var c := Ranking(row)[columns - 1];
      VectorEvents(row, close, idx, columns - 1) + if Assigned(row, close, columns - 1) then [Event(c.node, Best(idx, c.dist))] else []
  }

  /** The assignments of every vector. */
  function PerVector(d: Matrix, close: Closeness, clusters: nat, columns: nat): (ev: seq<seq<Event>>)
    requires Shaped(d, clusters) && columns <= clusters
    ensures |ev| == |d|
  {
    seq(|d|, i requires 0 <= i < |d| => VectorEvents(d[i], close, i, columns))
  }

  function Flat(ev: seq<seq<Event>>): seq<Event> {
    if ev == [] then [] else Flat(ev[..|ev| - 1]) + ev[|ev| - 1]
  }

  lemma FlatNext(ev: seq<seq<Event>>, lo: nat, i: nat)
    requires lo <= i < |ev|
    ensures Flat(ev[lo..i + 1]) == Flat(ev[lo..i]) + ev[i]
  {
    assert ev[lo..i + 1][..i - lo] == ev[lo..i];
  }

  lemma {:induction false} FlatConcat(a: seq<seq<Event>>, b: seq<seq<Event>>)
    ensures Flat(a + b) == Flat(a) + Flat(b)
  {
    if b == [] {
      assert a + b == a;
    } else {
      var k := |b| - 1;
      assert (a + b)[..|a + b| - 1] == a + b[..k] && (a + b)[|a + b| - 1] == b[k];
      FlatConcat(a, b[..k]);
      Associate(Flat(a), Flat(b[..k]), b[k]);
    }
  }

  ghost predicate EventsOk(s: seq<Event>, clusters: nat) {
    forall e | e in s :: 0 <= e.node < clusters && e.best.idx >= 0
  }

  lemma {:induction false} VectorEventsOk(row: seq<real>, close: Closeness, idx: nat, columns: nat)
    requires columns <= |row|
    ensures EventsOk(VectorEvents(row, close, idx, columns), |row|)
  {
    if columns > 0 {
      VectorEventsOk(row, close, idx, columns - 1);
      RankingFacts(row);
    }
  }

  ghost predicate AllOk(ev: seq<seq<Event>>, clusters: nat) {
    forall i | 0 <= i < |ev| :: EventsOk(ev[i], clusters)
  }

  lemma PerVectorOk(d: Matrix, close: Closeness, clusters: nat, columns: nat)
    requires Shaped(d, clusters) && columns <= clusters
    ensures AllOk(PerVector(d, close, clusters, columns), clusters)
  {
    forall i | 0 <= i < |d| ensures EventsOk(PerVector(d, close, clusters, columns)[i], clusters) {
      VectorEventsOk(d[i], close, i, columns);
    }
  }

  lemma {:induction false} FlatOk(ev: seq<seq<Event>>, clusters: nat)
    requires AllOk(ev, clusters)
    ensures EventsOk(Flat(ev), clusters)
  {
    if ev != [] {
      FlatOk(ev[..|ev| - 1], clusters);
    }
  }

  // ---- Extremes: the first maximum, or the last minimum ----

  /** Does e replace b? Strictly farther when centers are updated, otherwise at most as far. */
  predicate Beats(update: bool, e: Best, b: Best) {
    if update then e.dist > b.dist else e.dist <= b.dist
  }

  function Pick(update: bool, b: Best, e: Best): Best {
    if Beats(update, e, b) then e else b
  }

  /** The sequential pass over the assignments, for cluster k. */
  function Fold(update: bool, k: int, b: Best, s: seq<Event>): Best {
    if s == [] then b
    else
      var r := Fold(update, k, b, s[..|s| - 1]);
      if s[|s| - 1].node == k then Pick(update, r, s[|s| - 1].best) else r
  }

  /** How the merge loop takes over another thread's extreme. */
  function Join(update: bool, b: Best, other: Best): Best {
    if other.idx != -1 then Pick(update, b, other) else b
  }

  predicate AtLeast(update: bool, b: Best, start: Best) {
    if update then b.dist >= start.dist else b.dist <= start.dist
  }

  /** Continuing from b is the same as starting afresh and merging, once b is at least as extreme as the start. */
  lemma {:induction false} FoldIsJoin(update: bool, k: int, b: Best, start: Best, s: seq<Event>, clusters: nat)
    requires EventsOk(s, clusters) && start.idx == -1 && AtLeast(update, b, start)
    ensures Fold(update, k, b, s) == Join(update, b, Fold(update, k, start, s))
    ensures var f := Fold(update, k, start, s); f == start || (f.idx >= 0 && Beats(update, f, start))
    ensures AtLeast(update, Fold(update, k, b, s), start)
  {
    if s != [] {
      assert s[|s| - 1] in s;
      assert EventsOk(s[..|s| - 1], clusters);
      FoldIsJoin(update, k, b, start, s[..|s| - 1], clusters);
    }
  }

  lemma {:induction false} FoldConcat(update: bool, k: int, b: Best, s: seq<Event>, t: seq<Event>)
    ensures Fold(update, k, b, s + t) == Fold(update, k, Fold(update, k, b, s), t)
  {
    if t == [] {
      assert s + t == s;
    } else {
      assert (s + t)[..|s + t| - 1] == s + t[..|t| - 1];
      FoldConcat(update, k, b, s, t[..|t| - 1]);
    }
  }

  /** With updated centers the sequential pass finds the first farthest assignment, otherwise the last nearest one. */
  lemma {:induction false} FoldIsExtreme(update: bool, k: int, b: Best, s: seq<Event>) returns (p: int)
    ensures -1 <= p < |s|
    ensures Fold(update, k, b, s) == if p == -1 then b else s[p].best
    ensures p >= 0 ==> s[p].node == k && if update then s[p].best.dist > b.dist else s[p].best.dist <= b.dist
    ensures forall i | 0 <= i < p && s[i].node == k :: if update then s[i].best.dist < s[p].best.dist else s[i].best.dist >= s[p].best.dist
    ensures var f := Fold(update, k, b, s);
            forall i | p < i < |s| && s[i].node == k :: if update then s[i].best.dist <= f.dist else s[i].best.dist > f.dist
  {
    if s == [] {
      p := -1;
    } else {
      var init := s[..|s| - 1];
      p := FoldIsExtreme(update, k, b, init);
      assert forall i | 0 <= i < |init| :: init[i] == s[i];
      if s[|s| - 1].node == k && Beats(update, s[|s| - 1].best, Fold(update, k, b, init)) {
        p := |s| - 1;
      }
    }
  }

  // ---- What the pass leaves, on the distances ----

  /** Vector v is assigned to cluster k: fewer than `columns` centers are nearer to it, and k is close enough. */
  ghost predicate AssignedTo(row: seq<real>, factor: real, columns: nat, k: int) {
    0 <= k < |row| && |Closer(row, k)| < columns && CloseEnough(row, factor, k)
  }

  /** A label row: cell c names the c-th nearest center if that is close enough, and is empty otherwise. */
  ghost predicate RowOnDistances(row: seq<real>, factor: real, columns: nat, labels: seq<int>) {
    && |labels| == columns
    && (forall c | 0 <= c < columns :: labels[c] == NONE || (IsNth(row, c, labels[c]) && CloseEnough(row, factor, labels[c])))
    && (forall c, k | 0 <= c < columns && IsNth(row, c, k) && CloseEnough(row, factor, k) :: labels[c] == k)
  }

  lemma {:induction false} SoftRowCell(row: seq<real>, close: Closeness, columns: nat, c: nat)
    requires c < columns <= |row|
    ensures SoftRow(row, close, columns)[c] == SoftLabel(row, close, c)
  {
    if c < columns - 1 {
      SoftRowCell(row, close, columns - 1, c);
    }
  }

  lemma {:induction false} SoftRowOnDistances(row: seq<real>, factor: real, columns: nat)
    requires columns <= |row|
    ensures RowOnDistances(row, factor, columns, SoftRow(row, Closure(factor), columns))
  {
    hide IsNth, CloseEnough, SoftRow, SoftLabel;
    var labels := SoftRow(row, Closure(factor), columns);
    forall c | 0 <= c < columns ensures labels[c] == NONE || (IsNth(row, c, labels[c]) && CloseEnough(row, factor, labels[c])) {
      SoftRowCell(row, Closure(factor), columns, c);
      LabelOnDistances(row, factor, c, 0);
    }
    forall c, k | 0 <= c < columns && IsNth(row, c, k) && CloseEnough(row, factor, k) ensures labels[c] == k {
      SoftRowCell(row, Closure(factor), columns, c);
      LabelOnDistances(row, factor, c, k);
    }
  }

  lemma {:induction false} LabelOnDistances(row: seq<real>, factor: real, c: nat, k: int)
    requires c < |row|
    ensures var lab := SoftLabel(row, Closure(factor), c);
            && (lab == NONE || (IsNth(row, c, lab) && CloseEnough(row, factor, lab)))
            && (IsNth(row, c, k) && CloseEnough(row, factor, k) ==> lab == k)
  {
    hide IsNth, CloseEnough;
    CloseIs(row, factor, c);
    RankingIsNth(row, c, k);
  }

  /** One more column assigns to one more cluster at most. */
  lemma {:induction false} AssignedStep(row: seq<real>, factor: real, c: nat, k: int)
    requires c < |row|
    ensures AssignedTo(row, factor, c + 1, k) <==>
              AssignedTo(row, factor, c, k) || (k == Ranking(row)[c].node && Assigned(row, Closure(factor), c))
    ensures k == Ranking(row)[c].node ==> 0 <= k < |row| && !AssignedTo(row, factor, c, k) && row[k] == Ranking(row)[c].dist
  {
    hide CloseEnough, Ranking, Closer;
    RankingIsNth(row, c, k);
    CloseIs(row, factor, c);
  }

  /** The assignments of one vector name each cluster it is assigned to once, with its distance. */
  lemma {:induction false} VectorTallied(row: seq<real>, factor: real, i: nat, columns: nat, update: bool, k: nat, b: Best)
    requires columns <= |row| && k < |row|
    ensures var s, hit := VectorEvents(row, Closure(factor), i, columns), AssignedTo(row, factor, columns, k);
            && CountIf(NodeIs(k), s) == (if hit then 1 else 0)
            && Fold(update, k, b, s) == if hit then Pick(update, b, Best(i, row[k])) else b
  {
    if columns > 0 {
      var c := columns - 1;
      VectorTallied(row, factor, i, c, update, k, b);
      AssignedStep(row, factor, c, k);
      var s := VectorEvents(row, Closure(factor), i, c);
      if Assigned(row, Closure(factor), c) {
        var e := Event(Ranking(row)[c].node, Best(i, Ranking(row)[c].dist));
        CountIfSnoc(NodeIs(k), s, e);
        assert (s + [e])[..|s|] == s;
      } else {
        assert s + [] == s;
      }
    } else {
      assert !AssignedTo(row, factor, 0, k);
    }
  }

  /** b is the extreme of cluster k over the first n vectors, from a start at `dist`. Without one, no assigned vector
      passes the start. Otherwise it is an assigned vector with its distance: when centers are updated the first
      farthest, else the last nearest. */
  ghost predicate ExtremeIs(d: Matrix, factor: real, columns: nat, update: bool, dist: real, k: nat, n: nat, b: Best)
    requires n <= |d| && forall i | 0 <= i < |d| :: k < |d[i]|
  {
    if b.idx == -1 then
      && b.dist == dist
      && forall w | 0 <= w < n && AssignedTo(d[w], factor, columns, k) :: if update then d[w][k] <= dist else d[w][k] > dist
    else
      && 0 <= b.idx < n && AssignedTo(d[b.idx], factor, columns, k) && b.dist == d[b.idx][k]
      && (if update then b.dist > dist else b.dist <= dist)
      && (forall w | 0 <= w < b.idx && AssignedTo(d[w], factor, columns, k) :: if update then d[w][k] < b.dist else d[w][k] >= b.dist)
      && (forall w | b.idx < w < n && AssignedTo(d[w], factor, columns, k) :: if update then d[w][k] <= b.dist else d[w][k] > b.dist)
  }

  lemma {:induction false} ExtremeStep(d: Matrix, factor: real, columns: nat, update: bool, dist: real, k: nat, n: nat, b: Best)
    requires n < |d| && (forall i | 0 <= i < |d| :: k < |d[i]|) && ExtremeIs(d, factor, columns, update, dist, k, n, b)
    ensures ExtremeIs(d, factor, columns, update, dist, k, n + 1,
                      if AssignedTo(d[n], factor, columns, k) then Pick(update, b, Best(n, d[n][k])) else b)
  {
  }

  ghost function AssignedVectors(d: Matrix, factor: real, columns: nat, k: nat, n: nat): set<int>
    requires n <= |d|
  {
    set v | 0 <= v < n && AssignedTo(d[v], factor, columns, k)
  }

  lemma {:induction false} OneMoreVector(d: Matrix, factor: real, columns: nat, k: nat, n: nat)
    requires n < |d|
    ensures |AssignedVectors(d, factor, columns, k, n + 1)| ==
            |AssignedVectors(d, factor, columns, k, n)| + if AssignedTo(d[n], factor, columns, k) then 1 else 0
  {
    hide AssignedTo;
    var now, was := AssignedVectors(d, factor, columns, k, n + 1), AssignedVectors(d, factor, columns, k, n);
    if AssignedTo(d[n], factor, columns, k) {
      assert now == was + {n};
    } else {
      assert now == was;
    }
  }

  lemma {:induction false} NothingPassed(d: Matrix, factor: real, columns: nat, update: bool, dist: real, k: nat)
    requires forall i | 0 <= i < |d| :: k < |d[i]|
    ensures CountIf(NodeIs(k), Flat([])) == |AssignedVectors(d, factor, columns, k, 0)|
    ensures ExtremeIs(d, factor, columns, update, dist, k, 0, Fold(update, k, Best(-1, dist), Flat([])))
  {
    assert AssignedVectors(d, factor, columns, k, 0) == {};
  }

  /** The assignments of the first n vectors, counted and folded. */
  lemma {:induction false} PassOnDistances(d: Matrix, factor: real, clusters: nat, columns: nat, update: bool, dist: real, k: nat, n: nat)
    requires Shaped(d, clusters) && columns <= clusters && k < clusters && n <= |d|
    ensures var s := Flat(PerVector(d, Closure(factor), clusters, columns)[..n]);
            && CountIf(NodeIs(k), s) == |AssignedVectors(d, factor, columns, k, n)|
            && ExtremeIs(d, factor, columns, update, dist, k, n, Fold(update, k, Best(-1, dist), s))
  {
    hide AssignedTo, AssignedVectors, VectorEvents, Fold, Flat, ExtremeIs;
    var ev := PerVector(d, Closure(factor), clusters, columns);
    if n == 0 {
      NothingPassed(d, factor, columns, update, dist, k);
      assert ev[..0] == [];
    } else {
      PassOnDistances(d, factor, clusters, columns, update, dist, k, n - 1);
      var s := Flat(ev[..n - 1]);
      FlatNext(ev, 0, n - 1);
      assert ev[0..n] == ev[..n] && ev[0..n - 1] == ev[..n - 1];
      var b := Fold(update, k, Best(-1, dist), s);
      VectorTallied(d[n - 1], factor, n - 1, columns, update, k, b);
      CountIfConcat(NodeIs(k), s, ev[n - 1]);
      FoldConcat(update, k, Best(-1, dist), s, ev[n - 1]);
      ExtremeStep(d, factor, columns, update, dist, k, n - 1, b);
      OneMoreVector(d, factor, columns, k, n - 1);
    }
  }

  // ---- A thread's tally ----

  function NodeIs(k: int): Event -> bool {
    (e: Event) => e.node == k
  }

  /** t is what a thread that started from `start` holds after the assignments s. */
  ghost predicate TallyIs(t: Tally, start: Tally, s: seq<Event>, update: bool, clusters: nat) {
    && |t.counts| == |t.best| == |start.counts| == |start.best| == clusters
    && (forall k | 0 <= k < clusters :: t.counts[k] == start.counts[k] + CountIf(NodeIs(k), s))
    && (forall k | 0 <= k < clusters :: t.best[k] == Fold(update, k, start.best[k], s))
  }

  function Bump(t: Tally, e: Event, update: bool): Tally
    requires 0 <= e.node < |t.counts| && e.node < |t.best|
  {
    Tally(t.counts[e.node := t.counts[e.node] + 1], t.best[e.node := Pick(update, t.best[e.node], e.best)])
  }

  lemma TallyStep(t: Tally, start: Tally, s: seq<Event>, e: Event, update: bool, clusters: nat)
    requires TallyIs(t, start, s, update, clusters) && 0 <= e.node < clusters
    ensures TallyIs(Bump(t, e, update), start, s + [e], update, clusters)
  {
    assert (s + [e])[..|s|] == s;
    forall k | 0 <= k < clusters ensures CountIf(NodeIs(k), s + [e]) == CountIf(NodeIs(k), s) + if k == e.node then 1 else 0 {
      CountIfSnoc(NodeIs(k), s, e);
    }
  }

  /** Whatever the interleaving, a thread's tally depends only on its own assignments, in its own order. */
  function Own(sched: seq<(nat, Event)>, tid: nat): seq<Event> {
    if sched == [] then []
    else Own(sched[..|sched| - 1], tid) + if sched[|sched| - 1].0 == tid then [sched[|sched| - 1].1] else []
  }

  function Interleave(ts: seq<Tally>, sched: seq<(nat, Event)>, update: bool, clusters: nat): (r: seq<Tally>)
    requires forall t | t in ts :: |t.counts| == |t.best| == clusters
    requires forall x | x in sched :: x.0 < |ts| && 0 <= x.1.node < clusters
    ensures |r| == |ts| && forall t | t in r :: |t.counts| == |t.best| == clusters
  {
    if sched == [] then ts
    else
      var r := Interleave(ts, sched[..|sched| - 1], update, clusters);
      var (tid, e) := sched[|sched| - 1];
      r[tid := Bump(r[tid], e, update)]
  }

  lemma {:induction false} InterleavingIrrelevant(ts: seq<Tally>, sched: seq<(nat, Event)>, update: bool, clusters: nat, tid: nat)
    requires forall t | t in ts :: |t.counts| == |t.best| == clusters
    requires forall x | x in sched :: x.0 < |ts| && 0 <= x.1.node < clusters
    requires tid < |ts|
    ensures TallyIs(Interleave(ts, sched, update, clusters)[tid], ts[tid], Own(sched, tid), update, clusters)
  {
    if sched != [] {
      InterleavingIrrelevant(ts, sched[..|sched| - 1], update, clusters, tid);
      var (t, e) := sched[|sched| - 1];
      assert sched[|sched| - 1] in sched;
      var init := sched[..|sched| - 1];
      if t == tid {
        TallyStep(Interleave(ts, init, update, clusters)[tid], ts[tid], Own(init, tid), e, update, clusters);
      } else {
        assert Own(sched, tid) == Own(init, tid) + [] == Own(init, tid);
      }
    }
  }

  // ---- The pass of one thread ----

  /** The tally after the first c columns of vector i, behind the assignments s. */
  ghost predicate TallyAt(t: Tally, start: Tally, s: seq<Event>, row: seq<real>, close: Closeness, i: nat, c: nat, update: bool)
    requires c <= |row|
  {
    TallyIs(t, start, s + VectorEvents(row, close, i, c), update, |row|)
  }

  lemma NoColumns(t: Tally, start: Tally, s: seq<Event>, row: seq<real>, close: Closeness, i: nat, update: bool)
    requires TallyIs(t, start, s, update, |row|)
    ensures TallyAt(t, start, s, row, close, i, 0, update)
  {
    assert s + VectorEvents(row, close, i, 0) == s;
  }

  /** One column of one vector. */
  method AssignColumn(row: seq<real>, centers: seq<Ranked>, close: Closeness, i: nat, c: nat, update: bool, before: Tally,
                      ghost start: Tally, ghost s: seq<Event>)
    returns (lab: int, t: Tally)
    requires c < |row| && centers == Ranking(row) && TallyAt(before, start, s, row, close, i, c, update)
    ensures lab == SoftLabel(row, close, c) && TallyAt(t, start, s, row, close, i, c + 1, update)
  {
    RankingFacts(row);
    ghost var so := VectorEvents(row, close, i, c);
    if close(centers[0].dist, centers[c].dist) {
      var e := Event(centers[c].node, Best(i, centers[c].dist));
      TallyStep(before, start, s + so, e, update, |row|);
      assert s + so + [e] == s + (so + [e]);
      return e.node, Bump(before, e, update);
    } else {
      assert so + [] == so;
      return NONE, before;
    }
  }

  /** One vector: write its label row and count its assignments. */
  method AssignVector(row: seq<real>, close: Closeness, i: nat, columns: nat, update: bool, before: Tally, ghost start: Tally, ghost s: seq<Event>)
    returns (labels: seq<int>, t: Tally)
    requires columns <= |row| && TallyIs(before, start, s, update, |row|)
    ensures labels == SoftRow(row, close, columns) && TallyAt(t, start, s, row, close, i, columns, update)
  {
    var centers := Ranking(row);
    t, labels := before, [];
    var c := 0;
    NoColumns(before, start, s, row, close, i, update);
    while c < columns
      invariant 0 <= c <= columns && labels == SoftRow(row, close, c) && TallyAt(t, start, s, row, close, i, c, update)
    {
      var lab;
      lab, t := AssignColumn(row, centers, close, i, c, update, t, start, s);
      labels := labels + [lab];
      c := c + 1;
    }
  }

  /** The label rows of all vectors. */
  function SoftRows(d: Matrix, close: Closeness, clusters: nat, columns: nat): (rows: seq<seq<int>>)
    requires Shaped(d, clusters) && columns <= clusters
    ensures |rows| == |d|
  {
    seq(|d|, i requires 0 <= i < |d| => SoftRow(d[i], close, columns))
  }

  /** The first `hi` label rows are as wanted. */
  ghost predicate LabelsDone(labels: seq<seq<int>>, want: seq<seq<int>>, hi: nat) {
    hi <= |labels| == |want| && forall i | 0 <= i < hi :: labels[i] == want[i]
  }

  /** What a thread is to do for the vectors: write these label rows and count these assignments. */
  ghost predicate WorkIs(d: Matrix, close: Closeness, clusters: nat, columns: nat, rows: seq<seq<int>>, ev: seq<seq<Event>>) {
    && Shaped(d, clusters) && columns <= clusters
    && rows == SoftRows(d, close, clusters, columns) && ev == PerVector(d, close, clusters, columns)
  }

  /** One vector of a shard. */
  method AssignNext(d: Matrix, close: Closeness, clusters: nat, columns: nat, update: bool, labels: array<seq<int>>, before: Tally,
                    i: nat, ghost start: Tally, ghost rows: seq<seq<int>>, ghost ev: seq<seq<Event>>, ghost lo: nat)
    returns (t: Tally)
    requires WorkIs(d, close, clusters, columns, rows, ev) && lo <= i < |d| == |ev| == labels.Length
    requires LabelsDone(labels[..], rows, i) && TallyIs(before, start, Flat(ev[lo..i]), update, clusters)
    modifies labels
    ensures LabelsDone(labels[..], rows, i + 1) && TallyIs(t, start, Flat(ev[lo..i + 1]), update, clusters)
  {
    FlatNext(ev, lo, i);
    var cells;
    cells, t := AssignVector(d[i], close, i, columns, update, before, start, Flat(ev[lo..i]));
    labels[i] := cells;
  }

  method AssignShard(d: Matrix, close: Closeness, clusters: nat, columns: nat, update: bool, labels: array<seq<int>>, before: Tally,
                     lo: nat, hi: nat, ghost rows: seq<seq<int>>, ghost ev: seq<seq<Event>>)
    returns (t: Tally)
    requires WorkIs(d, close, clusters, columns, rows, ev) && lo <= hi <= |d| == |ev| == labels.Length
    requires |before.counts| == |before.best| == clusters && LabelsDone(labels[..], rows, lo)
    modifies labels
    ensures LabelsDone(labels[..], rows, hi) && TallyIs(t, before, Flat(ev[lo..hi]), update, clusters)
  {
    hide WorkIs, TallyIs, LabelsDone;
    t := before;
    var i := lo;
    NothingTallied(before, update, clusters, ev, lo);
    while i < hi
      invariant lo <= i <= hi && LabelsDone(labels[..], rows, i) && TallyIs(t, before, Flat(ev[lo..i]), update, clusters)
    {
      t := AssignNext(d, close, clusters, columns, update, labels, t, i, before, rows, ev, lo);
      i := i + 1;
    }
  }

  lemma NothingTallied(t: Tally, update: bool, clusters: nat, ev: seq<seq<Event>>, lo: nat)
    requires |t.counts| == |t.best| == clusters && lo <= |ev|
    ensures TallyIs(t, t, Flat(ev[lo..lo]), update, clusters)
  {
    assert ev[lo..lo] == [];
  }

  // ---- All threads and the merge ----

  /** Merge another thread's tally into the first one. */
  function MergeTally(a: Tally, b: Tally, update: bool): Tally
    requires |a.counts| == |a.best| == |b.counts| == |b.best|
  {
    Tally(seq(|a.counts|, k requires 0 <= k < |a.counts| => a.counts[k] + b.counts[k]),
          seq(|a.best|, k requires 0 <= k < |a.best| => Join(update, a.best[k], b.best[k])))
  }

  /** Cleared counters and extremes. */
  ghost predicate Cleared(t: Tally, dist: real, clusters: nat) {
    |t.counts| == |t.best| == clusters && forall k | 0 <= k < clusters :: t.counts[k] == 0 && t.best[k] == Best(-1, dist)
  }

  /** Merging two consecutive shards gives the tally of both together. */
  lemma MergeIsConcat(a: Tally, b: Tally, start: Tally, s: seq<Event>, s': seq<Event>, update: bool, dist: real, clusters: nat)
    requires Cleared(start, dist, clusters) && EventsOk(s, clusters) && EventsOk(s', clusters)
    requires TallyIs(a, start, s, update, clusters) && TallyIs(b, start, s', update, clusters)
    ensures TallyIs(MergeTally(a, b, update), start, s + s', update, clusters)
  {
    forall k | 0 <= k < clusters
      ensures CountIf(NodeIs(k), s + s') == CountIf(NodeIs(k), s) + CountIf(NodeIs(k), s')
      ensures Fold(update, k, start.best[k], s + s') == Join(update, a.best[k], b.best[k])
    {
      CountIfConcat(NodeIs(k), s, s');
      FoldConcat(update, k, start.best[k], s, s');
      FoldIsJoin(update, k, start.best[k], start.best[k], s, clusters);
      FoldIsJoin(update, k, a.best[k], start.best[k], s', clusters);
    }
  }

  /** Consecutive shard boundaries from 0 to n. */
  ghost predicate CutsOk(cuts: seq<nat>, n: nat) {
    && |cuts| > 1 && cuts[0] == 0 && cuts[|cuts| - 1] == n
    && (forall i | 0 <= i < |cuts| :: cuts[i] <= n)
    && (forall i | 0 <= i < |cuts| - 1 :: cuts[i] <= cuts[i + 1])
  }

  method Shards(n: nat, threads: nat) returns (cuts: seq<nat>)
    requires threads > 0
    ensures |cuts| == threads + 1 && CutsOk(cuts, n)
  {
    cuts := [];
    var tid := 0;
    while tid <= threads
      invariant 0 <= tid <= threads + 1 && |cuts| == tid
      invariant forall i | 0 <= i < tid :: cuts[i] == Cut(n, threads, i)
    {
      cuts := cuts + [Cut(n, threads, tid)];
      tid := tid + 1;
    }
    CutsCover(n, threads, 0);
    forall i | 0 <= i < threads ensures cuts[i] <= cuts[i + 1] {
      CutsCover(n, threads, i);
    }
  }

  /** Thread i's share of the assignments. */
  ghost function ShardOf(ev: seq<seq<Event>>, cuts: seq<nat>, i: nat): seq<seq<Event>>
    requires CutsOk(cuts, |ev|) && i < |cuts| - 1
  {
    ev[cuts[i]..cuts[i + 1]]
  }

  /** Labels, counts and extremes of all vectors and clusters, on the distances. */
  ghost predicate OnDistances(d: Matrix, factor: real, clusters: nat, columns: nat, update: bool, dist: real, labels: seq<seq<int>>, t: Tally)
    requires Shaped(d, clusters)
  {
    && |labels| == |d| && |t.counts| == |t.best| == clusters
    && (forall i | 0 <= i < |d| :: RowOnDistances(d[i], factor, columns, labels[i]))
    && (forall k | 0 <= k < clusters :: t.counts[k] == |AssignedVectors(d, factor, columns, k, |d|)|)
    && (forall k | 0 <= k < clusters :: ExtremeIs(d, factor, columns, update, dist, k, |d|, t.best[k]))
  }

  /** What one sequential pass leaves. */
  lemma {:induction false} SequentialOnDistances(d: Matrix, factor: real, clusters: nat, columns: nat, update: bool, dist: real, start: Tally, t: Tally)
    requires Shaped(d, clusters) && columns <= clusters && Cleared(start, dist, clusters)
    requires TallyIs(t, start, Flat(PerVector(d, Closure(factor), clusters, columns)), update, clusters)
    ensures OnDistances(d, factor, clusters, columns, update, dist, SoftRows(d, Closure(factor), clusters, columns), t)
  {
    var ev := PerVector(d, Closure(factor), clusters, columns);
    assert ev[..|d|] == ev;
    forall k | 0 <= k < clusters
      ensures t.counts[k] == |AssignedVectors(d, factor, columns, k, |d|)|
      ensures ExtremeIs(d, factor, columns, update, dist, k, |d|, t.best[k])
    {
      PassOnDistances(d, factor, clusters, columns, update, dist, k, |d|);
    }
    forall i | 0 <= i < |d| ensures RowOnDistances(d[i], factor, columns, SoftRow(d[i], Closure(factor), columns)) {
      SoftRowOnDistances(d[i], factor, columns);
    }
  }

  /** For any number of threads the result is that of one sequential pass, ties included. */
  method MultipleClustersAssign(d: Matrix, factor: real, clusters: nat, columns: nat, threads: nat, update: bool, dist: real,
                                labels: array<seq<int>>, start: Tally)
    returns (t: Tally)
    requires Shaped(d, clusters) && columns <= clusters && |d| == labels.Length && threads > 0 && Cleared(start, dist, clusters)
    modifies labels
    ensures labels[..] == SoftRows(d, Closure(factor), clusters, columns)
    ensures TallyIs(t, start, Flat(PerVector(d, Closure(factor), clusters, columns)), update, clusters)
    ensures OnDistances(d, factor, clusters, columns, update, dist, labels[..], t)
  {
    hide TallyIs, PerVector, SoftRows, OnDistances;
    var close := Closure(factor);
    ghost var rows, ev := SoftRows(d, close, clusters, columns), PerVector(d, close, clusters, columns);
    PerVectorOk(d, close, clusters, columns);
    var cuts := Shards(|d|, threads);
    var tallies: seq<Tally> := [];
    while |tallies| < threads
      invariant |tallies| <= threads && LabelsDone(labels[..], rows, cuts[|tallies|])
      invariant TalliesDone(tallies, start, ev, cuts, update, clusters)
    {
      var tid := |tallies|;
      var one := AssignShard(d, close, clusters, columns, update, labels, start, cuts[tid], cuts[tid + 1], rows, ev);
      tallies := tallies + [one];
    }
    t := MergeAll(tallies, ev, cuts, clusters, update, dist, start);
    SequentialOnDistances(d, factor, clusters, columns, update, dist, start, t);
  }

  /** The first threads hold the tallies of their shards. */
  ghost predicate TalliesDone(tallies: seq<Tally>, start: Tally, ev: seq<seq<Event>>, cuts: seq<nat>, update: bool, clusters: nat)
    requires CutsOk(cuts, |ev|) && |tallies| < |cuts|
  {
    forall i | 0 <= i < |tallies| :: TallyIs(tallies[i], start, Flat(ShardOf(ev, cuts, i)), update, clusters)
  }

  method MergeAll(tallies: seq<Tally>, ghost ev: seq<seq<Event>>, ghost cuts: seq<nat>, clusters: nat, update: bool,
                  ghost dist: real, ghost start: Tally)
    returns (t: Tally)
    requires CutsOk(cuts, |ev|) && |tallies| == |cuts| - 1 && Cleared(start, dist, clusters) && AllOk(ev, clusters)
    requires TalliesDone(tallies, start, ev, cuts, update, clusters)
    ensures TallyIs(t, start, Flat(ev), update, clusters)
  {
    hide TallyIs;
    t := tallies[0];
    assert ShardOf(ev, cuts, 0) == ev[..cuts[1]];
    var i := 1;
    while i < |tallies|
      invariant 1 <= i <= |tallies| && TallyIs(t, start, Flat(ev[..cuts[i]]), update, clusters)
    {
      assert TallyIs(tallies[i], start, Flat(ShardOf(ev, cuts, i)), update, clusters);
      t := MergeNext(t, tallies[i], i, ev, cuts, clusters, update, dist, start);
      i := i + 1;
    }
    assert ev[..|ev|] == ev;
  }

  /** Thread i's tally joins those of the threads before it. */
  method MergeNext(before: Tally, other: Tally, ghost i: nat, ghost ev: seq<seq<Event>>, ghost cuts: seq<nat>, ghost clusters: nat,
                   update: bool, ghost dist: real, ghost start: Tally)
    returns (t: Tally)
    requires CutsOk(cuts, |ev|) && i < |cuts| - 1 && Cleared(start, dist, clusters) && AllOk(ev, clusters)
    requires TallyIs(before, start, Flat(ev[..cuts[i]]), update, clusters)
    requires TallyIs(other, start, Flat(ShardOf(ev, cuts, i)), update, clusters)
    ensures TallyIs(t, start, Flat(ev[..cuts[i + 1]]), update, clusters)
  {
    ghost var a, b := ev[..cuts[i]], ShardOf(ev, cuts, i);
    assert a + b == ev[..cuts[i + 1]];
    FlatOk(a, clusters);
    FlatOk(b, clusters);
    FlatConcat(a, b);
    MergeIsConcat(before, other, start, Flat(a), Flat(b), update, dist, clusters);
    t := MergeTally(before, other, update);
  }
}
