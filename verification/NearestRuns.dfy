/** What the labels of whole runs of the partitioner say about the distances. */
module NearestRuns {
  import opened HardAssign
  import opened PartitionRounds
  import opened Nearest

  /** The label cell of column c after round m. */
  ghost function Cell(g: Config, t: seq<Stage>, m: nat, r: nat, i: nat, c: nat): int
    requires ConfigOk(g) && IsRun(g, t) && c <= m < |t| && r < |g.data| && i < |g.data[r]|
  {
    RunStep(g, t, m, r);
    t[m].done[r].labels[i][c]
  }

  /** Later rounds leave the cells of earlier ones alone. */
  lemma {:induction false} CellStays(g: Config, t: seq<Stage>, m: nat, r: nat, i: nat, c: nat)
    requires ConfigOk(g) && IsRun(g, t) && c <= m < |t| && r < |g.data| && i < |g.data[r]|
    ensures Cell(g, t, m, r, i, c) == Cell(g, t, c, r, i, c)
    decreases m
  {
    if c < m {
      RunStep(g, t, m, r);
      CellOnDistances(g.data[r], g.cf, m, m == g.columns - 1, g.clusters, g.columns, t[m].ready[r], t[m].done[r], i);
      CellStays(g, t, m - 1, r, i, c);
    }
  }

  /** After any number of rounds a filled cell c of a vector names the vector's c-th nearest center, which is close
      enough. */
  lemma {:induction false} CellsAreNearby(g: Config, t: seq<Stage>, m: nat, r: nat, i: nat, c: nat)
    requires ConfigOk(g) && IsRun(g, t) && c <= m < |t| && r < |g.data| && i < |g.data[r]|
    ensures var cell := Cell(g, t, m, r, i, c);
            cell == NONE || (IsNth(g.data[r][i], c, cell) && CloseEnough(g.data[r][i], g.cf, cell))
  {
    CellStays(g, t, m, r, i, c);
    RunStep(g, t, c, r);
    CellOnDistances(g.data[r], g.cf, c, c == g.columns - 1, g.clusters, g.columns, t[c].ready[r], t[c].done[r], i);
  }

  /** And of two vectors of a rank with the same c-th nearest center, both close enough to it, one that has it in cell
      c is nearer to it than one that has not, or as near and the smaller number. */
  lemma {:induction false} NearestGetTheCell(g: Config, t: seq<Stage>, m: nat, r: nat, k: nat, i: nat, j: nat, c: nat)
    requires ConfigOk(g) && IsRun(g, t) && c <= m < |t| && r < |g.data| && i < |g.data[r]| && j < |g.data[r]| && k < g.clusters
    requires IsNth(g.data[r][i], c, k) && CloseEnough(g.data[r][i], g.cf, k)
    requires IsNth(g.data[r][j], c, k) && CloseEnough(g.data[r][j], g.cf, k)
    requires Cell(g, t, m, r, i, c) == k && Cell(g, t, m, r, j, c) == NONE
    ensures var d := g.data[r]; d[i][k] < d[j][k] || (d[i][k] == d[j][k] && i < j)
  {
    CellStays(g, t, m, r, i, c);
    CellStays(g, t, m, r, j, c);
    RunStep(g, t, c, r);
    NearestAreKept(g.data[r], g.cf, c, c == g.columns - 1, g.clusters, g.columns, t[c].ready[r], t[c].done[r], k, i, j);
  }

  /** A vector goes without in round c only when as many others of its rank as the quota allows got the cluster. */
  lemma {:induction false} WithoutOnlyWhenFull(g: Config, t: seq<Stage>, m: nat, r: nat, k: nat, j: nat, c: nat)
    requires ConfigOk(g) && IsRun(g, t) && c <= m < |t| && r < |g.data| && j < |g.data[r]| && k < g.clusters
    requires IsNth(g.data[r][j], c, k) && CloseEnough(g.data[r][j], g.cf, k)
    requires Cell(g, t, m, r, j, c) == NONE
    ensures RanksFit(g, t[c].ready) && RanksFit(g, t[c].done) && t[c].done[r].counts[k] == t[c].ready[r].limit[k]
  {
    CellStays(g, t, m, r, j, c);
    RunStep(g, t, c, r);
    QuotaNeverNegative(g, t, c, r, k);
    var d, s, n := g.data[r], t[c].ready[r], t[c].done[r];
    QuotaIsUsed(d, g.cf, c, c == g.columns - 1, g.clusters, g.columns, s, n, k);
    var asked, given := Askers(d, g.cf, c, k), Given(n.labels, c, k);
    if |asked| <= s.limit[k] - s.counts[k] {
      forall i | i in given ensures i in asked {
        CellOnDistances(d, g.cf, c, c == g.columns - 1, g.clusters, g.columns, s, n, i);
      }
      SameSize(given, asked, j);
      assert false;
    }
  }

  lemma {:induction false} SameSize(a: set<int>, b: set<int>, x: int)
    requires a <= b && |a| == |b| && x in b
    ensures x in a
  {
    assert b == a + (b - a);
    assert |b - a| == 0;
  }
}
