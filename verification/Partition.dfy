/** The whole partitioning: all ranks run their rounds in lockstep, exchanging counts between them, and then send every
    vector to the owners of its clusters, who write the files. */
module Partition {
  import opened Arith
  import opened Sorting
  import opened HardAssign
  import opened RankProcess
  import opened PartitionRounds
  import opened CountMerge
  import opened Exchange

  /** The rank holds state s for the vectors d. */
  ghost predicate InState(rank: Rank, g: Config, d: Matrix, s: RankState)
    reads rank.Arrays()
  {
    rank.Valid() && rank.n == |d| && rank.clusters == g.clusters && rank.columns == g.columns && rank.State() == s
  }

  /** A rank after a round: its own counts are in `counts`. */
  ghost predicate Finished(rank: Rank, g: Config, d: Matrix, s: RankState)
    reads rank.Arrays()
  {
    InState(rank, g, d, s) && rank.counts[..] == s.counts
  }

  /** No two ranks share an array, and all arrays are in `owned`. */
  ghost predicate Apart(ranks: seq<Rank>, owned: set<object>) {
    && (forall i, j | 0 <= i < |ranks| && 0 <= j < |ranks| && i != j :: ranks[i].Arrays() !! ranks[j].Arrays())
    && (forall i | 0 <= i < |ranks| :: ranks[i].Arrays() <= owned)
  }

  /** No cluster's limit is below its count. */
  ghost predicate QuotaOk(s: RankState) {
    |s.limit| == |s.counts| && forall k | 0 <= k < |s.limit| :: s.counts[k] <= s.limit[k]
  }

  lemma {:induction false} PartsSum(done: seq<RankState>, k: nat, parts: seq<int>)
    requires |parts| == |done| && forall r | 0 <= r < |done| :: k < |done[r].counts| && parts[r] == done[r].counts[k]
    ensures SumOf(parts) == Global(done, k)
  {
    if done != [] {
      PartsSum(done[..|done| - 1], k, parts[..|parts| - 1]);
    }
  }

  /** Ranks that stand before the round that follows the rounds of t. */
  ghost predicate Before(g: Config, t: seq<Stage>, ready: seq<RankState>)
    requires ConfigOk(g)
  {
    && |ready| == |g.data|
    && if t == [] then forall r | 0 <= r < |g.data| :: RankInitial(g, g.data[r], ready[r])
       else IsRun(g, t) && Rebalanced(g, t[|t| - 1].done, ready)
  }

  lemma BeforeQuota(g: Config, t: seq<Stage>, ready: seq<RankState>, r: nat)
    requires ConfigOk(g) && Before(g, t, ready) && r < |g.data|
    ensures QuotaOk(ready[r])
  {
    if t == [] {
      forall k | 0 <= k < g.clusters ensures ready[r].counts[k] <= ready[r].limit[k] {
        InitialQuota(g, g.data[r], ready[r], k);
      }
    } else {
      assert RankRebalanced(g, t[|t| - 1].done, t[|t| - 1].done[r], ready[r]);
    }
  }

  /** Every cluster's count on every rank is at least 0. */
  ghost predicate CountsOk(g: Config, done: seq<RankState>) {
    RanksFit(g, done) && forall r, k | 0 <= r < |done| && 0 <= k < g.clusters :: done[r].counts[k] >= 0
  }

  lemma OneMoreRound(g: Config, t: seq<Stage>, ready: seq<RankState>, done: seq<RankState>)
    requires ConfigOk(g) && Before(g, t, ready) && |t| < g.columns && StageIs(g, Stage(ready, done), |t|)
    ensures IsRun(g, t + [Stage(ready, done)]) && CountsOk(g, done)
  {
    var s := Stage(ready, done);
    var t' := t + [s];
    if t == [] {
      RunStart(g, s);
      assert t' == [s];
    } else {
      RunNext(g, t, s);
    }
    RunFits(g, t', |t|);
    forall r, k | 0 <= r < |done| && 0 <= k < g.clusters ensures done[r].counts[k] >= 0 {
      QuotaNeverNegative(g, t', |t|, r, k);
    }
  }

  /** The global counts as the ranks see them. */
  ghost predicate AreSeen(g: Config, done: seq<RankState>, global: seq<int>) {
    RanksFit(g, done) && |global| == g.clusters && forall k | 0 <= k < g.clusters :: global[k] == Seen(g, done, k)
  }

  /** A rank before its first round. */
  function FirstState(g: Config, d: Matrix, rows: seq<seq<int>>): RankState
    requires ConfigOk(g)
  {
    RankState(seq(g.clusters, _ => FirstLimit(g.hardcut, Capacity(g), |g.data|, |d|)), seq(g.clusters, _ => 0), rows)
  }

  /** Label rows of the right shape for every rank, with whatever earlier passes left in them. */
  ghost predicate RowsFit(g: Config, rows: seq<seq<seq<int>>>) {
    |rows| == |g.data| && forall r | 0 <= r < |rows| :: |rows[r]| == |g.data[r]| && RowsOf(rows[r], g.columns)
  }

  ghost function FirstStates(g: Config, rows: seq<seq<seq<int>>>): (ready: seq<RankState>)
    requires ConfigOk(g) && RowsFit(g, rows)
    ensures Before(g, [], ready) && |ready| == |rows|
    ensures forall r | 0 <= r < |rows| :: ready[r] == FirstState(g, g.data[r], rows[r])
  {
    seq(|rows|, r requires 0 <= r < |rows| => FirstState(g, g.data[r], rows[r]))
  }

  method NewRank(g: Config, d: Matrix, rows: seq<seq<int>>, threads: nat) returns (rank: Rank)
    requires ConfigOk(g) && threads > 0 && |rows| == |d| && RowsOf(rows, g.columns)
    ensures fresh(rank.Arrays()) && InState(rank, g, d, FirstState(g, d, rows))
  {
    rank := new Rank(rows, g.clusters, g.columns, threads, FirstLimit(g.hardcut, Capacity(g), |g.data|, |d|));
  }

  /** All ranks of a run. */
  class Machine {
    const g: Config
    const ranks: seq<Rank>
    ghost const owned: set<object>

    /** Every rank with its first limits, cleared counts and the given label rows. */
    constructor (g: Config, threads: nat, rows: seq<seq<seq<int>>>)
      requires ConfigOk(g) && threads > 0 && RowsFit(g, rows)
      ensures this.g == g && Ok() && fresh(owned) && Hold(FirstStates(g, rows), 0, |ranks|)
    {
      var made: seq<Rank> := [];
      ghost var arrays: set<object> := {};
      while |made| < |g.data|
        invariant |made| <= |g.data| && Apart(made, arrays) && fresh(arrays)
        invariant forall i | 0 <= i < |made| :: InState(made[i], g, g.data[i], FirstState(g, g.data[i], rows[i]))
      {
        var rank := NewRank(g, g.data[|made|], rows[|made|], threads);
        made, arrays := made + [rank], arrays + rank.Arrays();
      }
      this.g, ranks, owned := g, made, arrays;
    }

    ghost predicate Ok() {
      ConfigOk(g) && |ranks| == |g.data| && Apart(ranks, owned)
    }

    /** Ranks lo..hi hold their states. */
    ghost predicate Hold(states: seq<RankState>, lo: nat, hi: nat)
      requires Ok() && hi <= |states| && hi <= |ranks|
      reads owned
    {
      forall r | lo <= r < hi :: InState(ranks[r], g, g.data[r], states[r])
    }

    /** Ranks lo..hi are through with a round. */
    ghost predicate Through(states: seq<RankState>, lo: nat, hi: nat)
      requires Ok() && hi <= |states| && hi <= |ranks|
      reads owned
    {
      forall r | lo <= r < hi :: Finished(ranks[r], g, g.data[r], states[r])
    }

    // ---- One round of all ranks ----

    /** Rank r's turn. */
    method AssignOne(c: nat, r: nat, ghost ready: seq<RankState>, ghost done: seq<RankState>) returns (ghost s: RankState)
      requires Ok() && c < g.columns && r == |done| < |ranks| == |ready| && Through(done, 0, r) && Hold(ready, r, |ranks|)
      requires QuotaOk(ready[r])
      modifies ranks[r].Arrays()
      ensures Through(done + [s], 0, r + 1) && Hold(ready, r + 1, |ranks|)
      ensures IsRound(g.data[r], g.cf, c, c == g.columns - 1, g.clusters, g.columns, ready[r], s)
    {
      var rank := ranks[r];
      assert rank.State() == ready[r];
      rank.HardAssign(g.data[r], g.cf, c, c == g.columns - 1);
      s := rank.State();
      assert Finished(rank, g, g.data[r], s);
    }

    ghost predicate RoundsDone(c: nat, ready: seq<RankState>, done: seq<RankState>)
      requires Ok() && c < g.columns && |done| <= |ready| == |ranks|
    {
      forall i | 0 <= i < |done| ::
        IsRound(g.data[i], g.cf, c, c == g.columns - 1, g.clusters, g.columns, ready[i], done[i])
    }

    method AssignAll(c: nat, ghost ready: seq<RankState>) returns (ghost done: seq<RankState>)
      requires Ok() && c < g.columns && |ready| == |ranks| && Hold(ready, 0, |ranks|)
      requires forall r | 0 <= r < |ready| :: QuotaOk(ready[r])
      modifies owned
      ensures |done| == |ranks| && Through(done, 0, |ranks|) && StageIs(g, Stage(ready, done), c)
    {
      done := [];
      var r := 0;
      while r < |ranks|
        invariant 0 <= r == |done| <= |ranks| && Through(done, 0, r) && Hold(ready, r, |ranks|) && RoundsDone(c, ready, done)
      {
        ghost var s := AssignOne(c, r, ready, done);
        done := done + [s];
        r := r + 1;
      }
    }

    // ---- The exchange of counts ----

    /** The counts of cluster k, rank by rank. */
    method Parts(k: nat, ghost done: seq<RankState>) returns (parts: seq<int>)
      requires Ok() && k < g.clusters && |done| == |ranks| && Through(done, 0, |ranks|) && RanksFit(g, done)
      ensures |parts| == |done| && forall r | 0 <= r < |done| :: parts[r] == done[r].counts[k]
    {
      parts := [];
      var r := 0;
      while r < |ranks|
        invariant 0 <= r <= |ranks| && |parts| == r && forall i | 0 <= i < r :: parts[i] == done[i].counts[k]
      {
        assert Finished(ranks[r], g, g.data[r], done[r]);
        parts := parts + [ranks[r].counts[k]];
        r := r + 1;
      }
    }

    static method Sum(parts: seq<int>) returns (count: int)
      ensures count == SumOf(parts)
    {
      count := 0;
      var i := 0;
      while i < |parts|
        invariant 0 <= i <= |parts| && count == SumOf(parts[..i])
      {
        assert parts[..i + 1][..i] == parts[..i];
        count := count + parts[i];
        i := i + 1;
      }
      assert parts[..i] == parts;
    }

    /** A sum over all ranks, or the merge of their files. */
    method Reduce(k: nat, ghost done: seq<RankState>) returns (count: int)
      requires Ok() && k < g.clusters && |done| == |ranks| && Through(done, 0, |ranks|) && CountsOk(g, done)
      ensures count == Seen(g, done, k)
    {
      var parts := Parts(k, done);
      PartsSum(done, k, parts);
      if g.merged {
        count := MergeCounts(parts);
      } else {
        count := Sum(parts);
      }
    }

    method ReduceAll(ghost done: seq<RankState>) returns (global: seq<int>)
      requires Ok() && |done| == |ranks| && Through(done, 0, |ranks|) && CountsOk(g, done)
      ensures AreSeen(g, done, global)
    {
      global := [];
      var k := 0;
      while k < g.clusters
        invariant 0 <= k <= g.clusters && |global| == k && forall j | 0 <= j < k :: global[j] == Seen(g, done, j)
      {
        var count := Reduce(k, done);
        global := global + [count];
        k := k + 1;
      }
    }

    /** Rank r gets its limits for the next round. */
    method RebalanceOne(global: seq<int>, capacity: nat, r: nat, ghost done: seq<RankState>, ghost ready: seq<RankState>)
      returns (ghost s: RankState)
      requires Ok() && AreSeen(g, done, global) && capacity == Capacity(g)
      requires r == |ready| < |ranks| == |done| && Hold(ready, 0, r) && Through(done, r, |ranks|)
      modifies ranks[r].Arrays()
      ensures Hold(ready + [s], 0, r + 1) && Through(done, r + 1, |ranks|) && RankRebalanced(g, done, done[r], s)
    {
      var rank := ranks[r];
      assert Finished(rank, g, g.data[r], done[r]);
      rank.Rebalance(global, capacity, |ranks|);
      s := rank.State();
      assert forall k | 0 <= k < g.clusters :: s.limit[k] == s.counts[k] + Share(capacity, global[k], |ranks|);
    }

    method RebalanceAll(global: seq<int>, capacity: nat, ghost done: seq<RankState>) returns (ghost ready: seq<RankState>)
      requires Ok() && AreSeen(g, done, global) && capacity == Capacity(g)
      requires |done| == |ranks| && Through(done, 0, |ranks|)
      modifies owned
      ensures |ready| == |ranks| && Hold(ready, 0, |ranks|) && Rebalanced(g, done, ready)
    {
      ready := [];
      var r := 0;
      while r < |ranks|
        invariant 0 <= r == |ready| <= |ranks| && Hold(ready, 0, r) && Through(done, r, |ranks|)
        invariant forall i | 0 <= i < r :: RankRebalanced(g, done, done[i], ready[i])
      {
        ghost var s := RebalanceOne(global, capacity, r, done, ready);
        ready := ready + [s];
        r := r + 1;
      }
    }

    // ---- All rounds ----

    /** One round of all ranks and the count exchange behind it. */
    method DoRound(c: nat, ghost t: seq<Stage>, ghost ready: seq<RankState>) returns (global: seq<int>, ghost done: seq<RankState>)
      requires Ok() && Before(g, t, ready) && Hold(ready, 0, |ranks|) && c == |t| < g.columns
      modifies owned
      ensures |done| == |ranks| && Through(done, 0, |ranks|)
      ensures IsRun(g, t + [Stage(ready, done)]) && AreSeen(g, done, global)
    {
      forall r | 0 <= r < |g.data| ensures QuotaOk(ready[r]) {
        BeforeQuota(g, t, ready, r);
      }
      done := AssignAll(c, ready);
      OneMoreRound(g, t, ready, done);
      global := ReduceAll(done);
    }

    /** A round that another one follows. */
    method NextRound(c: nat, capacity: nat, ghost t: seq<Stage>, ghost ready: seq<RankState>)
      returns (ghost t': seq<Stage>, ghost ready': seq<RankState>)
      requires Ok() && Before(g, t, ready) && Hold(ready, 0, |ranks|) && c == |t| < g.columns && capacity == Capacity(g)
      modifies owned
      ensures |t'| == c + 1 && Before(g, t', ready') && Hold(ready', 0, |ranks|)
    {
      var global;
      ghost var done;
      global, done := DoRound(c, t, ready);
      t' := t + [Stage(ready, done)];
      ready' := RebalanceAll(global, capacity, done);
    }

    /** The rounds of `Process` and of `ProcessWithoutMPI`: from their first limits the ranks do a complete run. Every
        rank ends with the labels and its own counts of the last round; `global` are the counts as the ranks see them. */
    method Rounds(ghost ready: seq<RankState>) returns (global: seq<int>, ghost t: seq<Stage>)
      requires Ok() && Before(g, [], ready) && Hold(ready, 0, |ranks|)
      modifies owned
      ensures IsRun(g, t) && |t| == g.columns && |Final(g, t)| == |ranks|
      ensures Through(Final(g, t), 0, |ranks|) && AreSeen(g, Final(g, t), global)
    {
      var capacity := Capacity(g);
      ghost var now := ready;
      t := [];
      var c := 0;
      while c < g.columns - 1
        invariant 0 <= c == |t| <= g.columns - 1 && Before(g, t, now) && Hold(now, 0, |ranks|)
      {
        t, now := NextRound(c, capacity, t, now);
        c := c + 1;
      }
      ghost var done;
      global, done := DoRound(c, t, now);
      t := t + [Stage(now, done)];
    }

    // ---- The exchange of vectors ----

    /** The channels to the owner of cluster k: every other rank announces its count and sends its vectors. */
    method SendAll<T>(recs: seq<seq<Record<T>>>, k: nat, owner: nat, withMeta: bool, ghost done: seq<RankState>)
      returns (chans: seq<seq<Message<T>>>)
      requires Ok() && k < g.clusters && |done| == |ranks| && Through(done, 0, |ranks|) && RecordsFit(g, done, recs)
      requires forall r | 0 <= r < |done| :: |PartsOf(g, done, recs, k)[r]| == done[r].counts[k]
      ensures Drained(chans, PartsOf(g, done, recs, k), owner, withMeta, 0)
    {
      ghost var parts := PartsOf(g, done, recs, k);
      chans := [];
      while |chans| < |ranks|
        invariant |chans| <= |ranks| && forall i | 0 <= i < |chans| && i != owner :: chans[i] == Announce(parts[i], withMeta)
      {
        var r := |chans|;
        var chan := [];
        if r != owner {
          assert Finished(ranks[r], g, g.data[r], done[r]);
          chan := Send(ranks[r].labels[..], recs[r], k, ranks[r].counts[k], withMeta);
        }
        chans := chans + [chan];
      }
    }

    /** The exchange for cluster k after a complete run: the owner never blocks, drains every channel, and writes files
        whose header is the number of vectors in them and which hold the records of the label cells that name k. */
    method ExchangeCluster<T>(recs: seq<seq<Record<T>>>, k: nat, header: int, withMeta: bool, ghost t: seq<Stage>)
      returns (blocked: bool, left: seq<seq<Message<T>>>, o: Output<T>)
      requires Ok() && k < g.clusters && IsComplete(g, t) && Through(Final(g, t), 0, |ranks|)
      requires RecordsFit(g, Final(g, t), recs) && header == Global(Final(g, t), k)
      ensures !blocked && |left| == |ranks| && forall r | 0 <= r < |ranks| && r != k % |ranks| :: left[r] == []
      ensures FileIs(g, Final(g, t), recs, k, withMeta, o)
    {
      ghost var done := Final(g, t);
      ghost var parts := PartsOf(g, done, recs, k);
      ExchangeAgrees(g, t, recs, parts, k, withMeta);
      var owner := k % |ranks|;
      var chans := SendAll(recs, k, owner, withMeta, done);
      assert Finished(ranks[owner], g, g.data[owner], done[owner]);
      blocked, left, o := Collect(owner, chans, ranks[owner].labels[..], recs[owner], k, header, withMeta, parts);
      forall r | 0 <= r < |ranks| && r != owner ensures left[r] == [] {
        assert DrainedAt(left[r], parts[r], withMeta, true);
      }
    }

    /** Cluster by cluster; with exact counts the files' headers are the global counts of the run. */
    method WriteFiles<T>(recs: seq<seq<Record<T>>>, global: seq<int>, withMeta: bool, ghost t: seq<Stage>)
      returns (files: seq<Output<T>>)
      requires Ok() && !g.merged && IsComplete(g, t) && Through(Final(g, t), 0, |ranks|)
      requires RecordsFit(g, Final(g, t), recs) && AreSeen(g, Final(g, t), global)
      ensures |files| == g.clusters && FilesAre(g, Final(g, t), recs, withMeta, files)
    {
      files := [];
      while |files| < g.clusters
        invariant |files| <= g.clusters && FilesAre(g, Final(g, t), recs, withMeta, files)
      {
        var o := WriteNext(recs, global, |files|, withMeta, t);
        FilesSnoc(g, Final(g, t), recs, withMeta, files, o);
        files := files + [o];
      }
    }

    method WriteNext<T>(recs: seq<seq<Record<T>>>, global: seq<int>, k: nat, withMeta: bool, ghost t: seq<Stage>)
      returns (o: Output<T>)
      requires Ok() && !g.merged && k < g.clusters && IsComplete(g, t) && Through(Final(g, t), 0, |ranks|)
      requires RecordsFit(g, Final(g, t), recs) && AreSeen(g, Final(g, t), global)
      ensures FileIs(g, Final(g, t), recs, k, withMeta, o)
    {
      assert global[k] == Seen(g, Final(g, t), k);
      var blocked, left;
      blocked, left, o := ExchangeCluster(recs, k, global[k], withMeta, t);
    }
  }

  lemma FilesSnoc<T>(g: Config, done: seq<RankState>, recs: seq<seq<Record<T>>>, withMeta: bool, files: seq<Output<T>>, o: Output<T>)
    requires FilesAre(g, done, recs, withMeta, files) && FileIs(g, done, recs, |files|, withMeta, o)
    ensures FilesAre(g, done, recs, withMeta, files + [o])
  {
    forall k | 0 <= k < |files| + 1 ensures FileIs(g, done, recs, k, withMeta, (files + [o])[k]) {
      if k < |files| {
        assert FileIs(g, done, recs, k, withMeta, files[k]);
      }
    }
  }

  /** All rounds of all columns. */
  ghost predicate IsComplete(g: Config, t: seq<Stage>)
    requires ConfigOk(g)
  {
    IsRun(g, t) && |t| == g.columns && RanksFit(g, Final(g, t))
  }

  /** The ranks after the last round. */
  ghost function Final(g: Config, t: seq<Stage>): seq<RankState>
    requires ConfigOk(g) && |t| == g.columns
  {
    t[g.columns - 1].done
  }

  /** Cluster k holds no more vectors than the capacity. */
  ghost predicate WithinCapacity(g: Config, done: seq<RankState>, k: nat)
    requires ConfigOk(g)
  {
    k < g.clusters && RanksFit(g, done) && Global(done, k) <= Capacity(g)
  }

  /** With hardcut = 1 a complete run keeps the capacity of every cluster. */
  lemma CompleteWithinCapacity(g: Config, t: seq<Stage>)
    requires ConfigOk(g) && IsComplete(g, t) && g.hardcut == 1 && MergeSafe(g)
    ensures forall k | 0 <= k < g.clusters :: WithinCapacity(g, Final(g, t), k)
  {
    forall k | 0 <= k < g.clusters ensures WithinCapacity(g, Final(g, t), k) {
      CapacityBound(g, t, g.columns - 1, k);
    }
  }

  /** One record per vector of each rank. */
  ghost predicate RecordsFit<T>(g: Config, done: seq<RankState>, recs: seq<seq<Record<T>>>) {
    RanksFit(g, done) && |recs| == |g.data| && forall r | 0 <= r < |recs| :: |recs[r]| == |g.data[r]|
  }

  /** What each rank contributes to cluster k. */
  ghost function PartsOf<T>(g: Config, done: seq<RankState>, recs: seq<seq<Record<T>>>, k: int): (parts: seq<seq<Record<T>>>)
    requires RecordsFit(g, done, recs)
    ensures |parts| == |recs| && forall r | 0 <= r < |recs| :: parts[r] == Selected(done[r].labels, recs[r], k)
  {
    seq(|recs|, r requires 0 <= r < |recs| => Selected(done[r].labels, recs[r], k))
  }

  /** These are the files of cluster k, and their header counts the vectors in them. */
  ghost predicate FileIs<T>(g: Config, done: seq<RankState>, recs: seq<seq<Record<T>>>, k: nat, withMeta: bool, o: Output<T>) {
    && k < g.clusters && RecordsFit(g, done, recs) && o == FilesOf(g, done, recs, k, withMeta)
    && o.header == |o.vectors| == Global(done, k)
  }

  /** The files of all clusters. */
  ghost predicate FilesAre<T>(g: Config, done: seq<RankState>, recs: seq<seq<Record<T>>>, withMeta: bool, files: seq<Output<T>>) {
    forall k | 0 <= k < |files| :: FileIs(g, done, recs, k, withMeta, files[k])
  }

  /** The files of cluster k: one record for every label cell that names k, rank by rank. */
  ghost function FilesOf<T>(g: Config, done: seq<RankState>, recs: seq<seq<Record<T>>>, k: nat, withMeta: bool): Output<T>
    requires RecordsFit(g, done, recs) && k < g.clusters
  {
    Closed(OutputOf(Global(done, k), Flatten(PartsOf(g, done, recs, k)), withMeta), withMeta)
  }

  /** `Process` behind its k-means iterations, with exact sums of the counts: whatever the numbers of ranks and threads,
      each cluster's files hold exactly the records of the label cells of a complete run that name it, their header counts
      them, and with hardcut = 1 they are at most the capacity. */
  method Process<T>(g: Config, threads: nat, rows: seq<seq<seq<int>>>, recs: seq<seq<Record<T>>>, withMeta: bool)
    returns (files: seq<Output<T>>, ghost t: seq<Stage>)
    requires ConfigOk(g) && !g.merged && threads > 0 && RowsFit(g, rows)
    requires |recs| == |g.data| && forall r | 0 <= r < |recs| :: |recs[r]| == |g.data[r]|
    ensures IsComplete(g, t) && |files| == g.clusters && FilesAre(g, Final(g, t), recs, withMeta, files)
    ensures g.hardcut == 1 ==> forall k | 0 <= k < g.clusters :: |files[k].vectors| <= Capacity(g)
  {
    files, t := RunAndWrite(g, threads, rows, recs, withMeta);
    if g.hardcut == 1 {
      CompleteWithinCapacity(g, t);
      forall k | 0 <= k < g.clusters ensures |files[k].vectors| <= Capacity(g) {
        assert WithinCapacity(g, Final(g, t), k) && FileIs(g, Final(g, t), recs, k, withMeta, files[k]);
      }
    }
  }

  method RunAndWrite<T>(g: Config, threads: nat, rows: seq<seq<seq<int>>>, recs: seq<seq<Record<T>>>, withMeta: bool)
    returns (files: seq<Output<T>>, ghost t: seq<Stage>)
    requires ConfigOk(g) && !g.merged && threads > 0 && RowsFit(g, rows)
    requires |recs| == |g.data| && forall r | 0 <= r < |recs| :: |recs[r]| == |g.data[r]|
    ensures IsComplete(g, t) && |files| == g.clusters && FilesAre(g, Final(g, t), recs, withMeta, files)
  {
    var machine := new Machine(g, threads, rows);
    var global;
    global, t := machine.Rounds(FirstStates(g, rows));
    files := machine.WriteFiles(recs, global, withMeta, t);
  }

  /** The same rounds with counts merged from files: the capacity is kept when the merge is safe. */
  method ProcessWithoutMPI(g: Config, threads: nat, rows: seq<seq<seq<int>>>)
    returns (labels: seq<seq<seq<int>>>, global: seq<int>, ghost t: seq<Stage>)
    requires ConfigOk(g) && g.merged && threads > 0 && RowsFit(g, rows)
    ensures IsComplete(g, t) && AreSeen(g, Final(g, t), global)
    ensures |labels| == |g.data| && forall r | 0 <= r < |g.data| :: labels[r] == Final(g, t)[r].labels
    ensures g.hardcut == 1 && MergeSafe(g) ==> forall k | 0 <= k < g.clusters :: WithinCapacity(g, Final(g, t), k)
  {
    var machine := new Machine(g, threads, rows);
    global, t := machine.Rounds(FirstStates(g, rows));
    labels := [];
    while |labels| < |machine.ranks|
      invariant |labels| <= |machine.ranks|
      invariant forall r | 0 <= r < |labels| :: labels[r] == Final(g, t)[r].labels
    {
      var r := |labels|;
      assert Finished(machine.ranks[r], g, g.data[r], Final(g, t)[r]);
      labels := labels + [machine.ranks[r].labels[..]];
    }
    if g.hardcut == 1 && MergeSafe(g) {
      CompleteWithinCapacity(g, t);
    }
  }
}
