/** `MultiIndexScan`: the k best ids over several indices, from one result iterator per index, a bounded queue, a seen
    set and an output stack behind `Next`. */
module MultiIndexScan {
  import opened Collections

  /** How the distances of an id in all indices become its score. */
  datatype Rank = Weighted(weights: seq<real>) | Custom(f: seq<real> -> real)

  /** `WeightedRankFunc` over the first |dists| weights. */
  function WeightedSum(dists: seq<real>, weights: seq<real>): real
    requires |dists| <= |weights|
  {
    if dists == [] then 0.0
    else WeightedSum(dists[..|dists| - 1], weights) + dists[|dists| - 1] * weights[|dists| - 1]
  }

  /** The weighted sum is 0 for no distances, and each distance counts by its own weight. */
  lemma {:induction false} EachByItsWeight(dists: seq<real>, weights: seq<real>, i: nat, x: real)
    requires i < |dists| <= |weights|
    ensures WeightedSum(dists[i := x], weights) == WeightedSum(dists, weights) + (x - dists[i]) * weights[i]
  {
    var k := |dists| - 1;
    if i < k {
      EachByItsWeight(dists[..k], weights, i, x);
      assert dists[i := x][..k] == dists[..k][i := x];
    } else {
      assert dists[i := x][..k] == dists[..k];
      assert (x - dists[i]) * weights[i] == x * weights[i] - dists[i] * weights[i];
    }
  }

  lemma {:induction false} NoDistanceNoSum(dists: seq<real>, weights: seq<real>)
    requires |dists| <= |weights| && forall i | 0 <= i < |dists| :: dists[i] == 0.0
    ensures WeightedSum(dists, weights) == 0.0
  {
    if dists != [] {
      NoDistanceNoSum(dists[..|dists| - 1], weights);
    }
  }

  method WeightedRank(dists: seq<real>, weights: seq<real>) returns (r: real)
    requires |dists| <= |weights|
    ensures r == WeightedSum(dists, weights)
  {
    r := 0.0;
    var i := 0;
    while i < |dists|
      invariant 0 <= i <= |dists| && r == WeightedSum(dists[..i], weights)
    {
      assert dists[..i + 1][..i] == dists[..i];
      r := r + dists[i] * weights[i];
      i := i + 1;
    }
    assert dists[..i] == dists;
  }

  function Dists(n: nat, dist: (nat, nat) -> real, v: nat): (r: seq<real>)
    ensures |r| == n
  {
    seq(n, j requires 0 <= j < n => dist(j, v))
  }

  /** The score of an id over n indices. */
  function ScoreOf(n: nat, dist: (nat, nat) -> real, rank: Rank, v: nat): real
    requires rank.Weighted? ==> n <= |rank.weights|
  {
    match rank
    case Weighted(weights) => WeightedSum(Dists(n, dist, v), weights)
    case Custom(f) => f(Dists(n, dist, v))
  }

  function Scores(n: nat, dist: (nat, nat) -> real, rank: Rank): nat -> real
    requires rank.Weighted? ==> n <= |rank.weights|
  {
    (v: nat) => ScoreOf(n, dist, rank, v)
  }

  /** best are min(k, |all|) of the ids in all, none with a larger score than an id left out. */
  ghost predicate KBest(best: set<nat>, all: set<nat>, k: nat, score: nat -> real) {
    && best <= all
    && |best| == (if |all| < k then |all| else k)
    && forall x, y | x in best && y in all && y !in best :: score(x) <= score(y)
  }

  ghost predicate IsTop(v: nat, ids: set<nat>, score: nat -> real) {
    v in ids && forall x | x in ids :: score(x) <= score(v)
  }

  lemma {:induction false} TopExists(ids: set<nat>, score: nat -> real)
    requires ids != {}
    ensures exists v :: IsTop(v, ids, score)
    decreases |ids|
  {
    var v :| v in ids;
    var rest := ids - {v};
    if rest == {} {
      assert ids == {v};
      assert IsTop(v, ids, score);
    } else {
      TopExists(rest, score);
      var w :| IsTop(w, rest, score);
      assert IsTop(if score(v) >= score(w) then v else w, ids, score);
    }
  }

  /** Ids in ascending order of score, each once. */
  ghost predicate Ascending(s: seq<nat>, score: nat -> real) {
    forall i, j | 0 <= i < j < |s| :: score(s[i]) <= score(s[j]) && s[i] != s[j]
  }

  ghost function SetOf(s: seq<nat>): set<nat> {
    set v | v in s
  }

  /** answer lists the k best of the seen ids, smallest score first. */
  ghost predicate IsAnswer(answer: seq<nat>, seen: set<nat>, k: nat, score: nat -> real) {
    Ascending(answer, score) && KBest(SetOf(answer), seen, k, score)
  }

  lemma {:induction false} AnswerSize(answer: seq<nat>, seen: set<nat>, k: nat, score: nat -> real)
    requires IsAnswer(answer, seen, k, score)
    ensures |answer| == if |seen| < k then |seen| else k
  {
    DistinctSize(answer);
  }

  lemma {:induction false} BestAmong(pq: set<nat>, seen: set<nat>, k: nat, score: nat -> real)
    requires KBest(pq, seen, k, score)
    ensures pq <= seen && |pq| <= k
  {
  }

  /** A queue that is full of ids no worse than v may drop v. */
  lemma {:induction false} DropKeeps(pq: set<nat>, seen: set<nat>, k: nat, score: nat -> real, v: nat, top: nat)
    requires KBest(pq, seen, k, score) && v !in seen && |pq| == k && IsTop(top, pq, score) && score(top) <= score(v)
    ensures KBest(pq, seen + {v}, k, score)
  {
    SubsetSize(pq, seen);
  }

  lemma {:induction false} PushKeeps(pq: set<nat>, seen: set<nat>, k: nat, score: nat -> real, v: nat)
    requires KBest(pq, seen, k, score) && v !in seen && |pq| < k
    ensures KBest(pq + {v}, seen + {v}, k, score)
  {
    WholeIfShort(pq, seen);
  }

  lemma {:induction false} WholeIfShort(a: set<nat>, b: set<nat>)
    requires a <= b && |a| == |b|
    ensures a == b
  {
    if x :| x in b && x !in a {
      SubsetSize(a, b - {x});
    }
  }

  lemma {:induction false} ReplaceKeeps(pq: set<nat>, seen: set<nat>, k: nat, score: nat -> real, v: nat, top: nat)
    requires k > 0 && KBest(pq, seen, k, score) && v !in seen && |pq| == k && IsTop(top, pq, score) && score(top) > score(v)
    ensures KBest(pq - {top} + {v}, seen + {v}, k, score)
  {
    SubsetSize(pq, seen);
  }

  /** What has been taken from the iterators has been seen, and nothing else. */
  ghost predicate Consumed(iters: seq<seq<nat>>, pos: seq<nat>, seen: set<nat>) {
    && |pos| == |iters|
    && (forall i | 0 <= i < |pos| :: pos[i] <= |iters[i]|)
    && (forall i | 0 <= i < |pos| :: Among(iters[i], pos[i], seen))
    && (forall v | v in seen :: Offered(iters, v))
  }

  ghost predicate Among(ids: seq<nat>, n: nat, seen: set<nat>) {
    n <= |ids| && forall p | 0 <= p < n :: ids[p] in seen
  }

  ghost predicate Offered(iters: seq<seq<nat>>, v: nat) {
    exists i | 0 <= i < |iters| :: v in iters[i]
  }

  lemma {:induction false} ConsumeOne(iters: seq<seq<nat>>, pos: seq<nat>, seen: set<nat>, i: nat)
    requires Consumed(iters, pos, seen) && i < |iters| && pos[i] < |iters[i]|
    ensures Consumed(iters, pos[i := pos[i] + 1], seen + {iters[i][pos[i]]})
  {
    var v := iters[i][pos[i]];
    assert Offered(iters, v) by {
      assert v in iters[i];
    }
    forall c | 0 <= c < |iters| ensures Among(iters[c], pos[i := pos[i] + 1][c], seen + {v}) {
      assert Among(iters[c], pos[c], seen);
    }
  }

  /** Moving a largest id of the queue to the front of the stack. */
  ghost predicate Draining(best: set<nat>, pq: set<nat>, stack: seq<nat>, score: nat -> real) {
    && best == pq + SetOf(stack) && Ascending(stack, score)
    && forall x, y | x in pq && y in stack :: score(x) <= score(y) && x != y
  }

  lemma {:induction false} DrainOne(best: set<nat>, pq: set<nat>, stack: seq<nat>, score: nat -> real, top: nat)
    requires Draining(best, pq, stack, score) && IsTop(top, pq, score)
    ensures Draining(best, pq - {top}, [top] + stack, score)
  {
    var s := [top] + stack;
    assert SetOf(s) == SetOf(stack) + {top};
    forall i, j | 0 <= i < j < |s| ensures score(s[i]) <= score(s[j]) && s[i] != s[j] {
      assert s[j] == stack[j - 1];
    }
  }

  class Scan {
    const iters: seq<seq<nat>>            // the ids each index iterator will give
    const dist: (nat, nat) -> real        // distance of an id in an index
    const rank: Rank
    const k: nat
    const useTimer: bool
    const dropLimit: nat                  // termCondVal, without the timer
    const seenLimit: int                  // searchLimit; a negative one never stops the scan

    var ticks: nat                        // rounds until the time is up, with the timer
    var pos: seq<nat>                     // ids taken from each iterator
    var pq: set<nat>
    var seen: set<nat>
    var stack: seq<nat>                   // outputStk, its top first
    var drops: nat
    var terminate: bool
    ghost var over: bool                  // the queue has been emptied onto the stack:
    ghost var answer: seq<nat>            //   all that the calls give, first to last

    constructor (iters: seq<seq<nat>>, dist: (nat, nat) -> real, rank: Rank, k: nat, useTimer: bool, dropLimit: nat,
                 seenLimit: int, ticks: nat)
      requires k >= 1 && |iters| >= 1 && (rank.Weighted? ==> |rank.weights| >= |iters|)
      ensures Valid() && !terminate && !over && seen == {}
      ensures this.iters == iters && this.dist == dist && this.rank == rank && this.k == k
      ensures this.useTimer == useTimer && this.dropLimit == dropLimit && this.seenLimit == seenLimit
    {
      this.iters, this.dist, this.rank, this.k, this.useTimer := iters, dist, rank, k, useTimer;
      this.dropLimit, this.seenLimit, this.ticks := dropLimit, seenLimit, ticks;
      pos := seq(|iters|, _ => 0);
      pq, seen, stack, drops, terminate, over, answer := {}, {}, [], 0, false, false, [];
    }

    ghost predicate Config() {
      k >= 1 && |iters| >= 1 && (rank.Weighted? ==> |rank.weights| >= |iters|)
    }

    function S(): nat -> real
      requires Config()
    {
      Scores(|iters|, dist, rank)
    }

    /** Why the scan stopped, when there is no timer. */
    ghost predicate Reason()
      reads this
    {
      || useTimer
      || (exists i | 0 <= i < |iters| :: i < |pos| && pos[i] == |iters[i]|)
      || drops >= dropLimit
      || 0 <= seenLimit <= |seen|
    }

    ghost predicate Valid()
      reads this
    {
      && Config() && Consumed(iters, pos, seen) && (terminate ==> Reason())
      && (!over ==> stack == [] && answer == [] && KBest(pq, seen, k, S()))
      && (over ==> && terminate && pq == {} && IsAnswer(answer, seen, k, S())
                   && |stack| <= |answer| && stack == answer[|answer| - |stack|..])
    }

    /** The distances of an id found by index i: its own from the iterator, the others looked up. */
    method ComputeScore(i: nat, v: nat, found: real) returns (score: real)
      requires Config() && i < |iters| && found == dist(i, v)
      ensures score == S()(v)
    {
      var dists := seq(|iters|, _ => 0.0)[i := found];
      var j := 0;
      while j < |iters|
        invariant 0 <= j <= |iters| && |dists| == |iters| && dists[i] == found
        invariant forall c | 0 <= c < j :: dists[c] == dist(c, v)
      {
        if i != j {
          dists := dists[j := dist(j, v)];
        }
        j := j + 1;
      }
      assert dists == Dists(|iters|, dist, v);
      match rank {
        case Weighted(weights) => score := WeightedRank(dists, weights);
        case Custom(f) => score := f(dists);
      }
    }

    method Top() returns (top: nat)
      requires Config() && pq != {}
      ensures IsTop(top, pq, S())
    {
      TopExists(pq, S());
      top :| top in pq && forall x | x in pq :: S()(x) <= S()(top);
    }

    /** Put an id not seen before into the queue, or drop it. */
    method Offer(v: nat, score: real)
      requires Config() && KBest(pq, seen, k, S()) && v !in seen && score == S()(v)
      modifies this`pq, this`seen, this`drops
      ensures KBest(pq, seen, k, S()) && seen == old(seen) + {v}
      ensures drops == if pq == old(pq) then old(drops) + 1 else 0
    {
      hide KBest;
      BestAmong(pq, seen, k, S());
      if |pq| == k {
        var top := Top();
        if S()(top) <= score {
          DropKeeps(pq, seen, k, S(), v, top);
          drops := drops + 1;
        } else {
          ReplaceKeeps(pq, seen, k, S(), v, top);
          drops := 0;
          pq := pq - {top} + {v};
        }
      } else {
        PushKeeps(pq, seen, k, S(), v);
        drops := 0;
        pq := pq + {v};
      }
      seen := seen + {v};
    }

    /** An id found by index i counts once. */
    method Visit(i: nat, v: nat)
      requires Config() && KBest(pq, seen, k, S()) && i < |iters|
      modifies this`pq, this`seen, this`drops
      ensures KBest(pq, seen, k, S()) && seen == old(seen) + {v}
    {
      if v !in seen {
        var score := ComputeScore(i, v, dist(i, v));
        Offer(v, score);
      }
    }

    /** Take one id from index i; false when it has no more. */
    method Probe(i: nat) returns (more: bool)
      requires Valid() && !over && !terminate && i < |iters|
      modifies this`pos, this`pq, this`seen, this`drops
      ensures Valid() && more == (old(pos[i]) < |iters[i]|)
      ensures more ==> pos == old(pos)[i := old(pos[i]) + 1]
      ensures !more ==> pos == old(pos)
    {
      if pos[i] == |iters[i]| {
        return false;
      }
      ConsumeOne(iters, pos, seen, i);
      Visit(i, iters[i][pos[i]]);
      pos := pos[i := pos[i] + 1];
      more := true;
    }

    /** One pass over the indices; it ends early at an index that has no more. */
    method Round()
      requires Valid() && !over && !terminate
      modifies this`pos, this`pq, this`seen, this`drops, this`terminate
      ensures Valid()
      ensures |pos| == |old(pos)| && forall i | 0 <= i < |pos| :: old(pos)[i] <= pos[i]
      ensures terminate ==> exists i | 0 <= i < |iters| :: i < |pos| && pos[i] == |iters[i]|
      ensures !terminate ==> forall i | 0 <= i < |pos| :: pos[i] == old(pos)[i] + 1
    {
      var i := 0;
      while i < |iters|
        invariant 0 <= i <= |iters| && Valid() && !over && !terminate
        invariant |pos| == |old(pos)| && (forall c | 0 <= c < |pos| :: old(pos)[c] <= pos[c])
        invariant forall c | 0 <= c < |pos| :: pos[c] == if c < i then old(pos)[c] + 1 else old(pos)[c]
      {
        var more := Probe(i);
        if !more {
          terminate := true;
          return;
        }
        i := i + 1;
      }
    }

    /** The stop tests after a round. With the timer they overrule an index that has no more. */
    method CheckStop()
      requires Valid() && !over
      modifies this`terminate, this`ticks
      ensures Valid()
      ensures ticks <= old(ticks)
      ensures useTimer ==> (terminate <==> old(ticks) == 0) && (!terminate ==> ticks == old(ticks) - 1)
      ensures !useTimer ==> ticks == old(ticks)
      ensures !useTimer ==> (terminate <==> old(terminate) || drops >= dropLimit || 0 <= seenLimit <= |seen|)
    {
      if useTimer {
        terminate := ticks == 0;
        if ticks > 0 {
          ticks := ticks - 1;
        }
      } else if drops >= dropLimit {
        terminate := true;
      } else if 0 <= seenLimit <= |seen| {
        terminate := true;
      }
    }

    /** Rounds until a stop test says so: it always does, because the iterators are finite or the time runs out. */
    method ScanAll()
      requires Valid()
      modifies this`pos, this`pq, this`seen, this`drops, this`terminate, this`ticks
      ensures Valid() && terminate
      ensures old(over) ==> seen == old(seen)
    {
      while !terminate
        invariant Valid()
        invariant over ==> seen == old(seen)
        decreases if useTimer then ticks + 1 else |iters[0]| - pos[0] + 1, !terminate
      {
        Round();
        CheckStop();
      }
    }

    /** Empty the queue onto the stack, largest score first. */
    method Drain()
      requires Valid() && terminate
      modifies this`pq, this`stack, this`over, this`answer
      ensures Valid() && over
      ensures if old(over) then stack == old(stack) && answer == old(answer) else stack == answer
    {
      if |pq| > 0 {
        EmptyQueue();
      }
      if !over {
        over, answer := true, stack;
      }
    }

    method EmptyQueue()
      requires Config() && stack == []
      modifies this`pq, this`stack
      ensures pq == {} && Ascending(stack, S()) && SetOf(stack) == old(pq)
    {
      ghost var best := pq;
      assert pq + SetOf([]) == pq;
      while pq != {}
        invariant Draining(best, pq, stack, S())
        decreases |pq|
      {
        PushTop(best);
      }
      assert {} + SetOf(stack) == SetOf(stack);
    }

    method PushTop(ghost best: set<nat>)
      requires Config() && pq != {} && Draining(best, pq, stack, S())
      modifies this`pq, this`stack
      ensures Draining(best, pq, stack, S()) && |pq| < |old(pq)|
    {
      var top := Top();
      DrainOne(best, pq, stack, S(), top);
      stack := [top] + stack;
      pq := pq - {top};
    }

    /** `Next`: the first call scans; the calls together give the k best of the seen ids, smallest score first, each
        once, and then nothing. */
    method Next() returns (ok: bool, v: nat, score: real)
      requires Valid()
      modifies this
      ensures Valid() && over
      ensures old(over) ==> answer == old(answer) && seen == old(seen)
      ensures ok <==> (if old(over) then old(stack) != [] else answer != [])
      ensures old(over) && ok ==> [v] + stack == old(stack)
      ensures !old(over) && ok ==> [v] + stack == answer
      ensures !ok ==> stack == []
      ensures ok ==> score == S()(v)
    {
      hide Valid;
      ScanAll();
      Drain();
      ok, v, score := PopOutput();
    }

    method PopOutput() returns (ok: bool, v: nat, score: real)
      requires Valid() && over
      modifies this`stack
      ensures Valid() && (ok <==> old(stack) != [])
      ensures ok ==> [v] + stack == old(stack) && score == S()(v)
      ensures !ok ==> stack == []
    {
      if |stack| == 0 {
        return false, 0, 0.0;
      }
      ok, v := true, stack[0];
      score := S()(v);
      stack := stack[1..];
    }

    /** Calling `Next` until it gives nothing. */
    method TakeAll() returns (out: seq<nat>)
      requires Valid() && !over
      modifies this
      ensures Valid() && over && terminate && Reason()
      ensures out == answer && IsAnswer(out, seen, k, S())
      ensures |out| == if |seen| < k then |seen| else k
    {
      hide Valid, Reason, IsAnswer;
      var ok, v, score := Next();
      out := [];
      assert !ok ==> answer == [];
      assert ok ==> out + [v] == [v];
      while ok
        invariant Valid() && over && (ok ==> out + [v] + stack == answer) && (!ok ==> out == answer)
        decreases |stack|, ok
      {
        out := out + [v];
        assert out + stack == answer;
        ghost var rest := stack;
        ok, v, score := Next();
        assert ok ==> out + [v] + stack == out + rest;
      }
      Finished();
      AnswerSize(answer, seen, k, S());
    }

    lemma {:induction false} Finished()
      requires Valid() && over
      ensures Config() && terminate && Reason() && IsAnswer(answer, seen, k, S())
    {
    }

    /** If an index that covers all ids has no more, the answer is the exact global one. */
    lemma {:induction false} GlobalTopK(i: nat, all: set<nat>)
      requires Valid() && over && i < |iters| && pos[i] == |iters[i]|
      requires SetOf(iters[i]) == all && forall c | 0 <= c < |iters| :: SetOf(iters[c]) <= all
      ensures IsAnswer(answer, all, k, S())
    {
      assert Among(iters[i], pos[i], seen);
      forall v | v in seen ensures v in all {
        assert Offered(iters, v);
        var c :| 0 <= c < |iters| && v in iters[c];
        assert v in SetOf(iters[c]);
      }
      assert seen == all;
    }
  }
}
