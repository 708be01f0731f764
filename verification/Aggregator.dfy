/** One search request of the aggregator: callbacks registered for n servers, finished by responses, timers and
    failed sends, counting down to the aggregation. The atomic steps of all threads, in any order. */
module Aggregator {
  import opened Arith

  /** How far one way of finishing a server's callback has come: not registered; registered and open; ruled out; the
      callback called; its result slot written; the finish counted. */
  datatype Phase = Pending | Open | Closed | Called | Written | Counted

  /** A callback is finished by whoever takes it out of the resource manager (a response or the timer), and, without
      taking it out, by a failed send. */
  datatype Way = Taken | Failed

  datatype State = State(
    registered: nat,
    taken: seq<Phase>,
    failed: seq<Phase>,
    slots: seq<bool>,               // which result slots hold a result
    unfinished: nat,                // m_unfinishedCount
    finished: nat,                  // history: finishes counted,
    aggregations: seq<seq<bool>>)   //   the slots at each aggregation

  datatype Event =
    | Register
    | Sent(i: nat)
    | SendFailed(i: nat)
    | TakeOut(i: nat)
    | Write(w: Way, i: nat)
    | Count(w: Way, i: nat)

  function Start(n: nat): State {
    State(0, seq(n, _ => Pending), seq(n, _ => Pending), seq(n, _ => false), n % WRAP, 0, [])
  }

  function At(s: State, w: Way): seq<Phase> {
    if w.Taken? then s.taken else s.failed
  }

  function To(s: State, w: Way, i: nat, p: Phase): State
    requires i < |s.taken| == |s.failed|
  {
    if w.Taken? then s.(taken := s.taken[i := p]) else s.(failed := s.failed[i := p])
  }

  predicate Sized(s: State) {
    |s.taken| == |s.failed| == |s.slots| && s.registered <= |s.taken|
  }

  predicate Enabled(s: State, e: Event)
    requires Sized(s)
  {
    match e
    case Register => s.registered < |s.taken|
    case Sent(i) => i < |s.taken| && s.failed[i].Open?
    case SendFailed(i) => i < |s.taken| && s.failed[i].Open?
    case TakeOut(i) => i < |s.taken| && s.taken[i].Open?
    case Write(w, i) => i < |s.taken| && At(s, w)[i].Called?
    case Count(w, i) => i < |s.taken| && At(s, w)[i].Written?
  }

  /** Subtracting one from an unsigned 32-bit integer. */
  function Less(u: nat): nat {
    if u == 0 then WRAP - 1 else u - 1
  }

  /** `IsCompletedAfterFinsh(1)` and the aggregation it may lead to. */
  function CountDown(s: State): State {
    s.(unfinished := Less(s.unfinished), finished := s.finished + 1,
       aggregations := if s.unfinished <= 1 then s.aggregations + [s.slots] else s.aggregations)
  }

  function Apply(s: State, e: Event): (t: State)
    requires Sized(s) && Enabled(s, e)
    ensures Sized(t) && |t.taken| == |s.taken|
  {
    match e
    case Register =>
      var i := s.registered;
      s.(registered := i + 1, taken := s.taken[i := Open], failed := s.failed[i := Open])
    case Sent(i) => To(s, Failed, i, Closed)
    case SendFailed(i) => To(s, Failed, i, Called)
    case TakeOut(i) => To(s, Taken, i, Called)
    case Write(w, i) => To(s, w, i, Written).(slots := s.slots[i := true])
    case Count(w, i) => CountDown(To(s, w, i, Counted))
  }

  predicate IsRun(s: State, events: seq<Event>)
    requires Sized(s)
    decreases |events|
  {
    events == [] || (Enabled(s, events[0]) && IsRun(Apply(s, events[0]), events[1..]))
  }

  function After(s: State, events: seq<Event>): (t: State)
    requires Sized(s) && IsRun(s, events)
    ensures Sized(t) && |t.taken| == |s.taken|
    decreases |events|
  {
    if events == [] then s else After(Apply(s, events[0]), events[1..])
  }

  /** A run after a run is a run. */
  lemma {:induction false} RunsJoin(s: State, a: seq<Event>, b: seq<Event>)
    requires Sized(s) && IsRun(s, a) && IsRun(After(s, a), b)
    ensures IsRun(s, a + b) && After(s, a + b) == After(After(s, a), b)
    decreases |a|
  {
    if a == [] {
      assert a + b == b;
    } else {
      assert (a + b)[0] == a[0] && (a + b)[1..] == a[1..] + b;
      RunsJoin(Apply(s, a[0]), a[1..], b);
    }
  }

  predicate NoFailure(events: seq<Event>) {
    forall k | 0 <= k < |events| :: !events[k].SendFailed?
  }

  function CountedIn(ps: seq<Phase>): nat {
    if ps == [] then 0 else CountedIn(ps[..|ps| - 1]) + if ps[|ps| - 1].Counted? then 1 else 0
  }

  lemma {:induction false} CountedBound(ps: seq<Phase>)
    ensures CountedIn(ps) <= |ps|
    ensures CountedIn(ps) == |ps| <==> forall i | 0 <= i < |ps| :: ps[i].Counted?
    ensures CountedIn(ps) == 0 <==> forall i | 0 <= i < |ps| :: !ps[i].Counted?
  {
    if ps != [] {
      CountedBound(ps[..|ps| - 1]);
    }
  }

  lemma {:induction false} CountedSet(ps: seq<Phase>, i: nat, p: Phase)
    requires i < |ps|
    ensures CountedIn(ps[i := p]) == CountedIn(ps) - (if ps[i].Counted? then 1 else 0) + if p.Counted? then 1 else 0
  {
    var k := |ps| - 1;
    if i < k {
      CountedSet(ps[..k], i, p);
      assert ps[i := p][..k] == ps[..k][i := p];
    } else {
      assert ps[i := p][..k] == ps[..k];
    }
  }

  /** Times the countdown from n reads 1 or 0 in its first m counts. */
  function Aggregations(n: nat, m: nat): nat {
    if m < n then 0 else if m == n then 1 else 2
  }

  /** What a countdown from n reads after m counts. */
  function Countdown(n: nat, m: nat): int {
    if m <= n then n - m else WRAP + n - m
  }

  /** The counter tells how many finishes were counted, and with it how many aggregations there were. */
  ghost predicate CounterOk(s: State) {
    && s.finished == CountedIn(s.taken) + CountedIn(s.failed)
    && s.unfinished == Countdown(|s.taken|, s.finished)
    && |s.aggregations| == Aggregations(|s.taken|, s.finished)
  }

  /** A written or counted callback has filled its slot; servers not registered have done nothing. */
  ghost predicate SlotsOk(s: State)
    requires Sized(s)
  {
    && (forall i | 0 <= i < |s.taken| :: s.taken[i].Written? || s.taken[i].Counted? ==> s.slots[i])
    && (forall i | 0 <= i < |s.taken| :: s.registered <= i ==> s.taken[i].Pending? && s.failed[i].Pending?)
  }

  ghost predicate Inv(s: State) {
    Sized(s) && 1 <= |s.taken| < WRAP && CounterOk(s) && SlotsOk(s)
  }

  lemma {:induction false} CounterKept(s: State, e: Event)
    requires Inv(s) && Enabled(s, e)
    ensures CounterOk(Apply(s, e))
  {
    match e
    case Register =>
      CountedSet(s.taken, s.registered, Open);
      CountedSet(s.failed, s.registered, Open);
    case Sent(i) => CountedSet(s.failed, i, Closed);
    case SendFailed(i) => CountedSet(s.failed, i, Called);
    case TakeOut(i) => CountedSet(s.taken, i, Called);
    case Write(w, i) => CountedSet(At(s, w), i, Written);
    case Count(w, i) => CountKept(s, w, i);
  }

  lemma {:induction false} CountKept(s: State, w: Way, i: nat)
    requires Inv(s) && Enabled(s, Count(w, i))
    ensures CounterOk(Apply(s, Count(w, i)))
  {
    hide CountedIn;
    OneMore(s, w, i);
    OneCount(|s.taken|, s.finished, s.unfinished);
  }

  lemma {:induction false} OneMore(s: State, w: Way, i: nat)
    requires Sized(s) && Enabled(s, Count(w, i)) && s.finished == CountedIn(s.taken) + CountedIn(s.failed)
    ensures var t := To(s, w, i, Counted); CountedIn(t.taken) + CountedIn(t.failed) == s.finished + 1 <= 2 * |s.taken|
  {
    hide CountedIn;
    CountedSet(At(s, w), i, Counted);
    CountedBound(To(s, w, i, Counted).taken);
    CountedBound(To(s, w, i, Counted).failed);
  }

  /** The countdown reads 1 or 0 at the n-th and the next count, and not again within 2n counts. */
  lemma {:induction false} OneCount(n: nat, m: nat, u: nat)
    requires 1 <= n < WRAP && m < 2 * n && u == Countdown(n, m)
    ensures Less(u) == Countdown(n, m + 1)
    ensures Aggregations(n, m + 1) == Aggregations(n, m) + if u <= 1 then 1 else 0
  {
  }

  lemma {:induction false} StepKeeps(s: State, e: Event)
    requires Inv(s) && Enabled(s, e)
    ensures Inv(Apply(s, e))
  {
    CounterKept(s, e);
  }

  lemma {:induction false} RunKeeps(s: State, events: seq<Event>)
    requires Inv(s) && IsRun(s, events)
    ensures Inv(After(s, events))
    decreases |events|
  {
    if events != [] {
      StepKeeps(s, events[0]);
      RunKeeps(Apply(s, events[0]), events[1..]);
    }
  }

  lemma {:induction false} StartOk(n: nat)
    requires 1 <= n < WRAP
    ensures Inv(Start(n))
  {
    CountedBound(Start(n).taken);
    CountedBound(Start(n).failed);
  }

  /** In every interleaving, send failures included: no aggregation before the n-th finish, one at the n-th, a
      second one at the next, and never a third. */
  lemma {:induction false} AggregationCount(n: nat, events: seq<Event>)
    requires 1 <= n < WRAP && IsRun(Start(n), events)
    ensures var s := After(Start(n), events);
            |s.aggregations| == Aggregations(n, s.finished) && s.finished == CountedIn(s.taken) + CountedIn(s.failed)
  {
    StartOk(n);
    RunKeeps(Start(n), events);
  }

  /** Without send failures. */
  ghost predicate Clean(s: State) {
    && (forall i | 0 <= i < |s.failed| :: s.failed[i].Pending? || s.failed[i].Open? || s.failed[i].Closed?)
    && (forall k | 0 <= k < |s.aggregations| :: AllFilled(s.aggregations[k]))
  }

  ghost predicate AllFilled(slots: seq<bool>) {
    forall i | 0 <= i < |slots| :: slots[i]
  }

  lemma {:induction false} CleanKept(s: State, e: Event)
    requires Inv(s) && Clean(s) && Enabled(s, e) && !e.SendFailed?
    ensures Clean(Apply(s, e))
  {
    if e.Count? {
      assert e.w.Taken?;
      var t := Apply(s, e);
      CounterKept(s, e);
      CountedBound(t.failed);
      CountedBound(t.taken);
      if |t.aggregations| > |s.aggregations| {
        assert CountedIn(t.taken) == |t.taken|;
        assert AllFilled(s.slots) by {
          forall i | 0 <= i < |s.slots| ensures s.slots[i] {
            assert t.taken[i].Counted?;
            assert s.taken[i].Counted? || s.taken[i].Written?;
          }
        }
      }
    }
  }

  lemma {:induction false} CleanRun(s: State, events: seq<Event>)
    requires Inv(s) && Clean(s) && IsRun(s, events) && NoFailure(events)
    ensures Inv(After(s, events)) && Clean(After(s, events))
    decreases |events|
  {
    if events != [] {
      StepKeeps(s, events[0]);
      CleanKept(s, events[0]);
      CleanRun(Apply(s, events[0]), events[1..]);
    }
  }

  /** With no failed send, in every interleaving: at most one aggregation, only with every slot holding a result,
      and exactly one when all n callbacks have finished. */
  lemma {:induction false} AggregatesOnce(n: nat, events: seq<Event>)
    requires 1 <= n < WRAP && IsRun(Start(n), events) && NoFailure(events)
    ensures var s := After(Start(n), events);
            && |s.aggregations| <= 1
            && (forall k | 0 <= k < |s.aggregations| :: AllFilled(s.aggregations[k]))
            && (|s.aggregations| == 1 <==> forall i | 0 <= i < n :: s.taken[i].Counted?)
  {
    StartOk(n);
    CleanRun(Start(n), events);
    var s := After(Start(n), events);
    CountedBound(s.taken);
    CountedBound(s.failed);
  }

  /** Nothing is left to happen. */
  ghost predicate Complete(s: State) {
    && (forall i | 0 <= i < |s.taken| :: s.taken[i].Counted?)
    && (forall i | 0 <= i < |s.failed| :: s.failed[i].Counted? || s.failed[i].Closed?)
  }

  /** Once nothing is left to happen there was exactly one aggregation if no send failed, else exactly two: a failed
      send finishes its slot and leaves the callback in the manager, to be finished again. */
  lemma {:induction false} OnceIffNoFailure(n: nat, events: seq<Event>)
    requires 1 <= n < WRAP && IsRun(Start(n), events) && Complete(After(Start(n), events))
    ensures var s := After(Start(n), events);
            |s.aggregations| == if forall i | 0 <= i < |s.failed| :: !s.failed[i].Counted? then 1 else 2
  {
    StartOk(n);
    RunKeeps(Start(n), events);
    var s := After(Start(n), events);
    CountedBound(s.taken);
    CountedBound(s.failed);
  }

  /** Two servers, one failed send and its timer: aggregation with the other slot empty. */
  lemma {:induction false} EarlyAggregation() returns (events: seq<Event>)
    ensures IsRun(Start(2), events)
    ensures After(Start(2), events).aggregations == [[true, false]]
  {
    hide IsRun, After;
    var s0 := State(0, [Pending, Pending], [Pending, Pending], [false, false], 2, 0, []);
    var s1 := State(1, [Open, Pending], [Open, Pending], [false, false], 2, 0, []);
    var s2 := s1.(failed := [Called, Pending]);
    var s3 := s1.(failed := [Written, Pending], slots := [true, false]);
    var s4 := s3.(failed := [Counted, Pending], unfinished := 1, finished := 1);
    var s5 := s4.(taken := [Called, Pending]);
    var s6 := s4.(taken := [Written, Pending]);
    var s7 := s4.(taken := [Counted, Pending], unfinished := 0, finished := 2, aggregations := [[true, false]]);
    NoEvents(s7);
    events := Before(s6, Count(Taken, 0), s7, []);
    events := Before(s5, Write(Taken, 0), s6, events);
    events := Before(s4, TakeOut(0), s5, events);
    events := Before(s3, Count(Failed, 0), s4, events);
    events := Before(s2, Write(Failed, 0), s3, events);
    events := Before(s1, SendFailed(0), s2, events);
    events := Before(s0, Register, s1, events);
    assert Start(2) == s0;
  }

  lemma {:induction false} NoEvents(s: State)
    requires Sized(s)
    ensures IsRun(s, []) && After(s, []) == s
  {
  }

  lemma {:induction false} Before(s: State, e: Event, t: State, rest: seq<Event>) returns (events: seq<Event>)
    requires Sized(s) && Enabled(s, e) && Apply(s, e) == t && IsRun(t, rest)
    ensures IsRun(s, events) && After(s, events) == After(t, rest)
  {
    events := [e] + rest;
  }

  /** `AggregateResults`: the results of all servers, in server order. */
  method AggregateResults<R>(results: seq<seq<R>>, filled: seq<bool>) returns (all: seq<R>)
    requires |results| == |filled|
    ensures all == Merged(results, filled)
  {
    all := [];
    var i := 0;
    while i < |results|
      invariant 0 <= i <= |results| && all == Merged(results[..i], filled[..i])
    {
      assert results[..i + 1][..i] == results[..i] && filled[..i + 1][..i] == filled[..i];
      if filled[i] {
        all := all + results[i];
      }
      i := i + 1;
    }
    assert results[..i] == results && filled[..i] == filled;
  }

  function Merged<R>(results: seq<seq<R>>, filled: seq<bool>): seq<R>
    requires |results| == |filled|
  {
    if results == [] then []
    else
      var k := |results| - 1;
      Merged(results[..k], filled[..k]) + if filled[k] then results[k] else []
  }

  /** Where the results of server i begin: after all those of the servers before it that are filled. */
  function Offset<R>(results: seq<seq<R>>, filled: seq<bool>, i: nat): nat
    requires |results| == |filled| && i <= |results|
  {
    if i == 0 then 0 else Offset(results, filled, i - 1) + if filled[i - 1] then |results[i - 1]| else 0
  }

  lemma {:induction false} OffsetOfPrefix<R>(results: seq<seq<R>>, filled: seq<bool>, k: nat, i: nat)
    requires |results| == |filled| && i <= k <= |results|
    ensures Offset(results[..k], filled[..k], i) == Offset(results, filled, i)
  {
    if i > 0 {
      OffsetOfPrefix(results, filled, k, i - 1);
    }
  }

  /** The merged list has the results of each filled server once, at its place, and nothing else. */
  lemma {:induction false} MergedExactly<R>(results: seq<seq<R>>, filled: seq<bool>, i: nat, j: nat)
    requires |results| == |filled|
    ensures |Merged(results, filled)| == Offset(results, filled, |results|)
    ensures i < |results| && filled[i] && j < |results[i]| ==>
              Offset(results, filled, i) + j < |Merged(results, filled)| &&
              Merged(results, filled)[Offset(results, filled, i) + j] == results[i][j]
  {
    if results != [] {
      var k := |results| - 1;
      MergedExactly(results[..k], filled[..k], i, j);
      OffsetOfPrefix(results, filled, k, k);
      if i < k {
        OffsetOfPrefix(results, filled, k, i);
      }
    }
  }

  /** The results of a server whose slot is filled come right after those of the servers before it. */
  lemma {:induction false} MergedInOrder<R>(results: seq<seq<R>>, filled: seq<bool>, i: nat)
    requires |results| == |filled| && i < |results|
    ensures Merged(results[..i], filled[..i]) + (if filled[i] then results[i] else []) <= Merged(results, filled)
  {
    var k := |results| - 1;
    if i < k {
      MergedInOrder(results[..k], filled[..k], i);
      assert results[..k][..i] == results[..i] && filled[..k][..i] == filled[..i];
    }
  }
}
