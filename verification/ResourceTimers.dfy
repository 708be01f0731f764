/** Timers always get through: from every state of the resource manager its own steps alone, without another call, can
    hand out every resource with a timeout. */
module ResourceTimers {
  import opened Arith
  import opened Collections
  import opened ResourceManager

  /** The steps of Adds that have begun and of the timeout checker. */
  predicate Own<R>(e: Event<R>) {
    e.Emplace? || e.Push? || e.CountUp? || e.Look? || e.Pop? || e.CountDown? || e.Release? || e.Fire?
  }

  /** Nothing is under way: no Add, no timer. */
  predicate Quiet<R>(s: State<R>) {
    s.emplacing == map[] && s.pushing == map[] && s.counting == {} && s.checker.Looking? && s.list == [] && s.batch == []
  }

  function Phase<R>(s: State<R>): nat {
    match s.checker
    case Looking => if s.list == [] then 0 else 4
    case Popping => 3
    case Popped => 4
    case Working => if s.list == [] then 2 else 5
  }

  /** The checker looks at the counter with an empty batch. */
  predicate BatchDone<R>(s: State<R>) {
    s.checker.Looking? ==> s.batch == []
  }

  lemma {:induction false} RunBatch<R>(s: State<R>, events: seq<Event<R>>)
    requires BatchDone(s) && IsRun(s, events)
    ensures BatchDone(After(s, events))
    decreases |events|
  {
    hide Apply, Enabled, BatchDone;
    if events != [] {
      StepBatch(s, events[0]);
      RunBatch(Apply(s, events[0]), events[1..]);
    }
  }

  lemma {:induction false} StepBatch<R>(s: State<R>, e: Event<R>)
    requires BatchDone(s) && Enabled(s, e)
    ensures BatchDone(Apply(s, e))
  {
  }

  /** How much is under way. */
  function Left<R>(s: State<R>): nat {
    13 * |s.emplacing| + 12 * |s.pushing| + |s.counting| + 6 * |s.list| + 3 * |s.batch| + Phase(s)
  }

  /** With no push uncounted the checker sees the timers that are in the list. */
  lemma {:induction false} CounterSees<R(!new)>(s: State<R>)
    requires Inv(s) && s.counting == {} && !s.checker.Popped? && s.list != []
    ensures s.counter > 0
  {
    ListIsShort(s);
    assert |s.list| % WRAP == |s.list|;
  }

  lemma {:induction false} ListIsShort<R(!new)>(s: State<R>)
    requires IdsOk(s) && TimersOk(s)
    ensures |s.list| < WRAP
  {
    forall i, j | 0 <= i < j < |s.list| ensures s.list[i] != s.list[j] {
      assert Timers(s)[|s.batch| + i] == s.list[i] && Timers(s)[|s.batch| + j] == s.list[j];
    }
    DistinctSize(s.list);
    forall x | x in s.list ensures x in Ids(s.adds) {
      var k :| 0 <= k < |s.list| && s.list[k] == x;
      assert Timers(s)[|s.batch| + k] == x;
    }
    var listed := set x | x in s.list;
    SubsetSize(listed, Ids(s.adds));
  }

  function Ids(n: nat): (r: set<nat>)
    ensures |r| == n && forall x :: x in r <==> 1 <= x <= n
  {
    if n == 0 then {} else Ids(n - 1) + {n}
  }

  /** Some step of its own is possible, and brings it nearer to quiet. */
  lemma {:induction false} OwnStep<R(!new)>(s: State<R>) returns (e: Event<R>)
    requires Inv(s) && BatchDone(s) && !Quiet(s)
    ensures Own(e) && Enabled(s, e) && Left(Apply(s, e)) < Left(s)
  {
    hide Inv, Left, Apply;
    if t :| t in s.counting {
      e := CountUp(t);
      CountUpNearer(s, t);
    } else if s.checker.Popped? {
      e := CountDown;
      CheckerNearer(s, e);
    } else if s.checker.Popping? {
      e := if s.list == [] then Release else Pop;
      CheckerNearer(s, e);
    } else if t :| t in s.emplacing {
      e := Emplace(t);
      EmplaceNearer(s, t);
    } else if t :| t in s.pushing {
      e := Push(t);
      PushNearer(s, t);
    } else if s.checker.Working? {
      e := Fire;
      FireNearer(s);
    } else {
      NothingWaits(s);
      CounterSees(s);
      e := Look;
      CheckerNearer(s, e);
    }
  }

  lemma {:induction false} CountUpNearer<R>(s: State<R>, t: Thread)
    requires t in s.counting
    ensures Left(Apply(s, CountUp(t))) < Left(s)
  {
    assert |s.counting - {t}| == |s.counting| - 1;
  }

  lemma {:induction false} CheckerNearer<R>(s: State<R>, e: Event<R>)
    requires Enabled(s, e) && (e.Look? || e.Pop? || e.CountDown? || e.Release?)
    requires (e.Look? ==> s.list != []) && (e.Release? ==> s.list == [])
    ensures Left(Apply(s, e)) < Left(s)
  {
  }

  lemma {:induction false} FireNearer<R>(s: State<R>)
    requires s.checker.Working?
    ensures Left(Apply(s, Fire)) < Left(s)
  {
  }

  lemma {:induction false} NothingWaits<R>(s: State<R>)
    requires !Quiet(s) && BatchDone(s) && s.checker.Looking? && (forall t :: t !in s.emplacing) && (forall t :: t !in s.pushing) && (forall t :: t !in s.counting)
    ensures s.counting == {} && s.list != []
  {
    assert s.emplacing == map[] && s.pushing == map[];
  }

  lemma {:induction false} EmplaceNearer<R>(s: State<R>, t: Thread)
    requires t in s.emplacing
    ensures Left(Apply(s, Emplace(t))) < Left(s)
  {
    var n := PutIn(s, t);
    assert |s.emplacing - {t}| == |s.emplacing| - 1;
    assert |n.pushing| <= |s.pushing| + 1;
  }

  lemma {:induction false} PushNearer<R>(s: State<R>, t: Thread)
    requires Enabled(s, Push(t))
    ensures Left(Apply(s, Push(t))) < Left(s)
  {
    assert |s.pushing - {t}| == |s.pushing| - 1;
    assert |s.counting + {t}| <= |s.counting| + 1;
  }

  /** Its own steps lead to quiet. */
  lemma {:induction false} GetsQuiet<R(!new)>(s: State<R>) returns (events: seq<Event<R>>)
    requires Inv(s) && Kept(s) && BatchDone(s) && Few(s)
    ensures IsRun(s, events) && (forall e | e in events :: Own(e))
    ensures var n := After(s, events); Inv(n) && Kept(n) && Quiet(n) && n.adds == s.adds && n.removed == s.removed
    decreases Left(s)
  {
    hide Inv, Kept, Left, Apply, Enabled, Quiet, BatchDone;
    if Quiet(s) {
      events := [];
    } else {
      var e := OwnStep(s);
      OwnSame(s, e);
      StepKeeps(s, e);
      StepConserves(s, e);
      StepBatch(s, e);
      var rest := GetsQuiet(Apply(s, e));
      events := [e] + rest;
      assert events[1..] == rest;
    }
  }

  lemma {:induction false} OwnSame<R>(s: State<R>, e: Event<R>)
    requires Own(e) && Enabled(s, e)
    ensures Apply(s, e).adds == s.adds && Apply(s, e).removed == s.removed
  {
  }

  /** Then no resource with a timeout is left: each was handed out or removed. */
  lemma {:induction false} TimersGetThrough<R(!new)>(events: seq<Event<R>>) returns (more: seq<Event<R>>)
    requires IsRun(Start<R>(), events) && Few(After(Start<R>(), events))
    ensures var s := After(Start<R>(), events);
            && IsRun(s, more) && (forall e | e in more :: Own(e))
            && forall id | id in After(s, more).timed :: id in s.removed || HandedOut(After(s, more), id)
  {
    StartOk<R>();
    StartKept<R>();
    RunConserves(Start<R>(), events);
    RunBatch(Start<R>(), events);
    var s := After(Start<R>(), events);
    more := GetsQuiet(s);
    QuietHandedOut(After(s, more));
  }

  lemma {:induction false} QuietHandedOut<R(!new)>(s: State<R>)
    requires Inv(s) && Kept(s) && Quiet(s)
    ensures forall id | id in s.timed :: id in s.removed || HandedOut(s, id)
  {
    forall id | id in s.timed ensures id in s.removed || HandedOut(s, id) {
      assert Places(s, id) == 1;
      assert !Adding(s, id);
    }
  }
}
