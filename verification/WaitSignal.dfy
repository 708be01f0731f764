/** `WaitSignal`: any number of `Wait` calls and one `FinishOne` call for each unfinished item, as a machine of their
    atomic steps under one mutex. */
module WaitSignal {
  import opened Arith

  /** A `Wait` call: wants the mutex; has it; saw unfinished items; has raised the flag; sleeps; was woken and wants the
      mutex back; is about to leave; has returned. */
  datatype Waiter = Enter | Test | Raise | Sleep | Blocked | Woken | Leave | Returned

  /** A `FinishOne` call: not started; was the last and wants the mutex; has it; saw the flag; has lowered it; is
      about to leave; has returned. */
  datatype Finisher = Ready | Want | Look | Lower | Notify | Exit | Over

  datatype Mutex = Free | ByWaiter(i: nat) | ByFinisher(j: nat)

  datatype Last = Nobody | Last(j: nat)

  datatype State = State(
    unfinished: nat,          // m_unfinished
    waiting: bool,            // m_isWaiting
    mutex: Mutex,
    waiters: seq<Waiter>,
    finishers: seq<Finisher>,
    last: Last)               // history: the call that took the count from 1 to 0

  /** WaitStep(i), FinishStep(j): the next step of that call. Spurious(i): a sleeper wakes by itself. */
  datatype Event = WaitStep(i: nat) | FinishStep(j: nat) | Spurious(i: nat)

  function Start(waiters: nat, n: nat): State {
    State(n, false, Free, seq(waiters, _ => Enter), seq(n, _ => Ready), Nobody)
  }

  predicate Enabled(s: State, e: Event) {
    match e
    case WaitStep(i) =>
      i < |s.waiters| && !s.waiters[i].Blocked? && !s.waiters[i].Returned? &&
      (s.waiters[i].Enter? || s.waiters[i].Woken? ==> s.mutex.Free?)
    case FinishStep(j) =>
      j < |s.finishers| && !s.finishers[j].Over? && (s.finishers[j].Want? ==> s.mutex.Free?)
    case Spurious(i) => i < |s.waiters| && s.waiters[i].Blocked?
  }

  function Move(s: State, i: nat, w: Waiter): State
    requires i < |s.waiters|
  {
    s.(waiters := s.waiters[i := w])
  }

  function StepWaiter(s: State, i: nat): State
    requires Enabled(s, WaitStep(i))
  {
    match s.waiters[i]
    case Enter => Move(s, i, Test).(mutex := ByWaiter(i))
    case Test => Move(s, i, if s.unfinished > 0 then Raise else Leave)
    case Raise => Move(s, i, Sleep).(waiting := true)
    case Sleep => Move(s, i, Blocked).(mutex := Free)
    case Woken => Move(s, i, Leave).(mutex := ByWaiter(i))
    case Leave => Move(s, i, Returned).(mutex := Free)
  }

  function Wake(ws: seq<Waiter>): (r: seq<Waiter>)
    ensures |r| == |ws|
    ensures forall i | 0 <= i < |ws| :: r[i] == if ws[i].Blocked? then Woken else ws[i]
  {
    seq(|ws|, i requires 0 <= i < |ws| => if ws[i].Blocked? then Woken else ws[i])
  }

  function Set(s: State, j: nat, f: Finisher): State
    requires j < |s.finishers|
  {
    s.(finishers := s.finishers[j := f])
  }

  function StepFinisher(s: State, j: nat): State
    requires Enabled(s, FinishStep(j))
  {
    match s.finishers[j]
    case Ready =>
      var s' := Set(s, j, if s.unfinished == 1 then Want else Over);
      s'.(unfinished := if s.unfinished == 0 then WRAP - 1 else s.unfinished - 1,
          last := if s.unfinished == 1 then Last(j) else s.last)
    case Want => Set(s, j, Look).(mutex := ByFinisher(j))
    case Look => Set(s, j, if s.waiting then Lower else Exit)
    case Lower => Set(s, j, Notify).(waiting := false)
    case Notify => Set(s, j, Exit).(waiters := Wake(s.waiters))
    case Exit => Set(s, j, Over).(mutex := Free)
  }

  function Apply(s: State, e: Event): State
    requires Enabled(s, e)
  {
    match e
    case WaitStep(i) => StepWaiter(s, i)
    case FinishStep(j) => StepFinisher(s, j)
    case Spurious(i) => Move(s, i, Woken)
  }

  predicate IsRun(s: State, events: seq<Event>)
    decreases |events|
  {
    events == [] || (Enabled(s, events[0]) && IsRun(Apply(s, events[0]), events[1..]))
  }

  function After(s: State, events: seq<Event>): State
    requires IsRun(s, events)
    decreases |events|
  {
    if events == [] then s else After(Apply(s, events[0]), events[1..])
  }

  function ReadyIn(fs: seq<Finisher>): nat {
    if fs == [] then 0 else ReadyIn(fs[..|fs| - 1]) + if fs[|fs| - 1].Ready? then 1 else 0
  }

  lemma {:induction false} ReadySet(fs: seq<Finisher>, j: nat, f: Finisher)
    requires j < |fs|
    ensures ReadyIn(fs[j := f]) == ReadyIn(fs) - (if fs[j].Ready? then 1 else 0) + if f.Ready? then 1 else 0
  {
    var k := |fs| - 1;
    if j < k {
      ReadySet(fs[..k], j, f);
      assert fs[j := f][..k] == fs[..k][j := f];
    } else {
      assert fs[j := f][..k] == fs[..k];
    }
  }

  lemma {:induction false} ReadyBound(fs: seq<Finisher>)
    ensures ReadyIn(fs) <= |fs|
    ensures ReadyIn(fs) == 0 <==> forall j | 0 <= j < |fs| :: !fs[j].Ready?
    ensures ReadyIn(fs) == |fs| <==> forall j | 0 <= j < |fs| :: fs[j].Ready?
  {
    if fs != [] {
      ReadyBound(fs[..|fs| - 1]);
    }
  }

  predicate WaiterHolds(w: Waiter) {
    w.Test? || w.Raise? || w.Sleep? || w.Leave?
  }

  predicate FinisherHolds(f: Finisher) {
    f.Look? || f.Lower? || f.Notify? || f.Exit?
  }

  /** The last finisher has not looked at the flag yet. */
  predicate LastAhead(s: State) {
    s.last.Last? && s.last.j < |s.finishers| ==> s.finishers[s.last.j].Want?
  }

  /** ... or has seen it, or will see it, raised. */
  predicate WillNotify(s: State) {
    s.last.Last? && s.last.j < |s.finishers| ==>
      var f := s.finishers[s.last.j];
      f.Notify? || (s.waiting && (f.Want? || f.Look? || f.Lower?))
  }

  /** The count is the number of calls not started, and the mutex is held by whoever is inside it. */
  ghost predicate CountOk(s: State) {
    && s.unfinished == ReadyIn(s.finishers) && |s.finishers| < WRAP
    && (s.last.Last? <==> s.unfinished == 0 && |s.finishers| > 0)
    && (s.last.Last? ==> s.last.j < |s.finishers|)
    && (forall j | 0 <= j < |s.finishers| && s.last != Last(j) :: s.finishers[j].Ready? || s.finishers[j].Over?)
    && (s.last.Last? ==> !s.finishers[s.last.j].Ready?)
  }

  ghost predicate MutexOk(s: State) {
    && (forall i | 0 <= i < |s.waiters| :: WaiterHolds(s.waiters[i]) <==> s.mutex == ByWaiter(i))
    && (forall j | 0 <= j < |s.finishers| :: FinisherHolds(s.finishers[j]) <==> s.mutex == ByFinisher(j))
    && (s.mutex.ByWaiter? ==> s.mutex.i < |s.waiters|)
    && (s.mutex.ByFinisher? ==> s.mutex.j < |s.finishers|)
  }

  /** A call that saw unfinished items is ahead of the last finisher, and a sleeper will be notified. */
  ghost predicate SleepersOk(s: State) {
    && (forall i | 0 <= i < |s.waiters| :: s.waiters[i].Raise? || s.waiters[i].Sleep? ==> LastAhead(s) && |s.finishers| > 0)
    && (forall i | 0 <= i < |s.waiters| :: s.waiters[i].Sleep? ==> s.waiting)
    && (forall i | 0 <= i < |s.waiters| :: s.waiters[i].Blocked? ==> |s.finishers| > 0 && WillNotify(s) && (s.last.Nobody? ==> s.waiting))
  }

  ghost predicate Inv(s: State) {
    CountOk(s) && MutexOk(s) && SleepersOk(s)
  }

  lemma {:induction false} WaiterCount(s: State, i: nat)
    requires CountOk(s) && Enabled(s, WaitStep(i))
    ensures CountOk(StepWaiter(s, i))
  {
  }

  lemma {:induction false} WaiterMutex(s: State, i: nat)
    requires MutexOk(s) && Enabled(s, WaitStep(i))
    ensures MutexOk(StepWaiter(s, i))
  {
  }

  lemma {:induction false} WaiterSleepers(s: State, i: nat)
    requires Inv(s) && Enabled(s, WaitStep(i))
    ensures SleepersOk(StepWaiter(s, i))
  {
    match s.waiters[i]
    case Test =>
    case Sleep =>
    case Raise =>
    case _ =>
  }

  lemma {:induction false} FinisherCount(s: State, j: nat)
    requires CountOk(s) && Enabled(s, FinishStep(j))
    ensures CountOk(StepFinisher(s, j))
  {
    hide ReadyIn;
    ReadySet(s.finishers, j, StepFinisher(s, j).finishers[j]);
    ReadyBound(s.finishers);
    ReadyBound(StepFinisher(s, j).finishers);
  }

  lemma {:induction false} FinisherMutex(s: State, j: nat)
    requires CountOk(s) && MutexOk(s) && Enabled(s, FinishStep(j))
    ensures MutexOk(StepFinisher(s, j))
  {
  }

  lemma {:induction false} FinisherSleepers(s: State, j: nat)
    requires Inv(s) && Enabled(s, FinishStep(j))
    ensures SleepersOk(StepFinisher(s, j))
  {
  }

  lemma {:induction false} StepKeeps(s: State, e: Event)
    requires Inv(s) && Enabled(s, e)
    ensures Inv(Apply(s, e))
  {
    match e
    case WaitStep(i) =>
      WaiterCount(s, i);
      WaiterMutex(s, i);
      WaiterSleepers(s, i);
    case FinishStep(j) =>
      FinisherCount(s, j);
      FinisherMutex(s, j);
      FinisherSleepers(s, j);
    case Spurious(i) =>
  }

  lemma {:induction false} RunKeeps(s: State, events: seq<Event>)
    requires Inv(s) && IsRun(s, events)
    ensures Inv(After(s, events))
    decreases |events|
  {
    if events != [] {
      StepKeeps(s, events[0]);
      RunKeeps(Apply(s, events[0]), events[1..]);
    }
  }

  lemma {:induction false} StartOk(waiters: nat, n: nat)
    requires n < WRAP
    ensures Inv(Start(waiters, n))
  {
    ReadyBound(Start(waiters, n).finishers);
  }

  /** No wake-up is lost: in no interleaving, spurious wake-ups or not, are all FinishOne calls over while a Wait call
      sleeps. */
  lemma {:induction false} NoLostWakeUp(waiters: nat, n: nat, events: seq<Event>)
    requires n < WRAP && IsRun(Start(waiters, n), events)
    requires forall j | 0 <= j < |After(Start(waiters, n), events).finishers| :: After(Start(waiters, n), events).finishers[j].Over?
    ensures forall i | 0 <= i < |After(Start(waiters, n), events).waiters| :: !After(Start(waiters, n), events).waiters[i].Blocked?
  {
    StartOk(waiters, n);
    RunKeeps(Start(waiters, n), events);
    AllOver(After(Start(waiters, n), events));
  }

  lemma {:induction false} AllOver(s: State)
    requires Inv(s) && forall j | 0 <= j < |s.finishers| :: s.finishers[j].Over?
    ensures forall i | 0 <= i < |s.waiters| :: !s.waiters[i].Blocked?
  {
    ReadyBound(s.finishers);
  }

  /** No interleaving gets stuck: where no call can take a step, all calls have returned. */
  lemma {:induction false} NoDeadlock(waiters: nat, n: nat, events: seq<Event>)
    requires n < WRAP && IsRun(Start(waiters, n), events)
    requires forall i: nat :: !Enabled(After(Start(waiters, n), events), WaitStep(i))
    requires forall j: nat :: !Enabled(After(Start(waiters, n), events), FinishStep(j))
    ensures forall i | 0 <= i < |After(Start(waiters, n), events).waiters| :: After(Start(waiters, n), events).waiters[i].Returned?
    ensures forall j | 0 <= j < |After(Start(waiters, n), events).finishers| :: After(Start(waiters, n), events).finishers[j].Over?
  {
    StartOk(waiters, n);
    RunKeeps(Start(waiters, n), events);
    StuckIsDone(After(Start(waiters, n), events));
  }

  lemma {:induction false} HolderMoves(s: State)
    requires MutexOk(s)
    ensures s.mutex.ByWaiter? ==> Enabled(s, WaitStep(s.mutex.i))
    ensures s.mutex.ByFinisher? ==> Enabled(s, FinishStep(s.mutex.j))
  {
  }

  lemma {:induction false} StuckIsDone(s: State)
    requires Inv(s)
    requires forall i: nat :: !Enabled(s, WaitStep(i))
    requires forall j: nat :: !Enabled(s, FinishStep(j))
    ensures forall i | 0 <= i < |s.waiters| :: s.waiters[i].Returned?
    ensures forall j | 0 <= j < |s.finishers| :: s.finishers[j].Over?
  {
    HolderMoves(s);
    assert s.mutex.Free?;
    forall j | 0 <= j < |s.finishers| ensures s.finishers[j].Over? {
      assert !Enabled(s, FinishStep(j));
    }
    AllOver(s);
    forall i | 0 <= i < |s.waiters| ensures s.waiters[i].Returned? {
      assert !Enabled(s, WaitStep(i));
    }
  }

  function WaiterSteps(w: Waiter): nat {
    match w
    case Enter => 7
    case Test => 6
    case Raise => 5
    case Sleep => 4
    case Blocked => 3
    case Woken => 2
    case Leave => 1
    case Returned => 0
  }

  function FinisherSteps(f: Finisher): nat {
    match f
    case Ready => 6
    case Want => 5
    case Look => 4
    case Lower => 3
    case Notify => 2
    case Exit => 1
    case Over => 0
  }

  function WaitersLeft(ws: seq<Waiter>): nat {
    if ws == [] then 0 else WaitersLeft(ws[..|ws| - 1]) + WaiterSteps(ws[|ws| - 1])
  }

  function FinishersLeft(fs: seq<Finisher>): nat {
    if fs == [] then 0 else FinishersLeft(fs[..|fs| - 1]) + FinisherSteps(fs[|fs| - 1])
  }

  lemma {:induction false} WaiterFewer(a: seq<Waiter>, i: nat, w: Waiter)
    requires i < |a| && WaiterSteps(w) < WaiterSteps(a[i])
    ensures WaitersLeft(a[i := w]) < WaitersLeft(a)
  {
    var k := |a| - 1;
    if i < k {
      WaiterFewer(a[..k], i, w);
      assert a[i := w][..k] == a[..k][i := w];
    } else {
      assert a[i := w][..k] == a[..k];
    }
  }

  lemma {:induction false} WakeFewer(a: seq<Waiter>)
    ensures WaitersLeft(Wake(a)) <= WaitersLeft(a)
  {
    if a != [] {
      var k := |a| - 1;
      WakeFewer(a[..k]);
      assert Wake(a)[..k] == Wake(a[..k]);
    }
  }

  lemma {:induction false} FinishersFewer(a: seq<Finisher>, j: nat, f: Finisher)
    requires j < |a| && FinisherSteps(f) < FinisherSteps(a[j])
    ensures FinishersLeft(a[j := f]) < FinishersLeft(a)
  {
    var k := |a| - 1;
    if j < k {
      FinishersFewer(a[..k], j, f);
      assert a[j := f][..k] == a[..k][j := f];
    } else {
      assert a[j := f][..k] == a[..k];
    }
  }

  function StepsLeft(s: State): nat {
    WaitersLeft(s.waiters) + FinishersLeft(s.finishers)
  }

  lemma {:induction false} EveryStepCounts(s: State, e: Event)
    requires Enabled(s, e)
    ensures StepsLeft(Apply(s, e)) < StepsLeft(s)
  {
    hide WaitersLeft, FinishersLeft;
    match e
    case WaitStep(i) => WaiterCounts(s, i);
    case Spurious(i) => WaiterFewer(s.waiters, i, Woken);
    case FinishStep(j) => FinisherCounts(s, j);
  }

  lemma {:induction false} WaiterCounts(s: State, i: nat)
    requires Enabled(s, WaitStep(i))
    ensures StepsLeft(StepWaiter(s, i)) < StepsLeft(s)
  {
    hide WaitersLeft, FinishersLeft;
    WaiterFewer(s.waiters, i, StepWaiter(s, i).waiters[i]);
  }

  lemma {:induction false} FinisherCounts(s: State, j: nat)
    requires Enabled(s, FinishStep(j))
    ensures StepsLeft(StepFinisher(s, j)) < StepsLeft(s)
  {
    hide WaitersLeft, FinishersLeft;
    FinishersFewer(s.finishers, j, StepFinisher(s, j).finishers[j]);
    WakeFewer(s.waiters);
  }

  /** Every run ends: with the previous lemma, every Wait call returns. */
  lemma {:induction false} RunsEnd(s: State, events: seq<Event>)
    requires IsRun(s, events)
    ensures |events| + StepsLeft(After(s, events)) <= StepsLeft(s)
    decreases |events|
  {
    if events != [] {
      EveryStepCounts(s, events[0]);
      RunsEnd(Apply(s, events[0]), events[1..]);
    }
  }

  predicate NoSpurious(events: seq<Event>) {
    forall k | 0 <= k < |events| :: !events[k].Spurious?
  }

  /** A call past its sleep, or past a test that found nothing to wait for, is so because the count is zero. */
  ghost predicate Timely(s: State) {
    forall i | 0 <= i < |s.waiters| :: s.waiters[i].Woken? || s.waiters[i].Leave? || s.waiters[i].Returned? ==> s.unfinished == 0
  }

  lemma {:induction false} TimelyKept(s: State, e: Event)
    requires Inv(s) && Timely(s) && Enabled(s, e) && !e.Spurious?
    ensures Timely(Apply(s, e))
  {
    if e.FinishStep? {
      FinisherTimely(s, e.j);
    } else {
      WaiterTimely(s, e.i);
    }
  }

  lemma {:induction false} WaiterTimely(s: State, i: nat)
    requires Timely(s) && Enabled(s, WaitStep(i))
    ensures Timely(StepWaiter(s, i))
  {
  }

  lemma {:induction false} FinisherTimely(s: State, j: nat)
    requires Inv(s) && Timely(s) && Enabled(s, FinishStep(j))
    ensures Timely(StepFinisher(s, j))
  {
    hide MutexOk, SleepersOk;
    ReadyBound(s.finishers);
  }

  lemma {:induction false} TimelyRun(s: State, events: seq<Event>)
    requires Inv(s) && Timely(s) && IsRun(s, events) && NoSpurious(events)
    ensures Timely(After(s, events))
    decreases |events|
  {
    if events != [] {
      StepKeeps(s, events[0]);
      TimelyKept(s, events[0]);
      TimelyRun(Apply(s, events[0]), events[1..]);
    }
  }

  /** Without spurious wake-ups no Wait call returns before the count is zero. */
  lemma {:induction false} NoEarlyReturn(waiters: nat, n: nat, events: seq<Event>)
    requires n < WRAP && IsRun(Start(waiters, n), events) && NoSpurious(events)
    ensures var s := After(Start(waiters, n), events);
            forall i | 0 <= i < |s.waiters| :: s.waiters[i].Returned? ==> s.unfinished == 0
  {
    StartOk(waiters, n);
    TimelyRun(Start(waiters, n), events);
  }

  /** With one it may: the wait is not in a loop. */
  lemma {:induction false} EarlyReturn() returns (events: seq<Event>)
    ensures IsRun(Start(1, 1), events)
    ensures After(Start(1, 1), events).unfinished == 1 && After(Start(1, 1), events).waiters == [Returned]
  {
    events := WakesAlone();
    var s0 := State(1, false, Free, [Enter], [Ready], Nobody);
    var s1 := s0.(waiters := [Test], mutex := ByWaiter(0));
    var s2 := s1.(waiters := [Raise]);
    var s3 := s2.(waiters := [Sleep], waiting := true);
    events := Before(s3, WaitStep(0), State(1, true, Free, [Blocked], [Ready], Nobody), events);
    events := Before(s2, WaitStep(0), s3, events);
    events := Before(s1, WaitStep(0), s2, events);
    events := Before(s0, WaitStep(0), s1, events);
    assert Start(1, 1) == s0;
  }

  lemma {:induction false} WakesAlone() returns (events: seq<Event>)
    ensures var s := State(1, true, Free, [Blocked], [Ready], Nobody);
            IsRun(s, events) && After(s, events) == State(1, true, Free, [Returned], [Ready], Nobody)
  {
    var s4 := State(1, true, Free, [Blocked], [Ready], Nobody);
    var s5 := s4.(waiters := [Woken]);
    var s6 := s5.(waiters := [Leave], mutex := ByWaiter(0));
    var s7 := s6.(waiters := [Returned], mutex := Free);
    events := Before(s6, WaitStep(0), s7, []);
    events := Before(s5, WaitStep(0), s6, events);
    events := Before(s4, Spurious(0), s5, events);
  }

  lemma {:induction false} Before(s: State, e: Event, t: State, rest: seq<Event>) returns (events: seq<Event>)
    requires Enabled(s, e) && Apply(s, e) == t && IsRun(t, rest)
    ensures IsRun(s, events) && After(s, events) == After(t, rest)
  {
    events := [e] + rest;
  }
}
