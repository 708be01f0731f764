/** `ResourceManager`: resources kept under ids until someone takes them out or their timer runs off, as a machine
    of the atomic steps of its threads. */
module ResourceManager {
  import opened Arith
  import opened Collections

  const INVALID := 0

  type Thread = nat

  /** An `Add` that has its id and is about to put the resource into the map. */
  datatype Entry<R> = Entry(id: nat, resource: R, timed: bool)

  /** Where the timeout checker is: looking at the counter, holding the list lock between two items, holding it
      with an item popped and not yet counted down, or going through its batch. */
  datatype Checker = Looking | Popping | Popped | Working

  datatype State<R> = State(
    next: nat,                          // m_nextResourceID
    resources: map<nat, R>,             // m_resources
    list: seq<nat>,                     // m_timeoutList, by id
    counter: nat,                       // m_timeoutItemCount
    emplacing: map<Thread, Entry<R>>,   // Adds before the map update
    pushing: map<Thread, nat>,          // Adds before the list update
    counting: set<Thread>,              // Adds before the counter update
    checker: Checker,
    batch: seq<nat>,                    // the checker's timeouted items
    adds: nat,                          // history: ids given out,
    added: map<nat, R>,                 //   what each was added for,
    timed: set<nat>,                    //   those with a nonzero timeout,
    born: set<nat>,                     //   those that have been in the map,
    removed: set<nat>,                  //   those that Remove took out,
    handed: seq<(nat, R)>)              //   what GetAndRemove returned, to callers and to timers

  datatype Event<R> =
    | Fetch(t: Thread, resource: R, timed: bool)
    | Emplace(t: Thread)
    | Push(t: Thread)
    | CountUp(t: Thread)
    | GetAndRemove(id: nat)
    | Remove(id: nat)
    | Look
    | Pop
    | CountDown
    | Release
    | Fire

  function Start<R>(): State<R> {
    State(1, map[], [], 0, map[], map[], {}, Looking, [], 0, map[], {}, {}, {}, [])
  }

  predicate Free<R>(s: State<R>, t: Thread) {
    t !in s.emplacing && t !in s.pushing && t !in s.counting
  }

  predicate Locked<R>(s: State<R>) {
    s.checker.Popping? || s.checker.Popped?
  }

  predicate Enabled<R>(s: State<R>, e: Event<R>) {
    match e
    case Fetch(t, _, _) => Free(s, t)
    case Emplace(t) => t in s.emplacing
    case Push(t) => t in s.pushing && !Locked(s)
    case CountUp(t) => t in s.counting
    case GetAndRemove(_) => true
    case Remove(_) => true
    case Look => s.checker.Looking? && s.counter > 0
    case Pop => s.checker.Popping? && s.list != []
    case CountDown => s.checker.Popped?
    case Release => s.checker.Popping?
    case Fire => s.checker.Working?
  }

  function TakeOut<R>(s: State<R>, id: nat): State<R> {
    if id in s.resources then s.(resources := s.resources - {id}, handed := s.handed + [(id, s.resources[id])]) else s
  }

  function Discard<R>(s: State<R>, id: nat): State<R> {
    if id in s.resources then s.(resources := s.resources - {id}, removed := s.removed + {id}) else s
  }

  /** A fetched id equal to the invalid one is thrown away and the thread fetches again. */
  function Issue<R>(s: State<R>, t: Thread, resource: R, timed: bool): State<R> {
    var id := s.next;
    var s' := s.(next := (s.next + 1) % WRAP);
    if id == INVALID then s'
    else s'.(emplacing := s.emplacing[t := Entry(id, resource, timed)], adds := s.adds + 1,
             added := s.added[id := resource], timed := if timed then s.timed + {id} else s.timed)
  }

  function PutIn<R>(s: State<R>, t: Thread): State<R>
    requires t in s.emplacing
  {
    var e := s.emplacing[t];
    var s' := s.(emplacing := s.emplacing - {t}, born := s.born + {e.id},
                 resources := if e.id in s.resources then s.resources else s.resources[e.id := e.resource]);
    if e.timed then s'.(pushing := s.pushing[t := e.id]) else s'
  }

  function Fired<R>(s: State<R>): State<R>
    requires s.checker.Working?
  {
    if s.batch == [] then s.(checker := Looking)
    else TakeOut(s, s.batch[0]).(batch := s.batch[1..])
  }

  function Apply<R>(s: State<R>, e: Event<R>): State<R>
    requires Enabled(s, e)
  {
    match e
    case Fetch(t, resource, timed) => Issue(s, t, resource, timed)
    case Emplace(t) => PutIn(s, t)
    case Push(t) => s.(pushing := s.pushing - {t}, list := s.list + [s.pushing[t]], counting := s.counting + {t})
    case CountUp(t) => s.(counting := s.counting - {t}, counter := (s.counter + 1) % WRAP)
    case GetAndRemove(id) => TakeOut(s, id)
    case Remove(id) => Discard(s, id)
    case Look => s.(checker := Popping)
    case Pop => s.(batch := s.batch + [s.list[0]], list := s.list[1..], checker := Popped)
    case CountDown => s.(counter := (s.counter - 1) % WRAP, checker := Popping)
    case Release => s.(checker := Working)
    case Fire => Fired(s)
  }

  /** A run: each event enabled where it happens. */
  predicate IsRun<R>(s: State<R>, events: seq<Event<R>>)
    decreases |events|
  {
    events == [] || (Enabled(s, events[0]) && IsRun(Apply(s, events[0]), events[1..]))
  }

  function After<R>(s: State<R>, events: seq<Event<R>>): State<R>
    requires IsRun(s, events)
    decreases |events|
  {
    if events == [] then s else After(Apply(s, events[0]), events[1..])
  }

  /** Timers that have not fired: those popped and those in the list, oldest first. */
  function Timers<R>(s: State<R>): seq<nat> {
    s.batch + s.list
  }

  /** Threads and ids: an id is with one adding thread at most, and before it is in the map nothing else knows it. */
  ghost predicate AddersOk<R>(s: State<R>) {
    EmplacingOk(s) && PushingOk(s)
  }

  ghost predicate EmplacingOk<R>(s: State<R>) {
    && (forall t | t in s.emplacing :: 1 <= s.emplacing[t].id <= s.adds && s.emplacing[t].id !in s.born)
    && (forall t | t in s.emplacing :: s.emplacing[t].timed <==> s.emplacing[t].id in s.timed)
    && (forall t, u | t in s.emplacing && u in s.emplacing && t != u :: s.emplacing[t].id != s.emplacing[u].id)
  }

  ghost predicate PushingOk<R>(s: State<R>) {
    && (forall t | t in s.pushing :: t !in s.emplacing && t !in s.counting && s.pushing[t] in s.born * s.timed)
    && (forall t, u | t in s.pushing && u in s.pushing && t != u :: s.pushing[t] != s.pushing[u])
    && (forall t | t in s.counting :: t !in s.emplacing)
  }

  ghost predicate IdsOk<R>(s: State<R>) {
    && s.next == 1 + s.adds < WRAP
    && (forall id | id in s.timed :: 1 <= id <= s.adds)
    && (forall id | id in s.born :: 1 <= id <= s.adds)
    && (forall id | id in s.added :: 1 <= id <= s.adds)
  }

  /** A live id is in the map with what it was added for; one handed out has left it for good. */
  ghost predicate HandedOk<R(!new)>(s: State<R>) {
    && (forall id | id in s.resources :: id in s.born && id in s.added && s.resources[id] == s.added[id])
    && (forall t | t in s.emplacing :: s.emplacing[t].id in s.added && s.added[s.emplacing[t].id] == s.emplacing[t].resource)
    && (forall k | 0 <= k < |s.handed| ::
          s.handed[k].0 in s.born && s.handed[k].0 !in s.resources && s.handed[k].0 in s.added && s.added[s.handed[k].0] == s.handed[k].1)
    && (forall i, j | 0 <= i < j < |s.handed| :: s.handed[i].0 != s.handed[j].0)
  }

  /** Timers stand for distinct ids, none of which an Add is still to push, and no live timed id lacks one. */
  ghost predicate TimersOk<R>(s: State<R>) {
    && Distinct(Timers(s))
    && (forall k | 0 <= k < |Timers(s)| :: Timers(s)[k] in s.born)
    && (forall t | t in s.pushing :: s.pushing[t] !in Timers(s))
    && (forall id | id in s.resources && id in s.timed :: id in Timers(s) || exists t | t in s.pushing :: s.pushing[t] == id)
  }

  /** Pushes not yet counted up, less the pop not yet counted down. */
  function Uncounted<R>(s: State<R>): int {
    |s.counting| - if s.checker.Popped? then 1 else 0
  }

  ghost predicate CounterOk<R>(s: State<R>) {
    s.counter == (|s.list| - Uncounted(s)) % WRAP
  }

  ghost predicate Inv<R(!new)>(s: State<R>) {
    AddersOk(s) && IdsOk(s) && HandedOk(s) && TimersOk(s) && CounterOk(s)
  }

  /** Fewer than 2^32 - 1 Adds so far. */
  predicate Few<R>(s: State<R>) {
    s.adds < WRAP - 1
  }

  lemma {:induction false} StepKeeps<R(!new)>(s: State<R>, e: Event<R>)
    requires Inv(s) && Enabled(s, e) && Few(Apply(s, e))
    ensures Inv(Apply(s, e))
  {
    match e
    case Fetch(t, resource, timed) => IssueKeeps(s, t, resource, timed);
    case Emplace(t) => PutInKeeps(s, t);
    case Push(t) => PushKeeps(s, t);
    case CountUp(t) => CountUpKeeps(s, t);
    case GetAndRemove(id) => TakeOutKeeps(s, id);
    case Remove(id) => RemoveKeeps(s, id);
    case Pop => PopKeeps(s);
    case Fire => FireKeeps(s);
    case CountDown => CountDownKeeps(s);
    case _ => CheckerKeeps(s, e);
  }

  lemma {:induction false} IssueKeeps<R(!new)>(s: State<R>, t: Thread, resource: R, timed: bool)
    requires Inv(s) && Free(s, t) && Few(Issue(s, t, resource, timed))
    ensures Inv(Issue(s, t, resource, timed))
  {
    hide AddersOk, HandedOk, TimersOk, CounterOk;
    IssueUnborn(s, t, resource, timed);
    IssueAdders(s, t, resource, timed);
    IssueIds(s, t, resource, timed);
    IssueHanded(s, t, resource, timed);
    SameTimers(s, Issue(s, t, resource, timed));
    SameCounter(s, Issue(s, t, resource, timed));
  }

  lemma {:induction false} IssueAdders<R(!new)>(s: State<R>, t: Thread, resource: R, timed: bool)
    requires AddersOk(s) && IdsOk(s) && Free(s, t) && Few(Issue(s, t, resource, timed))
    ensures AddersOk(Issue(s, t, resource, timed))
  {
    IssueEmplacing(s, t, resource, timed);
  }

  lemma {:induction false} IssueEmplacing<R(!new)>(s: State<R>, t: Thread, resource: R, timed: bool)
    requires EmplacingOk(s) && IdsOk(s) && Free(s, t) && Few(Issue(s, t, resource, timed))
    ensures EmplacingOk(Issue(s, t, resource, timed))
  {
  }

  lemma {:induction false} IssueIds<R(!new)>(s: State<R>, t: Thread, resource: R, timed: bool)
    requires IdsOk(s) && Few(Issue(s, t, resource, timed))
    ensures IdsOk(Issue(s, t, resource, timed))
  {
  }

  lemma {:induction false} IssueHanded<R(!new)>(s: State<R>, t: Thread, resource: R, timed: bool)
    requires AddersOk(s) && IdsOk(s) && HandedOk(s)
    ensures HandedOk(Issue(s, t, resource, timed))
  {
  }

  lemma {:induction false} IssueUnborn<R(!new)>(s: State<R>, t: Thread, resource: R, timed: bool)
    requires HandedOk(s) && IdsOk(s)
    ensures var n := Issue(s, t, resource, timed); forall id | id in n.resources && id in n.timed :: id in s.timed
  {
  }

  /** A step that leaves the adding threads and the ids alone. */
  lemma {:induction false} SameAdders<R(!new)>(s: State<R>, n: State<R>)
    requires AddersOk(s) && IdsOk(s) && n.next == s.next && n.adds == s.adds && n.timed == s.timed && n.born == s.born && n.added == s.added
    requires n.emplacing == s.emplacing && n.pushing == s.pushing && n.counting == s.counting
    ensures AddersOk(n) && IdsOk(n)
  {
  }

  /** A step that takes nothing out of the map but what was or will not be handed out. */
  lemma {:induction false} SameHanded<R(!new)>(s: State<R>, n: State<R>)
    requires HandedOk(s) && n.emplacing == s.emplacing && n.handed == s.handed && n.born == s.born && n.added == s.added
    requires forall id | id in n.resources :: id in s.resources && n.resources[id] == s.resources[id]
    ensures HandedOk(n)
  {
  }

  lemma {:induction false} SameCounter<R(!new)>(s: State<R>, n: State<R>)
    requires CounterOk(s) && n.counter == s.counter && |n.list| - Uncounted(n) == |s.list| - Uncounted(s)
    ensures CounterOk(n)
  {
  }

  /** New timed ids that are not in the map need no timer. */
  lemma {:induction false} SameTimers<R(!new)>(s: State<R>, n: State<R>)
    requires TimersOk(s) && Timers(n) == Timers(s) && n.born == s.born && n.pushing == s.pushing
    requires forall id | id in n.resources && id in n.timed :: id in s.resources && id in s.timed
    ensures TimersOk(n)
  {
  }

  lemma {:induction false} PutInKeeps<R(!new)>(s: State<R>, t: Thread)
    requires Inv(s) && t in s.emplacing
    ensures Inv(PutIn(s, t))
  {
    hide AddersOk, IdsOk, HandedOk, TimersOk, CounterOk;
    PutInAdders(s, t);
    PutInHanded(s, t);
    PutInTimers(s, t);
    SameCounter(s, PutIn(s, t));
  }

  lemma {:induction false} PutInAdders<R(!new)>(s: State<R>, t: Thread)
    requires AddersOk(s) && IdsOk(s) && t in s.emplacing
    ensures AddersOk(PutIn(s, t)) && IdsOk(PutIn(s, t))
  {
    PutInEmplacing(s, t);
    PutInPushing(s, t);
  }

  lemma {:induction false} PutInEmplacing<R(!new)>(s: State<R>, t: Thread)
    requires EmplacingOk(s) && t in s.emplacing
    ensures EmplacingOk(PutIn(s, t))
  {
  }

  lemma {:induction false} PutInPushing<R(!new)>(s: State<R>, t: Thread)
    requires EmplacingOk(s) && PushingOk(s) && t in s.emplacing
    ensures PushingOk(PutIn(s, t))
  {
  }

  lemma {:induction false} PutInHanded<R(!new)>(s: State<R>, t: Thread)
    requires AddersOk(s) && HandedOk(s) && t in s.emplacing
    ensures HandedOk(PutIn(s, t))
  {
  }

  lemma {:induction false} PutInTimers<R(!new)>(s: State<R>, t: Thread)
    requires TimersOk(s) && AddersOk(s) && t in s.emplacing
    ensures TimersOk(PutIn(s, t))
  {
    var n, e := PutIn(s, t), s.emplacing[t];
    forall id | id in n.resources && id in n.timed ensures id in Timers(n) || exists u | u in n.pushing :: n.pushing[u] == id {
      if id == e.id {
        assert n.pushing[t] == id;
      } else if id !in Timers(s) {
        var u :| u in s.pushing && s.pushing[u] == id;
        assert n.pushing[u] == id;
      }
    }
  }

  lemma {:induction false} PushKeeps<R(!new)>(s: State<R>, t: Thread)
    requires Inv(s) && Enabled(s, Push(t))
    ensures Inv(Apply(s, Push(t)))
  {
    hide AddersOk, IdsOk, HandedOk, TimersOk, CounterOk;
    PushAdders(s, t);
    SameHanded(s, Apply(s, Push(t)));
    PushTimers(s, t);
    SameCounter(s, Apply(s, Push(t))) by {
      PusherNotCounting(s, t);
    }
  }

  lemma {:induction false} PushAdders<R(!new)>(s: State<R>, t: Thread)
    requires AddersOk(s) && IdsOk(s) && Enabled(s, Push(t))
    ensures AddersOk(Apply(s, Push(t))) && IdsOk(Apply(s, Push(t)))
  {
  }

  lemma {:induction false} PusherNotCounting<R(!new)>(s: State<R>, t: Thread)
    requires AddersOk(s) && t in s.pushing
    ensures t !in s.counting
  {
  }

  lemma {:induction false} PushTimers<R(!new)>(s: State<R>, t: Thread)
    requires TimersOk(s) && AddersOk(s) && Enabled(s, Push(t))
    ensures TimersOk(Apply(s, Push(t)))
  {
    var n, pushed := Apply(s, Push(t)), s.pushing[t];
    assert Timers(n) == Timers(s) + [pushed];
    forall id | id in n.resources && id in n.timed ensures id in Timers(n) || exists u | u in n.pushing :: n.pushing[u] == id {
      if id !in Timers(n) {
        assert id !in Timers(s) && id != pushed;
        var u :| u in s.pushing && s.pushing[u] == id;
        assert n.pushing[u] == id;
      }
    }
  }

  lemma {:induction false} CountUpKeeps<R(!new)>(s: State<R>, t: Thread)
    requires Inv(s) && t in s.counting
    ensures Inv(Apply(s, CountUp(t)))
  {
    hide AddersOk, IdsOk, HandedOk, TimersOk, CounterOk;
    CountUpCounter(s, t);
    CountUpAdders(s, t);
    SameHanded(s, Apply(s, CountUp(t)));
    SameTimers(s, Apply(s, CountUp(t)));
  }

  lemma {:induction false} CountUpAdders<R(!new)>(s: State<R>, t: Thread)
    requires AddersOk(s) && IdsOk(s) && t in s.counting
    ensures AddersOk(Apply(s, CountUp(t))) && IdsOk(Apply(s, CountUp(t)))
  {
  }

  lemma {:induction false} CountUpCounter<R(!new)>(s: State<R>, t: Thread)
    requires CounterOk(s) && t in s.counting
    ensures CounterOk(Apply(s, CountUp(t)))
  {
    assert |s.counting - {t}| == |s.counting| - 1;
    ModNext(|s.list| - Uncounted(s));
  }

  lemma {:induction false} ModNext(x: int)
    ensures (x % WRAP + 1) % WRAP == (x + 1) % WRAP
    ensures (x % WRAP - 1) % WRAP == (x - 1) % WRAP
  {
  }

  lemma {:induction false} TakeOutKeeps<R(!new)>(s: State<R>, id: nat)
    requires Inv(s)
    ensures Inv(TakeOut(s, id))
  {
    hide AddersOk, IdsOk, HandedOk, TimersOk, CounterOk;
    SameAdders(s, TakeOut(s, id));
    TakeOutHanded(s, id);
    SameTimers(s, TakeOut(s, id));
    SameCounter(s, TakeOut(s, id));
  }

  lemma {:induction false} TakeOutHanded<R(!new)>(s: State<R>, id: nat)
    requires HandedOk(s)
    ensures HandedOk(TakeOut(s, id))
  {
  }

  /** A step of the checker or a removal: no new timers, no new resources, nothing handed out. */
  lemma {:induction false} QuietKeeps<R(!new)>(s: State<R>, n: State<R>)
    requires Inv(s) && Timers(n) == Timers(s) && CounterOk(n) && n.resources.Keys <= s.resources.Keys
    requires n == s.(resources := n.resources, removed := n.removed, batch := n.batch, list := n.list, counter := n.counter, checker := n.checker)
    requires forall id | id in n.resources :: n.resources[id] == s.resources[id]
    ensures Inv(n)
  {
    hide AddersOk, IdsOk, HandedOk, TimersOk, CounterOk;
    SameAdders(s, n);
    SameHanded(s, n);
    SameTimers(s, n);
  }

  lemma {:induction false} RemoveKeeps<R(!new)>(s: State<R>, id: nat)
    requires Inv(s)
    ensures Inv(Apply(s, Remove(id)))
  {
    hide AddersOk, IdsOk, HandedOk, TimersOk, CounterOk;
    SameCounter(s, Apply(s, Remove(id)));
    QuietKeeps(s, Apply(s, Remove(id)));
  }

  lemma {:induction false} PopKeeps<R(!new)>(s: State<R>)
    requires Inv(s) && Enabled(s, Pop)
    ensures Inv(Apply(s, Pop))
  {
    hide AddersOk, IdsOk, HandedOk, TimersOk, CounterOk;
    assert Timers(Apply(s, Pop)) == Timers(s);
    SameCounter(s, Apply(s, Pop));
    QuietKeeps(s, Apply(s, Pop));
  }

  lemma {:induction false} CheckerKeeps<R(!new)>(s: State<R>, e: Event<R>)
    requires Inv(s) && Enabled(s, e) && (e.Look? || e.Release?)
    ensures Inv(Apply(s, e))
  {
    hide AddersOk, IdsOk, HandedOk, TimersOk, CounterOk;
    SameCounter(s, Apply(s, e));
    QuietKeeps(s, Apply(s, e));
  }

  lemma {:induction false} CountDownKeeps<R(!new)>(s: State<R>)
    requires Inv(s) && s.checker.Popped?
    ensures Inv(Apply(s, CountDown))
  {
    hide AddersOk, IdsOk, HandedOk, TimersOk;
    ModNext(|s.list| - Uncounted(s));
    QuietKeeps(s, Apply(s, CountDown));
  }

  lemma {:induction false} FireKeeps<R(!new)>(s: State<R>)
    requires Inv(s) && s.checker.Working?
    ensures Inv(Fired(s))
  {
    hide AddersOk, IdsOk, HandedOk, TimersOk, CounterOk;
    if s.batch == [] {
      SameCounter(s, Fired(s));
      QuietKeeps(s, Fired(s));
    } else {
      TakeOutKeeps(s, s.batch[0]);
      DropFirst(TakeOut(s, s.batch[0]));
    }
  }

  /** The first timer may go once its id has left the map. */
  lemma {:induction false} DropFirst<R(!new)>(s: State<R>)
    requires Inv(s) && s.batch != [] && s.batch[0] !in s.resources
    ensures Inv(s.(batch := s.batch[1..]))
  {
    hide AddersOk, IdsOk, HandedOk, TimersOk, CounterOk;
    var n := s.(batch := s.batch[1..]);
    SameAdders(s, n);
    SameHanded(s, n);
    DropTimer(s);
    SameCounter(s, n);
  }

  lemma {:induction false} DropTimer<R(!new)>(s: State<R>)
    requires TimersOk(s) && s.batch != [] && s.batch[0] !in s.resources
    ensures TimersOk(s.(batch := s.batch[1..]))
  {
    var n := s.(batch := s.batch[1..]);
    assert Timers(n) == Timers(s)[1..];
    forall id | id in n.resources && id in n.timed ensures id in Timers(n) || exists u | u in n.pushing :: n.pushing[u] == id {
      assert id != Timers(s)[0];
      if id in Timers(s) {
        var k :| 0 <= k < |Timers(s)| && Timers(s)[k] == id;
        assert Timers(n)[k - 1] == id;
      }
    }
  }

  /** Every state of every run with fewer than 2^32 - 1 Adds keeps the invariant. */
  lemma {:induction false} RunKeeps<R(!new)>(s: State<R>, events: seq<Event<R>>)
    requires Inv(s) && IsRun(s, events) && Few(After(s, events))
    ensures Inv(After(s, events)) && s.adds <= After(s, events).adds
    decreases |events|
  {
    hide Inv, Apply, Enabled;
    AddsGrow(s, events);
    if events != [] {
      var n := Apply(s, events[0]);
      AddsGrow(n, events[1..]);
      StepKeeps(s, events[0]);
      RunKeeps(n, events[1..]);
    }
  }

  lemma {:induction false} AddsStep<R>(s: State<R>, e: Event<R>)
    requires Enabled(s, e)
    ensures s.adds <= Apply(s, e).adds
  {
  }

  lemma {:induction false} AddsGrow<R>(s: State<R>, events: seq<Event<R>>)
    requires IsRun(s, events)
    ensures s.adds <= After(s, events).adds
    decreases |events|
  {
    hide Apply, Enabled;
    if events != [] {
      AddsStep(s, events[0]);
      AddsGrow(Apply(s, events[0]), events[1..]);
    }
  }

  function Count(ids: seq<nat>, id: nat): nat {
    multiset(ids)[id]
  }

  /** Adds that are about to push a timer for id. */
  ghost function Pushers<R>(s: State<R>, id: nat): set<Thread> {
    set t | t in s.pushing && s.pushing[t] == id
  }

  lemma {:induction false} DistinctCount(ids: seq<nat>, id: nat)
    requires Distinct(ids)
    ensures Count(ids, id) == if id in ids then 1 else 0
  {
    if id in ids {
      var k :| 0 <= k < |ids| && ids[k] == id;
      assert ids == ids[..k] + [id] + ids[k + 1..];
      assert id !in ids[..k] && id !in ids[k + 1..];
    }
  }

  /** An id is handed out at most once, and with the resource it was added for; a live id with a timeout has
      exactly one timer or exactly one Add about to push it; the counter is the list length less the uncounted
      pushes. */
  ghost predicate Safe<R(!new)>(s: State<R>) {
    && (forall i, j | 0 <= i < j < |s.handed| :: s.handed[i].0 != s.handed[j].0)
    && (forall k | 0 <= k < |s.handed| :: s.handed[k].0 in s.added && s.added[s.handed[k].0] == s.handed[k].1)
    && (forall k | 0 <= k < |s.handed| :: s.handed[k].0 !in s.resources)
    && (forall id | id in s.resources && id in s.timed :: Count(Timers(s), id) + |Pushers(s, id)| == 1)
    && s.counter == (|s.list| - Uncounted(s)) % WRAP
  }

  /** Safe in every state of every run with fewer than 2^32 - 1 Adds. */
  lemma {:induction false} Safety<R(!new)>(events: seq<Event<R>>)
    requires IsRun(Start<R>(), events) && Few(After(Start<R>(), events))
    ensures Safe(After(Start<R>(), events))
  {
    StartOk<R>();
    RunKeeps(Start<R>(), events);
    InvSafe(After(Start<R>(), events));
  }

  lemma {:induction false} StartOk<R(!new)>()
    ensures Inv(Start<R>())
  {
  }

  lemma {:induction false} InvSafe<R(!new)>(s: State<R>)
    requires Inv(s)
    ensures Safe(s)
  {
    forall id | id in s.resources && id in s.timed ensures Count(Timers(s), id) + |Pushers(s, id)| == 1 {
      OneTimer(s, id);
    }
  }

  lemma {:induction false} OneTimer<R(!new)>(s: State<R>, id: nat)
    requires AddersOk(s) && TimersOk(s) && id in s.resources && id in s.timed
    ensures Count(Timers(s), id) + |Pushers(s, id)| == 1
  {
    DistinctCount(Timers(s), id);
    if id in Timers(s) {
      assert Pushers(s, id) == {};
    } else {
      var t :| t in s.pushing && s.pushing[t] == id;
      assert Pushers(s, id) == {t};
    }
  }

  // ---- Conservation ----

  ghost predicate Adding<R>(s: State<R>, id: nat) {
    exists t :: t in s.emplacing && s.emplacing[t].id == id
  }

  ghost predicate HandedOut<R(!new)>(s: State<R>, id: nat) {
    exists k :: 0 <= k < |s.handed| && s.handed[k].0 == id
  }

  function One(b: bool): nat {
    if b then 1 else 0
  }

  /** In how many places an id is: with an Add, in the map, removed, handed out. */
  ghost function Places<R(!new)>(s: State<R>, id: nat): nat {
    One(Adding(s, id)) + One(id in s.resources) + One(id in s.removed) + One(HandedOut(s, id))
  }

  /** Every id given out is in one place; only timed ids have timers. */
  ghost predicate Kept<R(!new)>(s: State<R>) {
    && s.removed <= s.born
    && (forall id: nat | 1 <= id <= s.adds :: Places(s, id) == 1)
    && AllTimed(s)
  }

  lemma {:induction false} IssuePlaces<R(!new)>(s: State<R>, t: Thread, resource: R, timed: bool, id: nat)
    requires Inv(s) && Kept(s) && Free(s, t) && 1 <= id <= Issue(s, t, resource, timed).adds
    ensures Places(Issue(s, t, resource, timed), id) == 1
  {
    var n := Issue(s, t, resource, timed);
    if id == s.next {
      assert n.emplacing[t].id == id;
      assert !HandedOut(n, id);
    } else {
      assert Places(s, id) == 1;
      assert Adding(n, id) <==> Adding(s, id) by {
        assert forall u | u in s.emplacing :: n.emplacing[u] == s.emplacing[u];
      }
      assert HandedOut(n, id) <==> HandedOut(s, id);
    }
  }

  lemma {:induction false} PutInPlaces<R(!new)>(s: State<R>, t: Thread, id: nat)
    requires Inv(s) && Kept(s) && t in s.emplacing && 1 <= id <= s.adds
    ensures Places(PutIn(s, t), id) == 1
  {
    var n := PutIn(s, t);
    assert Places(s, id) == 1;
    assert HandedOut(n, id) <==> HandedOut(s, id);
    if id == s.emplacing[t].id {
      assert Adding(s, id);
      assert !Adding(n, id);
    } else {
      assert Adding(n, id) <==> Adding(s, id) by {
        assert forall u | u in n.emplacing :: n.emplacing[u] == s.emplacing[u];
        assert forall u | u in s.emplacing && s.emplacing[u].id == id :: u in n.emplacing;
      }
    }
  }

  lemma {:induction false} TakeOutPlaces<R(!new)>(s: State<R>, taken: nat, id: nat)
    requires Kept(s) && 1 <= id <= s.adds
    ensures Places(TakeOut(s, taken), id) == 1 && TakeOut(s, taken).adds == s.adds
  {
    var n := TakeOut(s, taken);
    assert Places(s, id) == 1;
    assert Adding(n, id) <==> Adding(s, id);
    if taken in s.resources {
      var last := |s.handed|;
      assert n.handed[last].0 == taken;
      assert forall k | 0 <= k < last :: n.handed[k] == s.handed[k];
      assert HandedOut(n, id) <==> HandedOut(s, id) || id == taken;
    }
  }

  lemma {:induction false} DiscardPlaces<R(!new)>(s: State<R>, gone: nat, id: nat)
    requires Kept(s) && 1 <= id <= s.adds
    ensures Places(Discard(s, gone), id) == 1
  {
    assert Places(s, id) == 1;
    assert Adding(Discard(s, gone), id) <==> Adding(s, id);
    assert HandedOut(Discard(s, gone), id) <==> HandedOut(s, id);
  }

  /** A step that only moves timers and the counter. */
  lemma {:induction false} SamePlaces<R(!new)>(s: State<R>, n: State<R>, id: nat)
    requires n.emplacing == s.emplacing && n.resources == s.resources && n.removed == s.removed && n.handed == s.handed
    ensures Places(n, id) == Places(s, id)
  {
  }

  lemma {:induction false} FiredPlaces<R(!new)>(s: State<R>, id: nat)
    requires Kept(s) && s.checker.Working? && 1 <= id <= s.adds
    ensures Places(Fired(s), id) == 1 && Fired(s).adds == s.adds
  {
    if s.batch == [] {
      SamePlaces(s, Fired(s), id);
    } else {
      TakeOutPlaces(s, s.batch[0], id);
      SamePlaces(TakeOut(s, s.batch[0]), Fired(s), id);
    }
  }

  lemma {:induction false} StepPlaces<R(!new)>(s: State<R>, e: Event<R>, id: nat)
    requires Inv(s) && Kept(s) && Enabled(s, e) && 1 <= id <= Apply(s, e).adds
    ensures Places(Apply(s, e), id) == 1
  {
    hide Inv, Places, Kept;
    match e
    case Fetch(t, resource, timed) => IssuePlaces(s, t, resource, timed, id);
    case Emplace(t) => PutInPlaces(s, t, id);
    case GetAndRemove(taken) =>
      SameAdds(s, e);
      TakeOutPlaces(s, taken, id);
    case Remove(gone) => DiscardPlaces(s, gone, id);
    case Fire =>
      SameAdds(s, e);
      FiredPlaces(s, id);
    case _ =>
      KeptPlaces(s, id);
      SamePlaces(s, Apply(s, e), id);
  }

  lemma {:induction false} SameAdds<R>(s: State<R>, e: Event<R>)
    requires Enabled(s, e) && !e.Fetch?
    ensures Apply(s, e).adds == s.adds
  {
  }

  lemma {:induction false} KeptPlaces<R(!new)>(s: State<R>, id: nat)
    requires Kept(s) && 1 <= id <= s.adds
    ensures Places(s, id) == 1
  {
  }

  lemma {:induction false} StepRemoved<R(!new)>(s: State<R>, e: Event<R>)
    requires HandedOk(s) && s.removed <= s.born && Enabled(s, e)
    ensures Apply(s, e).removed <= Apply(s, e).born && s.timed <= Apply(s, e).timed
  {
  }

  ghost predicate AllTimed<R>(s: State<R>) {
    forall k | 0 <= k < |Timers(s)| :: Timers(s)[k] in s.timed
  }

  lemma {:induction false} StepTimers<R(!new)>(s: State<R>, e: Event<R>)
    requires AddersOk(s) && AllTimed(s) && Enabled(s, e) && s.timed <= Apply(s, e).timed
    ensures AllTimed(Apply(s, e))
  {
    hide AddersOk;
    var n := Apply(s, e);
    if e.Pop? {
      assert Timers(n) == Timers(s);
    } else if e.Fire? && s.batch != [] {
      FiredTimers(s);
    } else if e.Push? {
      PushingIsTimed(s, e.t);
      assert Timers(n) == Timers(s) + [s.pushing[e.t]];
    } else {
      OtherTimers(s, e);
    }
  }

  lemma {:induction false} FiredTimers<R>(s: State<R>)
    requires s.checker.Working? && s.batch != []
    ensures Timers(Fired(s)) == Timers(s)[1..]
  {
    assert s.batch == [s.batch[0]] + s.batch[1..];
  }

  lemma {:induction false} OtherTimers<R>(s: State<R>, e: Event<R>)
    requires Enabled(s, e) && !e.Pop? && !e.Push? && (e.Fire? ==> s.batch == [])
    ensures Timers(Apply(s, e)) == Timers(s)
  {
  }

  lemma {:induction false} PushingIsTimed<R(!new)>(s: State<R>, t: Thread)
    requires AddersOk(s) && t in s.pushing
    ensures s.pushing[t] in s.timed
  {
  }

  lemma {:induction false} StepConserves<R(!new)>(s: State<R>, e: Event<R>)
    requires Inv(s) && Kept(s) && Enabled(s, e)
    ensures Kept(Apply(s, e))
  {
    hide Places, Apply, Enabled, AddersOk, HandedOk, TimersOk, CounterOk, IdsOk, AllTimed;
    StepRemoved(s, e);
    StepTimers(s, e);
    forall id: nat | 1 <= id <= Apply(s, e).adds ensures Places(Apply(s, e), id) == 1 {
      StepPlaces(s, e, id);
    }
  }

  lemma {:induction false} RunConserves<R(!new)>(s: State<R>, events: seq<Event<R>>)
    requires Inv(s) && Kept(s) && IsRun(s, events) && Few(After(s, events))
    ensures Inv(After(s, events)) && Kept(After(s, events))
    decreases |events|
  {
    hide Inv, Kept, Apply, Enabled;
    if events != [] {
      var n := Apply(s, events[0]);
      AddsGrow(n, events[1..]);
      StepKeeps(s, events[0]);
      StepConserves(s, events[0]);
      RunConserves(n, events[1..]);
    }
  }

  lemma {:induction false} StartKept<R(!new)>()
    ensures Kept(Start<R>())
  {
  }

  /** In every run with fewer than 2^32 - 1 Adds every id given out is in exactly one place: with its Add, in the map,
      taken by a Remove, or handed out. */
  lemma {:induction false} Conservation<R(!new)>(events: seq<Event<R>>, id: nat)
    requires IsRun(Start<R>(), events) && Few(After(Start<R>(), events)) && 1 <= id <= After(Start<R>(), events).adds
    ensures Places(After(Start<R>(), events), id) == 1
  {
    StartOk<R>();
    StartKept<R>();
    RunConserves(Start<R>(), events);
  }

  /** Nothing leaves the map unasked: what was removed was named by a Remove, and what was handed out was asked for or
      had a timeout. */
  lemma {:induction false} OnlyWhenAsked<R(!new)>(s: State<R>, events: seq<Event<R>>, id: nat)
    requires Inv(s) && Kept(s) && IsRun(s, events) && Few(After(s, events))
    ensures id in After(s, events).removed ==> id in s.removed || Remove(id) in events
    ensures HandedOut(After(s, events), id) ==> HandedOut(s, id) || id in After(s, events).timed || GetAndRemove(id) in events
    ensures s.timed <= After(s, events).timed
    decreases |events|
  {
    hide Inv, Kept, Apply, Enabled, HandedOut;
    if events != [] {
      var n := Apply(s, events[0]);
      AddsGrow(n, events[1..]);
      StepKeeps(s, events[0]);
      StepConserves(s, events[0]);
      StepAsked(s, events[0], id);
      OnlyWhenAsked(n, events[1..], id);
    }
  }

  lemma {:induction false} StepAsked<R(!new)>(s: State<R>, e: Event<R>, id: nat)
    requires Kept(s) && Enabled(s, e)
    ensures id in Apply(s, e).removed ==> id in s.removed || e == Remove(id)
    ensures HandedOut(Apply(s, e), id) ==> HandedOut(s, id) || id in s.timed || e == GetAndRemove(id)
    ensures s.timed <= Apply(s, e).timed
  {
    hide Places, HandedOut;
    match e
    case GetAndRemove(taken) => TakenAsked(s, taken, id);
    case Fire =>
      if s.batch == [] {
        SameHandedOut(s, Fired(s), id);
      } else {
        assert Timers(s)[0] == s.batch[0];
        TakenAsked(s, s.batch[0], id);
        SameHandedOut(TakeOut(s, s.batch[0]), Fired(s), id);
      }
    case _ => SameHandedOut(s, Apply(s, e), id);
  }

  lemma {:induction false} SameHandedOut<R(!new)>(s: State<R>, n: State<R>, id: nat)
    requires n.handed == s.handed
    ensures HandedOut(n, id) == HandedOut(s, id)
  {
  }

  lemma {:induction false} TakenAsked<R(!new)>(s: State<R>, taken: nat, id: nat)
    ensures HandedOut(TakeOut(s, taken), id) ==> HandedOut(s, id) || id == taken
  {
    var n := TakeOut(s, taken);
    assert forall j | 0 <= j < |s.handed| :: n.handed[j] == s.handed[j];
  }
}
