/** One search request of the aggregator on top of the resource manager that keeps its callbacks: whatever takes a
    callback out calls it, and nothing but the manager stops it from being called twice. */
module SearchRequest {
  import opened Arith
  import RM = ResourceManager
  import Aggregator

  /** What the manager keeps: the callback of server i of this request, or one of another request. */
  datatype Callback = Mine(i: nat) | Other

  datatype State = State(manager: RM.State<Callback>, request: Aggregator.State)

  /** An atomic step of the manager, or one of a send, a result or a countdown of this request. */
  datatype Event = Manager(m: RM.Event<Callback>) | Request(a: Aggregator.Event)

  function Start(n: nat): State {
    State(RM.Start(), Aggregator.Start(n))
  }

  predicate Sized(s: State) {
    Aggregator.Sized(s.request)
  }

  /** The request adds the callbacks of its servers in order. Anyone may ask for any id at any time. */
  predicate Enabled(s: State, e: Event)
    requires Sized(s)
  {
    match e
    case Manager(m) =>
      RM.Enabled(s.manager, m) && (m.Fetch? && m.resource.Mine? ==> m.resource.i == s.request.registered < |s.request.taken|)
    case Request(a) => !a.Register? && !a.TakeOut? && Aggregator.Enabled(s.request, a)
  }

  /** What a step of the manager means to the request. */
  function Effect(s: State, m: RM.Event<Callback>): seq<Aggregator.Event>
    requires RM.Enabled(s.manager, m)
  {
    var n := RM.Apply(s.manager, m);
    if m.Fetch? && m.resource.Mine? && n.adds > s.manager.adds then [Aggregator.Register]
    else if |n.handed| > |s.manager.handed| && n.handed[|n.handed| - 1].1.Mine? then
      [Aggregator.TakeOut(n.handed[|n.handed| - 1].1.i)]
    else []
  }

  /** The request's part of a step: a callback that was taken out is called, whatever became of it before. */
  function Perform(a: Aggregator.State, e: Aggregator.Event): (b: Aggregator.State)
    requires Aggregator.Sized(a) && (!e.TakeOut? ==> Aggregator.Enabled(a, e))
    ensures Aggregator.Sized(b) && |b.taken| == |a.taken|
  {
    if e.TakeOut? then (if e.i < |a.taken| then Aggregator.To(a, Aggregator.Taken, e.i, Aggregator.Called) else a)
    else Aggregator.Apply(a, e)
  }

  function Apply(s: State, e: Event): (t: State)
    requires Sized(s) && Enabled(s, e)
    ensures Sized(t) && |t.request.taken| == |s.request.taken|
  {
    match e
    case Request(a) => s.(request := Perform(s.request, a))
    case Manager(m) =>
      var effect := Effect(s, m);
      State(RM.Apply(s.manager, m), if effect == [] then s.request else Perform(s.request, effect[0]))
  }

  predicate IsRun(s: State, events: seq<Event>)
    requires Sized(s)
    decreases |events|
  {
    events == [] || (Enabled(s, events[0]) && IsRun(Apply(s, events[0]), events[1..]))
  }

  function After(s: State, events: seq<Event>): (t: State)
    requires Sized(s) && IsRun(s, events)
    ensures Sized(t) && |t.request.taken| == |s.request.taken|
    decreases |events|
  {
    if events == [] then s else After(Apply(s, events[0]), events[1..])
  }

  /** What one event means to the request. */
  function Seen(s: State, e: Event): seq<Aggregator.Event>
    requires Sized(s) && Enabled(s, e)
  {
    if e.Request? then [e.a] else Effect(s, e.m)
  }

  /** The run as the request sees it. */
  function View(s: State, events: seq<Event>): seq<Aggregator.Event>
    requires Sized(s) && IsRun(s, events)
    decreases |events|
  {
    if events == [] then [] else Seen(s, events[0]) + View(Apply(s, events[0]), events[1..])
  }

  /** One id was given out for each registered server, and a callback that is no longer open has been handed out. */
  ghost predicate Tied(s: State)
    requires Sized(s)
  {
    && (forall id | id in s.manager.added && s.manager.added[id].Mine? :: s.manager.added[id].i < s.request.registered)
    && (forall x, y | x in s.manager.added && y in s.manager.added && s.manager.added[x].Mine? && s.manager.added[x] == s.manager.added[y] :: x == y)
    && (forall i | 0 <= i < s.request.registered && !s.request.taken[i].Open? :: exists k | 0 <= k < |s.manager.handed| :: s.manager.handed[k].1 == Mine(i))
  }

  ghost predicate Inv(s: State) {
    Sized(s) && RM.Inv(s.manager) && Tied(s)
  }

  /** The manager hands out nothing or one more callback, and gives out nothing or one new id. */
  lemma {:induction false} ManagerStep(s: RM.State<Callback>, m: RM.Event<Callback>)
    requires RM.Inv(s) && RM.Enabled(s, m) && RM.Few(RM.Apply(s, m))
    ensures var n := RM.Apply(s, m);
            && RM.Inv(n)
            && (n.handed == s.handed || (|n.handed| == |s.handed| + 1 && n.handed[..|s.handed|] == s.handed))
            && (if m.Fetch? then n.adds == s.adds + 1 && s.next !in s.added && n.added == s.added[s.next := m.resource] && n.handed == s.handed
                else n.added == s.added && n.adds == s.adds)
  {
    hide RM.Inv, RM.AddersOk, RM.TimersOk, RM.HandedOk, RM.CounterOk;
    RM.StepKeeps(s, m);
    ManagerIds(s);
    HandsOutOne(s, m);
    GivesOutOne(s, m);
  }

  lemma {:induction false} ManagerIds(s: RM.State<Callback>)
    requires RM.Inv(s)
    ensures s.next == 1 + s.adds && s.next !in s.added
  {
  }

  lemma {:induction false} HandsOutOne(s: RM.State<Callback>, m: RM.Event<Callback>)
    requires RM.Enabled(s, m)
    ensures var n := RM.Apply(s, m);
            if m.Fetch? then n.handed == s.handed
            else n.handed == s.handed || (|n.handed| == |s.handed| + 1 && n.handed[..|s.handed|] == s.handed)
  {
  }

  lemma {:induction false} GivesOutOne(s: RM.State<Callback>, m: RM.Event<Callback>)
    requires s.next > 0 && RM.Enabled(s, m)
    ensures var n := RM.Apply(s, m);
            if m.Fetch? then n.adds == s.adds + 1 && n.added == s.added[s.next := m.resource]
            else n.added == s.added && n.adds == s.adds
  {
  }

  /** A callback of this request that the manager hands out was still open: had it been called before, the same id
      would have been handed out twice. */
  lemma {:induction false} HandedWasOpen(s: State, m: RM.Event<Callback>)
    requires Inv(s) && Enabled(s, Manager(m)) && RM.Few(RM.Apply(s.manager, m))
    ensures forall e | e in Effect(s, m) :: Aggregator.Enabled(s.request, e)
  {
    hide RM.Inv, RM.Apply, RM.Enabled;
    ManagerStep(s.manager, m);
    var n := RM.Apply(s.manager, m);
    var last := |n.handed| - 1;
    if |s.manager.handed| <= last && n.handed[last].1.Mine? {
      RM.InvSafe(n);
      var i := n.handed[last].1.i;
      assert n.added[n.handed[last].0] == Mine(i);
      forall k | 0 <= k < last ensures s.manager.handed[k].1 != Mine(i) {
        assert n.handed[k] == s.manager.handed[k];
        assert n.handed[k].0 != n.handed[last].0;
      }
      assert s.request.taken[i].Open?;
    }
  }

  /** Where a callback that is no longer open was handed out. */
  lemma {:induction false} StillHanded(s: State, t: State, i: nat)
    requires Sized(s) && Sized(t) && Tied(s) && i < s.request.registered && !s.request.taken[i].Open?
    requires s.manager.handed <= t.manager.handed
    ensures exists k | 0 <= k < |t.manager.handed| :: t.manager.handed[k].1 == Mine(i)
  {
    var k :| 0 <= k < |s.manager.handed| && s.manager.handed[k].1 == Mine(i);
    assert t.manager.handed[k].1 == Mine(i);
  }

  lemma {:induction false} TiedKept(s: State, m: RM.Event<Callback>)
    requires Inv(s) && Enabled(s, Manager(m)) && RM.Few(RM.Apply(s.manager, m))
    ensures Tied(Apply(s, Manager(m)))
  {
    hide RM.Inv, RM.Apply, RM.Enabled;
    ManagerStep(s.manager, m);
    HandedWasOpen(s, m);
    var t := Apply(s, Manager(m));
    forall i | 0 <= i < t.request.registered && !t.request.taken[i].Open?
      ensures exists k | 0 <= k < |t.manager.handed| :: t.manager.handed[k].1 == Mine(i)
    {
      if i < s.request.registered && !s.request.taken[i].Open? {
        StillHanded(s, t, i);
      }
    }
  }

  /** The request's own steps leave callbacks that are open open. */
  lemma {:induction false} RequestKeeps(s: State, a: Aggregator.Event)
    requires Inv(s) && Enabled(s, Request(a))
    ensures Inv(Apply(s, Request(a)))
  {
    hide RM.Inv;
    var t := Apply(s, Request(a));
    forall i | 0 <= i < t.request.registered && !t.request.taken[i].Open?
      ensures exists k | 0 <= k < |t.manager.handed| :: t.manager.handed[k].1 == Mine(i)
    {
      StillHanded(s, t, i);
    }
  }

  /** One step, performed or seen: the same. */
  lemma {:induction false} OneSeen(a: Aggregator.State, e: Aggregator.Event)
    requires Aggregator.Sized(a) && Aggregator.Enabled(a, e)
    ensures Aggregator.IsRun(a, [e]) && Aggregator.After(a, [e]) == Perform(a, e)
  {
    var b := Aggregator.Apply(a, e);
    assert [e][1..] == [];
    Aggregator.NoEvents(b);
  }

  lemma {:induction false} StepKeeps(s: State, e: Event)
    requires Inv(s) && Enabled(s, e) && RM.Few(Apply(s, e).manager)
    ensures Inv(Apply(s, e))
    ensures Aggregator.IsRun(s.request, Seen(s, e)) && Aggregator.After(s.request, Seen(s, e)) == Apply(s, e).request
  {
    hide RM.Inv, RM.Apply, RM.Enabled, Tied, Aggregator.IsRun, Aggregator.After, Aggregator.Enabled;
    match e
    case Request(a) =>
      RequestKeeps(s, a);
      OneSeen(s.request, a);
    case Manager(m) =>
      ManagerStep(s.manager, m);
      TiedKept(s, m);
      HandedWasOpen(s, m);
      if Effect(s, m) == [] {
        Aggregator.NoEvents(s.request);
      } else {
        assert Effect(s, m) == [Effect(s, m)[0]];
        OneSeen(s.request, Effect(s, m)[0]);
      }
  }

  lemma {:induction false} AddsStep(s: State, e: Event)
    requires Sized(s) && Enabled(s, e)
    ensures s.manager.adds <= Apply(s, e).manager.adds
  {
    hide RM.Apply;
    if e.Manager? {
      RM.AddsStep(s.manager, e.m);
    }
  }

  lemma {:induction false} AddsGrow(s: State, events: seq<Event>)
    requires Sized(s) && IsRun(s, events)
    ensures s.manager.adds <= After(s, events).manager.adds
    decreases |events|
  {
    hide Apply, Enabled;
    if events != [] {
      AddsStep(s, events[0]);
      AddsGrow(Apply(s, events[0]), events[1..]);
    }
  }

  lemma {:induction false} ViewIsRun(s: State, events: seq<Event>)
    requires Inv(s) && IsRun(s, events) && RM.Few(After(s, events).manager)
    ensures Aggregator.IsRun(s.request, View(s, events))
    ensures Aggregator.After(s.request, View(s, events)) == After(s, events).request
    decreases |events|
  {
    hide RM.Inv, Tied, Apply, Enabled, Seen, Aggregator.IsRun, Aggregator.After;
    if events == [] {
      Aggregator.NoEvents(s.request);
    } else {
      var t := Apply(s, events[0]);
      AddsGrow(t, events[1..]);
      StepKeeps(s, events[0]);
      ViewIsRun(t, events[1..]);
      Aggregator.RunsJoin(s.request, Seen(s, events[0]), View(t, events[1..]));
    }
  }

  /** Every run of manager and request in which fewer than 2^32 - 1 callbacks are added is, to the request, a run in
      which each callback is taken out at most once. */
  lemma {:induction false} Refines(n: nat, events: seq<Event>)
    requires IsRun(Start(n), events) && RM.Few(After(Start(n), events).manager)
    ensures var view := View(Start(n), events);
            Aggregator.IsRun(Aggregator.Start(n), view) && Aggregator.After(Aggregator.Start(n), view) == After(Start(n), events).request
  {
    hide RM.Inv, View, IsRun, After, Aggregator.IsRun, Aggregator.After;
    RM.StartOk<Callback>();
    ViewIsRun(Start(n), events);
  }

  predicate NoFailure(events: seq<Event>) {
    forall k | 0 <= k < |events| :: !(events[k].Request? && events[k].a.SendFailed?)
  }

  lemma {:induction false} NoFailureSeen(s: State, events: seq<Event>)
    requires Sized(s) && IsRun(s, events) && NoFailure(events)
    ensures Aggregator.NoFailure(View(s, events))
    decreases |events|
  {
    if events != [] {
      NoFailureSeen(Apply(s, events[0]), events[1..]);
    }
  }

  /** With no failed send, whatever responses and timers do: at most one aggregation, with every slot filled, and one
      exactly when all callbacks have finished. */
  lemma {:induction false} AggregatesOnce(n: nat, events: seq<Event>)
    requires 1 <= n < WRAP && IsRun(Start(n), events) && RM.Few(After(Start(n), events).manager) && NoFailure(events)
    ensures var s := After(Start(n), events).request;
            && |s.aggregations| <= 1
            && (forall k | 0 <= k < |s.aggregations| :: Aggregator.AllFilled(s.aggregations[k]))
            && (|s.aggregations| == 1 <==> forall i | 0 <= i < n :: s.taken[i].Counted?)
  {
    Refines(n, events);
    NoFailureSeen(Start(n), events);
    Aggregator.AggregatesOnce(n, View(Start(n), events));
  }

  /** In every run, failed sends included, the number of aggregations follows the number of finishes. */
  lemma {:induction false} AggregationCount(n: nat, events: seq<Event>)
    requires 1 <= n < WRAP && IsRun(Start(n), events) && RM.Few(After(Start(n), events).manager)
    ensures var s := After(Start(n), events).request; |s.aggregations| == Aggregator.Aggregations(n, s.finished) && s.finished <= 2 * n
  {
    Refines(n, events);
    var s := After(Start(n), events).request;
    Aggregator.AggregationCount(n, View(Start(n), events));
    Aggregator.CountedBound(s.taken);
    Aggregator.CountedBound(s.failed);
  }

  // ---- Nothing is lost ----

  /** The callback of server i was given an id. */
  ghost predicate HasId(s: RM.State<Callback>, i: nat) {
    exists id :: id in s.added && s.added[id] == Mine(i)
  }

  /** Each registered server has its id; what was handed out is not open any more; what was registered was opened. */
  ghost predicate Matched(s: State)
    requires Sized(s)
  {
    && (forall i | 0 <= i < s.request.registered :: HasId(s.manager, i))
    && (forall k | 0 <= k < |s.manager.handed| && s.manager.handed[k].1.Mine? ::
          s.manager.handed[k].1.i < s.request.registered && !s.request.taken[s.manager.handed[k].1.i].Open?)
    && (forall i | 0 <= i < s.request.registered :: !s.request.taken[i].Pending? && !s.request.taken[i].Closed?)
  }

  lemma {:induction false} StillAdded(s: State, t: State, i: nat)
    requires Sized(s) && Matched(s) && i < s.request.registered
    requires forall id | id in s.manager.added :: id in t.manager.added && t.manager.added[id] == s.manager.added[id]
    ensures HasId(t.manager, i)
  {
    assert HasId(s.manager, i);
    var id :| id in s.manager.added && s.manager.added[id] == Mine(i);
    assert id in t.manager.added && t.manager.added[id] == Mine(i);
  }

  lemma {:induction false} ManagerMatches(s: State, m: RM.Event<Callback>)
    requires Inv(s) && Matched(s) && Enabled(s, Manager(m)) && RM.Few(RM.Apply(s.manager, m))
    ensures Matched(Apply(s, Manager(m)))
  {
    hide RM.Inv, RM.Apply, RM.Enabled;
    ManagerStep(s.manager, m);
    HandedWasOpen(s, m);
    var t := Apply(s, Manager(m));
    forall i | 0 <= i < t.request.registered ensures HasId(t.manager, i) {
      if i < s.request.registered {
        StillAdded(s, t, i);
      } else {
        assert t.manager.added[s.manager.next] == Mine(i);
      }
    }
    forall k | 0 <= k < |t.manager.handed| && t.manager.handed[k].1.Mine?
      ensures t.manager.handed[k].1.i < t.request.registered && !t.request.taken[t.manager.handed[k].1.i].Open?
    {
      if k < |s.manager.handed| {
        assert t.manager.handed[k] == s.manager.handed[k];
      } else {
        RM.InvSafe(t.manager);
        assert t.manager.added[t.manager.handed[k].0].Mine?;
      }
    }
  }

  lemma {:induction false} RequestMatches(s: State, a: Aggregator.Event)
    requires Inv(s) && Matched(s) && Enabled(s, Request(a))
    ensures Matched(Apply(s, Request(a)))
  {
    hide RM.Inv, Tied;
    var t := Apply(s, Request(a));
    forall i | 0 <= i < t.request.registered ensures HasId(t.manager, i) {
      StillAdded(s, t, i);
    }
  }

  lemma {:induction false} StepMatches(s: State, e: Event)
    requires Inv(s) && RM.Kept(s.manager) && Matched(s) && Enabled(s, e) && RM.Few(Apply(s, e).manager)
    ensures RM.Kept(Apply(s, e).manager) && Matched(Apply(s, e))
  {
    hide RM.Inv, RM.Kept, RM.Apply, RM.Enabled, Tied, Matched;
    match e
    case Request(a) => RequestMatches(s, a);
    case Manager(m) =>
      RM.StepConserves(s.manager, m);
      ManagerMatches(s, m);
  }

  lemma {:induction false} RunMatches(s: State, events: seq<Event>)
    requires Inv(s) && RM.Kept(s.manager) && Matched(s) && IsRun(s, events) && RM.Few(After(s, events).manager)
    ensures var t := After(s, events); Inv(t) && RM.Kept(t.manager) && Matched(t)
    decreases |events|
  {
    hide RM.Inv, RM.Kept, Tied, Matched, Apply, Enabled;
    if events != [] {
      var t := Apply(s, events[0]);
      AddsGrow(t, events[1..]);
      StepKeeps(s, events[0]);
      StepMatches(s, events[0]);
      RunMatches(t, events[1..]);
    }
  }

  /** Nothing is left to happen to the request: all servers are registered, no callback of it is with an Add or in the
      map, none was removed, and those called have written and counted. */
  ghost predicate Settled(s: State)
    requires Sized(s)
  {
    && s.request.registered == |s.request.taken|
    && (forall id | id in s.manager.resources :: !s.manager.resources[id].Mine?)
    && (forall t | t in s.manager.emplacing :: !s.manager.emplacing[t].resource.Mine?)
    && (forall id | id in s.manager.removed && id in s.manager.added :: !s.manager.added[id].Mine?)
    && (forall i | 0 <= i < |s.request.taken| :: !s.request.taken[i].Called? && !s.request.taken[i].Written?)
    && (forall i | 0 <= i < |s.request.failed| :: s.request.failed[i].Counted? || s.request.failed[i].Closed?)
  }

  /** An open callback is with its Add, in the map or removed. */
  lemma {:induction false} OpenIsSomewhere(s: State, i: nat) returns (id: nat)
    requires Inv(s) && RM.Kept(s.manager) && Matched(s) && i < s.request.registered && s.request.taken[i].Open?
    ensures id in s.manager.added && s.manager.added[id] == Mine(i)
    ensures RM.Adding(s.manager, id) || id in s.manager.resources || id in s.manager.removed
  {
    assert HasId(s.manager, i);
    id :| id in s.manager.added && s.manager.added[id] == Mine(i);
    AddedIsPlaced(s.manager, id);
    if RM.HandedOut(s.manager, id) {
      HandedAsAdded(s.manager, id);
      assert false;
    }
  }

  lemma {:induction false} AddedIsPlaced(s: RM.State<Callback>, id: nat)
    requires RM.Inv(s) && RM.Kept(s) && id in s.added
    ensures RM.Adding(s, id) || id in s.resources || id in s.removed || RM.HandedOut(s, id)
  {
    assert RM.Places(s, id) == 1;
  }

  lemma {:induction false} HandedAsAdded(s: RM.State<Callback>, id: nat)
    requires RM.HandedOk(s) && RM.HandedOut(s, id)
    ensures exists k :: 0 <= k < |s.handed| && id in s.added && s.handed[k].1 == s.added[id]
  {
    var k :| 0 <= k < |s.handed| && s.handed[k].0 == id;
    assert s.handed[k].1 == s.added[id];
  }

  lemma {:induction false} SettledIsCounted(s: State, i: nat)
    requires Inv(s) && RM.Kept(s.manager) && Matched(s) && Settled(s) && i < |s.request.taken|
    ensures s.request.taken[i].Counted?
  {
    hide RM.Kept, Tied, RM.AddersOk, RM.TimersOk, RM.CounterOk, RM.IdsOk;
    if s.request.taken[i].Open? {
      var id := OpenIsSomewhere(s, i);
      NotAdding(s.manager, id, i);
      assert false;
    }
  }

  lemma {:induction false} NotAdding(s: RM.State<Callback>, id: nat, i: nat)
    requires RM.HandedOk(s) && id in s.added && s.added[id] == Mine(i) && forall t | t in s.emplacing :: !s.emplacing[t].resource.Mine?
    ensures !RM.Adding(s, id)
  {
    forall t | t in s.emplacing ensures s.emplacing[t].id != id {
    }
  }

  /** Once nothing is left to happen there was exactly one aggregation if no send failed, else exactly two: no callback
      is lost between the manager and the request. */
  lemma {:induction false} AggregatesInTheEnd(n: nat, events: seq<Event>)
    requires 1 <= n < WRAP && IsRun(Start(n), events) && RM.Few(After(Start(n), events).manager) && Settled(After(Start(n), events))
    ensures var s := After(Start(n), events).request;
            |s.aggregations| == if forall i | 0 <= i < |s.failed| :: !s.failed[i].Counted? then 1 else 2
  {
    hide RM.Inv, RM.Kept, View;
    var s := After(Start(n), events);
    RM.StartOk<Callback>();
    RM.StartKept<Callback>();
    RunMatches(Start(n), events);
    forall i | 0 <= i < |s.request.taken| ensures s.request.taken[i].Counted? {
      SettledIsCounted(s, i);
    }
    Refines(n, events);
    Aggregator.OnceIffNoFailure(n, View(Start(n), events));
  }
}
