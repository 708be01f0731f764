/** Head selection over a balanced k-means tree (BKT): the recursive packing of tree nodes into heads and
    the threshold search that drives it. */
module SelectHead {
  import opened Collections
  import opened Sorting
  import opened Arith

  datatype Node = Node(centerid: int, childStart: int, childEnd: int)

  /** A child that was not absorbed below its parent, with the number of nodes it still carries. */
  datatype Child = Child(id: nat, size: nat)

  datatype Options = Options(select: int, split: int, factor: int)

  /** How `std::sort` orders the children; ties may be broken in any fixed way. */
  type Sorter = seq<Child> -> seq<Child>

  ghost predicate Sorts(sort: Sorter, s: seq<Child>) {
    multiset(sort(s)) == multiset(s) && SortedBy((a: Child, b: Child) => a.size >= b.size, sort(s))
  }

  ghost predicate DescendingSorter(sort: Sorter) {
    forall s :: Sorts(sort, s)
  }

  /** Trees are built parents first, so children always lie behind their parent; a negative childStart
      marks a node without a child range. */
  ghost predicate WellFormed(t: seq<Node>) {
    && |t| > 0
    && forall i | 0 <= i < |t| && t[i].childStart >= 0 :: i < t[i].childStart <= t[i].childEnd <= |t|
  }

  function Lo(t: seq<Node>, id: nat): nat
    requires id < |t|
  {
    if t[id].childStart >= 0 then t[id].childStart else |t|
  }

  function Hi(t: seq<Node>, id: nat): int
    requires id < |t|
  {
    if t[id].childStart >= 0 then t[id].childEnd else |t|
  }

  // ---- The packing, as functions of the tree and the options ----

  function Sizes(kids: seq<Child>): nat {
    if kids == [] then 0 else kids[0].size + Sizes(kids[1..])
  }

  /** Nodes gathered at `id`: itself and what its unabsorbed children carry. */
  function Weight(t: seq<Node>, id: nat, select: int): nat
    requires WellFormed(t) && id < |t|
    decreases |t| - id, 1
  {
    1 + Sizes(Kids(t, Lo(t, id), Hi(t, id), select))
  }

  /** What `id` hands to its parent: nothing once it is heavy enough to become a head. */
  function Residue(t: seq<Node>, id: nat, select: int): nat
    requires WellFormed(t) && id < |t|
    decreases |t| - id, 2
  {
    var w := Weight(t, id, select);
    if w >= select then 0 else w
  }

  function Kids(t: seq<Node>, j: nat, hi: int, select: int): seq<Child>
    requires WellFormed(t) && j <= |t| && hi <= |t|
    decreases |t| - j, 3
  {
    if j >= hi then []
    else
      var r := Residue(t, j, select);
      (if r > 0 then [Child(j, r)] else []) + Kids(t, j + 1, hi, select)
  }

  /** The children from j on are child j, unless it was absorbed, and the later ones. */
  lemma {:induction false} KidsStep(t: seq<Node>, j: nat, hi: int, select: int)
    requires WellFormed(t) && j < hi <= |t|
    ensures var r, rest := Residue(t, j, select), Kids(t, j + 1, hi, select);
            && Kids(t, j, hi, select) == (if r > 0 then [Child(j, r)] + rest else rest)
            && Sizes(Kids(t, j, hi, select)) == r + Sizes(rest)
  {
    var r, rest := Residue(t, j, select), Kids(t, j + 1, hi, select);
    if r > 0 {
      assert ([Child(j, r)] + rest)[1..] == rest;
    } else {
      assert [] + rest == rest;
    }
  }

  lemma {:induction false} KidsAreNodes(t: seq<Node>, j: nat, hi: int, select: int)
    requires WellFormed(t) && j <= |t| && hi <= |t|
    ensures forall c | c in Kids(t, j, hi, select) :: c.id < |t|
    decreases |t| - j
  {
    if j < hi {
      KidsAreNodes(t, j + 1, hi, select);
    }
  }

  function CeilDiv(a: nat, b: int): nat
    requires b > 0
  {
    (a + b - 1) / b
  }

  function Min(a: nat, b: nat): nat {
    if a <= b then a else b
  }

  function Centers(t: seq<Node>, c: seq<Child>): (r: seq<int>)
    requires forall x | x in c :: x.id < |t|
    ensures |r| == |c|
  {
    if c == [] then [] else [t[c[0].id].centerid] + Centers(t, c[1..])
  }

  lemma SortedKidsAreNodes(t: seq<Node>, id: nat, select: int, sort: Sorter)
    requires WellFormed(t) && id < |t| && DescendingSorter(sort)
    ensures var kids := Kids(t, Lo(t, id), Hi(t, id), select);
            |sort(kids)| == |kids| && forall c | c in sort(kids) :: c.id < |t|
  {
    var kids := Kids(t, Lo(t, id), Hi(t, id), select);
    KidsAreNodes(t, Lo(t, id), Hi(t, id), select);
    assert Sorts(sort, kids);
    assert |multiset(sort(kids))| == |multiset(kids)|;
    assert forall c | c in sort(kids) :: c in multiset(sort(kids)) && c in multiset(kids);
  }

  /** The node's own center, unless it carries the root's id. */
  function OwnCenter(t: seq<Node>, id: nat): seq<int>
    requires id < |t|
  {
    if t[id].centerid < t[0].centerid then [t[id].centerid] else []
  }

  /** Heads pushed when a node of the given weight is settled: its own center, and when it is too heavy the
      centers of up to `count` of its children, which `kids` lists largest first. */
  function Settled(t: seq<Node>, id: nat, o: Options, kids: seq<Child>, weight: nat, count: nat): seq<int>
    requires id < |t| && forall c | c in kids :: c.id < |t|
  {
    if weight < o.select then []
    else if weight <= o.split then OwnCenter(t, id)
    else OwnCenter(t, id) + Centers(t, kids[..Min(count, |kids|)])
  }

  /** Heads pushed at `id` itself. */
  function Own(t: seq<Node>, id: nat, o: Options, sort: Sorter): seq<int>
    requires WellFormed(t) && id < |t| && o.factor > 0 && DescendingSorter(sort)
  {
    SortedKidsAreNodes(t, id, o.select, sort);
    var w := Weight(t, id, o.select);
    Settled(t, id, o, sort(Kids(t, Lo(t, id), Hi(t, id), o.select)), w, CeilDiv(w, o.factor))
  }

  /** Everything pushed while the subtree of `id` is visited, in order. */
  function Pushes(t: seq<Node>, id: nat, o: Options, sort: Sorter): seq<int>
    requires WellFormed(t) && id < |t| && o.factor > 0 && DescendingSorter(sort)
    decreases |t| - id, 0
  {
    KidPushes(t, Lo(t, id), Hi(t, id), o, sort) + Own(t, id, o, sort)
  }

  function KidPushes(t: seq<Node>, j: nat, hi: int, o: Options, sort: Sorter): seq<int>
    requires WellFormed(t) && j <= |t| && hi <= |t| && o.factor > 0 && DescendingSorter(sort)
    decreases |t| - j, 1
  {
    if j >= hi then [] else Pushes(t, j, o, sort) + KidPushes(t, j + 1, hi, o, sort)
  }

  /** The head set: the pushed center ids without duplicates. */
  ghost function Heads(t: seq<Node>, o: Options, sort: Sorter): set<int>
    requires WellFormed(t) && o.factor > 0 && DescendingSorter(sort)
  {
    set x | x in Pushes(t, 0, o, sort)
  }

  // ---- SelectHeadDynamicallyInternal ----

  method SelectInternal(t: seq<Node>, id: nat, o: Options, sort: Sorter, before: seq<int>)
    returns (size: nat, selected: seq<int>)
    requires WellFormed(t) && id < |t| && o.factor > 0 && DescendingSorter(sort)
    ensures size == Residue(t, id, o.select)
    ensures selected == before + Pushes(t, id, o, sort)
    decreases |t| - id, 1
  {
    var children, childrenSize;
    children, childrenSize, selected := VisitChildren(t, id, o, sort, before);
    SortedKidsAreNodes(t, id, o.select, sort);
    size, selected := Settle(t, id, o, sort(children), childrenSize, CeilDiv(childrenSize, o.factor), selected);
    Assoc(before, KidPushes(t, Lo(t, id), Hi(t, id), o, sort), Own(t, id, o, sort));
  }

  lemma Assoc(a: seq<int>, b: seq<int>, c: seq<int>)
    ensures a + b + c == a + (b + c)
  {
  }

  /** The part of the visit after the children loop: absorb the node or hand its weight up. */
  method Settle(t: seq<Node>, id: nat, o: Options, kids: seq<Child>, weight: nat, count: nat, before: seq<int>)
    returns (size: nat, selected: seq<int>)
    requires id < |t| && forall c | c in kids :: c.id < |t|
    ensures size == if weight >= o.select then 0 else weight
    ensures selected == before + Settled(t, id, o, kids, weight, count)
  {
    selected := before;
    if weight < o.select {
      return weight, selected;
    }
    if t[id].centerid < t[0].centerid {
      selected := selected + [t[id].centerid];
    }
    assert selected == before + OwnCenter(t, id);
    if weight > o.split {
      Assoc(before, OwnCenter(t, id), Centers(t, kids[..Min(count, |kids|)]));
      selected := PushLargest(t, kids, count, selected);
    }
    return 0, selected;
  }

  method VisitChildren(t: seq<Node>, id: nat, o: Options, sort: Sorter, before: seq<int>)
    returns (children: seq<Child>, childrenSize: nat, selected: seq<int>)
    requires WellFormed(t) && id < |t| && o.factor > 0 && DescendingSorter(sort)
    ensures children == Kids(t, Lo(t, id), Hi(t, id), o.select)
    ensures childrenSize == Weight(t, id, o.select)
    ensures selected == before + KidPushes(t, Lo(t, id), Hi(t, id), o, sort)
    decreases |t| - id, 0, 1
  {
    children, childrenSize, selected := [], 1, before;
    if t[id].childStart >= 0 {
      children, childrenSize, selected := VisitRange(t, id, o, sort, before);
    }
  }

  method VisitRange(t: seq<Node>, id: nat, o: Options, sort: Sorter, before: seq<int>)
    returns (children: seq<Child>, childrenSize: nat, selected: seq<int>)
    requires WellFormed(t) && id < |t| && t[id].childStart >= 0 && o.factor > 0 && DescendingSorter(sort)
    ensures children == Kids(t, t[id].childStart, t[id].childEnd, o.select) && childrenSize == 1 + Sizes(children)
    ensures selected == before + KidPushes(t, t[id].childStart, t[id].childEnd, o, sort)
    decreases |t| - id, 0, 0
  {
    children, childrenSize, selected := [], 1, before;
    var i, hi := t[id].childStart, t[id].childEnd;
    ghost var kids, pushes := Kids(t, i, hi, o.select), before + KidPushes(t, i, hi, o, sort);
    PendingStart(t, i, hi, o, sort, before);
    while i < hi
      invariant t[id].childStart <= i <= hi
      invariant Pending(t, i, hi, o, sort, children, childrenSize, selected, kids, pushes)
    {
      children, childrenSize, selected := VisitChild(t, id, i, o, sort, children, childrenSize, selected, kids, pushes);
      i := i + 1;
    }
    PendingDone(t, hi, o, sort, children, childrenSize, selected, kids, pushes);
  }

  /** One round of the children loop. */
  method VisitChild(t: seq<Node>, id: nat, i: nat, o: Options, sort: Sorter, gathered: seq<Child>, size: nat,
                    before: seq<int>, ghost kids: seq<Child>, ghost pushes: seq<int>)
    returns (children: seq<Child>, childrenSize: nat, selected: seq<int>)
    requires WellFormed(t) && id < i < |t| && 0 <= t[id].childStart <= i < t[id].childEnd <= |t|
    requires o.factor > 0 && DescendingSorter(sort)
    requires Pending(t, i, t[id].childEnd, o, sort, gathered, size, before, kids, pushes)
    ensures Pending(t, i + 1, t[id].childEnd, o, sort, children, childrenSize, selected, kids, pushes)
    decreases |t| - i, 2
  {
    PendingStep(t, i, t[id].childEnd, o, sort, gathered, size, before, kids, pushes);
    var cs;
    cs, selected := SelectInternal(t, i, o, sort, before);
    children, childrenSize := gathered, size;
    if cs > 0 {
      children := children + [Child(i, cs)];
      childrenSize := childrenSize + cs;
    }
  }

  /** What the children loop has gathered so far, completed by the children from `i` on, is the whole. */
  ghost predicate Pending(t: seq<Node>, i: nat, hi: int, o: Options, sort: Sorter, children: seq<Child>, size: nat,
                          selected: seq<int>, kids: seq<Child>, pushes: seq<int>)
    requires WellFormed(t) && i <= |t| && hi <= |t| && o.factor > 0 && DescendingSorter(sort)
  {
    && children + Kids(t, i, hi, o.select) == kids
    && size + Sizes(Kids(t, i, hi, o.select)) == 1 + Sizes(kids)
    && selected + KidPushes(t, i, hi, o, sort) == pushes
  }

  lemma PendingStep(t: seq<Node>, i: nat, hi: int, o: Options, sort: Sorter, children: seq<Child>, size: nat,
                    selected: seq<int>, kids: seq<Child>, pushes: seq<int>)
    requires WellFormed(t) && i < hi <= |t| && o.factor > 0 && DescendingSorter(sort)
    requires Pending(t, i, hi, o, sort, children, size, selected, kids, pushes)
    ensures var r := Residue(t, i, o.select);
            Pending(t, i + 1, hi, o, sort, if r > 0 then children + [Child(i, r)] else children, size + r,
                    selected + Pushes(t, i, o, sort), kids, pushes)
  {
    KidsStep(t, i, hi, o.select);
    PendingSplit(children, Kids(t, i + 1, hi, o.select), Child(i, Residue(t, i, o.select)));
    Assoc(selected, Pushes(t, i, o, sort), KidPushes(t, i + 1, hi, o, sort));
  }

  lemma PendingSplit(children: seq<Child>, rest: seq<Child>, c: Child)
    ensures children + ([c] + rest) == children + [c] + rest
  {
  }

  lemma PendingStart(t: seq<Node>, lo: nat, hi: int, o: Options, sort: Sorter, before: seq<int>)
    requires WellFormed(t) && lo <= |t| && hi <= |t| && o.factor > 0 && DescendingSorter(sort)
    ensures Pending(t, lo, hi, o, sort, [], 1, before, Kids(t, lo, hi, o.select), before + KidPushes(t, lo, hi, o, sort))
  {
    assert [] + Kids(t, lo, hi, o.select) == Kids(t, lo, hi, o.select);
  }

  lemma PendingDone(t: seq<Node>, hi: int, o: Options, sort: Sorter, children: seq<Child>, size: nat,
                    selected: seq<int>, kids: seq<Child>, pushes: seq<int>)
    requires WellFormed(t) && 0 <= hi <= |t| && o.factor > 0 && DescendingSorter(sort)
    requires Pending(t, hi, hi, o, sort, children, size, selected, kids, pushes)
    ensures children == kids && size == 1 + Sizes(kids) && selected == pushes
  {
  }

  method PushLargest(t: seq<Node>, children: seq<Child>, count: nat, before: seq<int>) returns (selected: seq<int>)
    requires forall c | c in children :: c.id < |t|
    ensures selected == before + Centers(t, children[..Min(count, |children|)])
  {
    selected := before;
    var i := 0;
    ghost var all := children[..Min(count, |children|)];
    while i < count && i < |children|
      invariant 0 <= i <= |all|
      invariant selected + Centers(t, all[i..]) == before + Centers(t, all)
    {
      assert all[i..][1..] == all[i + 1..];
      ghost var rest := Centers(t, all[i + 1..]);
      assert selected + ([t[children[i].id].centerid] + rest) == selected + [t[children[i].id].centerid] + rest;
      selected := selected + [t[children[i].id].centerid];
      i := i + 1;
    }
    assert all[i..] == [];
  }

  // ---- The head set, through the nodes' center ids ----

  lemma {:induction false} CeilDivBounds(a: nat, b: int)
    requires b > 0
    ensures (CeilDiv(a, b) - 1) * b < a || a == 0 == CeilDiv(a, b)
    ensures a <= CeilDiv(a, b) * b
  {
    DivTimesLe(a + b - 1, b);
  }

  /** The unabsorbed children of a node: those of its range whose own weight is below the threshold. */
  lemma {:induction false} KidsAre(t: seq<Node>, j: nat, hi: int, select: int, c: Child)
    requires WellFormed(t) && j <= |t| && hi <= |t|
    ensures c in Kids(t, j, hi, select) <==> j <= c.id < hi && c.size == Weight(t, c.id, select) < select
    ensures multiset(Kids(t, j, hi, select))[c] <= 1
    decreases |t| - j
  {
    hide Kids, Weight, Residue;
    if j < hi {
      KidsAre(t, j + 1, hi, select, c);
      KidsStep(t, j, hi, select);
      ResidueIs(t, j, select);
      OneMoreKid(Child(j, Residue(t, j, select)), Kids(t, j + 1, hi, select), c);
    } else {
      NoKids(t, j, hi, select);
    }
  }

  lemma {:induction false} ResidueIs(t: seq<Node>, j: nat, select: int)
    requires WellFormed(t) && j < |t|
    ensures Residue(t, j, select) == if Weight(t, j, select) < select then Weight(t, j, select) else 0
    ensures Weight(t, j, select) > 0
  {
  }

  lemma {:induction false} NoKids(t: seq<Node>, j: nat, hi: int, select: int)
    requires WellFormed(t) && hi <= j <= |t|
    ensures Kids(t, j, hi, select) == []
  {
  }

  lemma {:induction false} OneMoreKid(k: Child, rest: seq<Child>, c: Child)
    ensures c in [k] + rest <==> c == k || c in rest
    ensures multiset([k] + rest)[c] == multiset(rest)[c] + if c == k then 1 else 0
    ensures c !in rest ==> multiset(rest)[c] == 0
  {
  }

  /** The children whose centers are pushed with that of node id, and the others. */
  ghost function Taken(t: seq<Node>, id: nat, o: Options, sort: Sorter): seq<Child>
    requires WellFormed(t) && id < |t| && o.factor > 0 && DescendingSorter(sort)
  {
    var w, kids := Weight(t, id, o.select), sort(Kids(t, Lo(t, id), Hi(t, id), o.select));
    kids[..if o.split < w && o.select <= w then Min(CeilDiv(w, o.factor), |kids|) else 0]
  }

  ghost function NotTaken(t: seq<Node>, id: nat, o: Options, sort: Sorter): seq<Child>
    requires WellFormed(t) && id < |t| && o.factor > 0 && DescendingSorter(sort)
  {
    sort(Kids(t, Lo(t, id), Hi(t, id), o.select))[|Taken(t, id, o, sort)|..]
  }

  /** Which children are taken: none unless the node is absorbing and past the split threshold, else weight / factor
      rounded up of them or all there are, and no child left out is larger than one taken. The children are those of
      the node's range with a weight below the select threshold, each once, with that weight as size. */
  lemma {:induction false} TakenAreLargest(t: seq<Node>, id: nat, o: Options, sort: Sorter, q: int)
    requires WellFormed(t) && id < |t| && o.factor > 0 && DescendingSorter(sort)
    ensures var taken, left, w := Taken(t, id, o, sort), NotTaken(t, id, o, sort), Weight(t, id, o.select);
            && (forall a, b | a in taken && b in left :: a.size >= b.size)
            && (o.split >= w || o.select > w ==> taken == [])
            && (o.split < w && o.select <= w && (q - 1) * o.factor < w <= q * o.factor ==>
                  |taken| == if q <= |taken| + |left| then q else |taken| + |left|)
  {
    var w, kids := Weight(t, id, o.select), sort(Kids(t, Lo(t, id), Hi(t, id), o.select));
    assert Sorts(sort, Kids(t, Lo(t, id), Hi(t, id), o.select));
    LargestFirst(kids, |Taken(t, id, o, sort)|);
    if (q - 1) * o.factor < w <= q * o.factor {
      OneCeiling(w, o.factor, q);
    }
  }

  lemma {:induction false} OneCeiling(w: nat, factor: int, q: int)
    requires factor > 0 && w > 0 && (q - 1) * factor < w <= q * factor
    ensures CeilDiv(w, factor) == q
  {
    CeilDivBounds(w, factor);
    var p := CeilDiv(w, factor);
    if p < q {
      MulLe(p, q - 1, factor);
    } else if q < p {
      MulLe(q, p - 1, factor);
    }
  }

  /** Every child is taken or not, once. */
  lemma {:induction false} TakenOrNot(t: seq<Node>, id: nat, o: Options, sort: Sorter, c: Child)
    requires WellFormed(t) && id < |t| && o.factor > 0 && DescendingSorter(sort)
    ensures var taken, left := Taken(t, id, o, sort), NotTaken(t, id, o, sort);
            multiset(taken)[c] + multiset(left)[c] ==
            if 0 <= t[id].childStart <= c.id < t[id].childEnd && c.size == Weight(t, c.id, o.select) < o.select then 1 else 0
  {
    hide Kids, Weight;
    var kids := Kids(t, Lo(t, id), Hi(t, id), o.select);
    KidsAre(t, Lo(t, id), Hi(t, id), o.select, c);
    assert Sorts(sort, kids);
    SplitCount(sort(kids), |Taken(t, id, o, sort)|, c);
    assert c in kids <==> c in multiset(kids);
  }

  lemma {:induction false} SplitCount<T>(s: seq<T>, n: nat, x: T)
    requires n <= |s|
    ensures multiset(s[..n])[x] + multiset(s[n..])[x] == multiset(s)[x]
  {
    assert s == s[..n] + s[n..];
  }

  /** x is the center id of an absorbing node and below that of the root, or of a child taken with such a node. */
  ghost predicate PushedAt(t: seq<Node>, id: int, o: Options, sort: Sorter, x: int)
    requires WellFormed(t) && o.factor > 0 && DescendingSorter(sort)
  {
    0 <= id < |t| && Weight(t, id, o.select) >= o.select &&
    ((x == t[id].centerid && t[id].centerid < t[0].centerid) ||
     exists c :: c in Taken(t, id, o, sort) && c.id < |t| && x == t[c.id].centerid)
  }

  lemma {:induction false} CentersAre(t: seq<Node>, c: seq<Child>, x: int)
    requires forall a | a in c :: a.id < |t|
    ensures x in Centers(t, c) <==> exists a :: a in c && a.id < |t| && x == t[a.id].centerid
  {
    if c != [] {
      CentersAre(t, c[1..], x);
      assert c == [c[0]] + c[1..];
    }
  }

  lemma {:induction false} OwnAre(t: seq<Node>, id: nat, o: Options, sort: Sorter, x: int)
    requires WellFormed(t) && id < |t| && o.factor > 0 && DescendingSorter(sort)
    ensures x in Own(t, id, o, sort) <==> PushedAt(t, id, o, sort, x)
  {
    SortedKidsAreNodes(t, id, o.select, sort);
    CentersAre(t, Taken(t, id, o, sort), x);
  }

  lemma {:induction false} PushesAre(t: seq<Node>, id: nat, o: Options, sort: Sorter, x: int)
    requires WellFormed(t) && id < |t| && o.factor > 0 && DescendingSorter(sort)
    ensures x in Pushes(t, id, o, sort) <==> exists p :: p in Subtree(t, id) && PushedAt(t, p, o, sort, x)
    decreases |t| - id, 0
  {
    hide PushedAt, Own;
    OwnAre(t, id, o, sort, x);
    KidPushesAre(t, Lo(t, id), Hi(t, id), o, sort, x);
  }

  lemma {:induction false} KidPushesAre(t: seq<Node>, j: nat, hi: int, o: Options, sort: Sorter, x: int)
    requires WellFormed(t) && j <= |t| && hi <= |t| && o.factor > 0 && DescendingSorter(sort)
    ensures x in KidPushes(t, j, hi, o, sort) <==> exists p :: p in KidTrees(t, j, hi) && PushedAt(t, p, o, sort, x)
    decreases |t| - j, 1
  {
    hide PushedAt, Own;
    if j < hi {
      PushesAre(t, j, o, sort, x);
      KidPushesAre(t, j + 1, hi, o, sort, x);
    }
  }

  /** The head set: exactly what is pushed at some node of the root's tree. */
  lemma {:induction false} HeadsAre(t: seq<Node>, o: Options, sort: Sorter, x: int)
    requires WellFormed(t) && o.factor > 0 && DescendingSorter(sort)
    ensures x in Heads(t, o, sort) <==> exists id :: id in Subtree(t, 0) && PushedAt(t, id, o, sort, x)
  {
    PushesAre(t, 0, o, sort, x);
  }

  lemma LargestFirst(kids: seq<Child>, n: nat)
    requires n <= |kids| && SortedBy((a: Child, b: Child) => a.size >= b.size, kids)
    ensures forall a, b | a in kids[..n] && b in kids[n..] :: a.size >= b.size
  {
    forall a, b | a in kids[..n] && b in kids[n..] ensures a.size >= b.size {
      var i :| 0 <= i < n && kids[i] == a;
      var j :| 0 <= j < |kids| - n && kids[n..][j] == b;
      assert kids[n + j] == b;
    }
  }

  // ---- Growing the split threshold only removes heads ----

  lemma {:induction false} PushesShrink(t: seq<Node>, id: nat, o: Options, split: int, sort: Sorter)
    requires WellFormed(t) && id < |t| && o.factor > 0 && DescendingSorter(sort) && o.split <= split
    ensures forall x | x in Pushes(t, id, o.(split := split), sort) :: x in Pushes(t, id, o, sort)
    decreases |t| - id, 0
  {
    KidPushesShrink(t, Lo(t, id), Hi(t, id), o, split, sort);
  }

  lemma {:induction false} KidPushesShrink(t: seq<Node>, j: nat, hi: int, o: Options, split: int, sort: Sorter)
    requires WellFormed(t) && j <= |t| && hi <= |t| && o.factor > 0 && DescendingSorter(sort) && o.split <= split
    ensures forall x | x in KidPushes(t, j, hi, o.(split := split), sort) :: x in KidPushes(t, j, hi, o, sort)
    decreases |t| - j, 1
  {
    if j < hi {
      PushesShrink(t, j, o, split, sort);
      KidPushesShrink(t, j + 1, hi, o, split, sort);
    }
  }

  /** The monotonicity the binary search relies on. */
  lemma HeadsShrink(t: seq<Node>, o: Options, split: int, sort: Sorter)
    requires WellFormed(t) && o.factor > 0 && DescendingSorter(sort) && o.split <= split
    ensures Heads(t, o.(split := split), sort) <= Heads(t, o, sort)
    ensures |Heads(t, o.(split := split), sort)| <= |Heads(t, o, sort)|
  {
    PushesShrink(t, 0, o, split, sort);
    forall x | x in Heads(t, o.(split := split), sort) ensures x in Heads(t, o, sort) {
    }
    SubsetSize(Heads(t, o.(split := split), sort), Heads(t, o, sort));
  }

  // ---- std::sort and std::unique on the pushed ids ----

  ghost predicate StrictlyAscending(s: seq<int>) {
    forall i, j | 0 <= i < j < |s| :: s[i] < s[j]
  }

  function Unique(s: seq<int>): (r: seq<int>)
    requires SortedBy((a: int, b: int) => a <= b, s)
    ensures StrictlyAscending(r)
    ensures forall x :: x in r <==> x in s
    ensures s != [] ==> r != [] && r[0] == s[0]
  {
    if |s| <= 1 then s
    else if s[0] == s[1] then Unique(s[1..])
    else
      var rest := Unique(s[1..]);
      assert forall x | x in rest :: x in s[1..] && s[0] < x;
      [s[0]] + rest
  }

  /** The ids without duplicates, in ascending order. */
  function SortedUnique(s: seq<int>): (r: seq<int>)
    ensures StrictlyAscending(r)
    ensures forall x :: x in r <==> x in s
  {
    var sorted := Sort((a: int, b: int) => a <= b, s);
    assert forall x :: x in sorted <==> x in multiset(sorted);
    assert forall x :: x in s <==> x in multiset(s);
    Unique(sorted)
  }

  lemma SortedUniqueSize(s: seq<int>)
    ensures |SortedUnique(s)| == |set x | x in s|
  {
    DistinctSize(SortedUnique(s));
    assert (set x | x in SortedUnique(s)) == set x | x in s;
  }

  // ---- SelectHeadDynamically_Old: the search over both thresholds ----

  function Abs(x: real): real {
    if x >= 0.0 then x else -x
  }

  /** `std::round`: halves go away from zero. */
  function Round(x: real): int {
    if x >= 0.0 then (x + 0.5).Floor else -((0.5 - x).Floor)
  }

  /** The nearest integer, and of two as near the one farther from zero. */
  lemma {:induction false} RoundIsNearest(x: real)
    ensures x >= 0.0 ==> Round(x) >= 0 && Round(x) as real - 0.5 <= x < Round(x) as real + 0.5
    ensures x <= 0.0 ==> Round(x) <= 0 && Round(x) as real - 0.5 < x <= Round(x) as real + 0.5
  {
  }

  /** Signed distance of the head ratio from the wanted ratio. */
  ghost function Diff(t: seq<Node>, o: Options, sort: Sorter, n: int, ratio: real): real
    requires WellFormed(t) && o.factor > 0 && DescendingSorter(sort) && n > 0
  {
    |Heads(t, o, sort)| as real / n as real - ratio
  }

  ghost predicate OnGrid(p: Options, o: Options) {
    2 <= p.select <= o.select && o.factor < p.split < o.split && p.factor == o.factor
  }

  lemma DiffFalls(t: seq<Node>, o: Options, split: int, sort: Sorter, n: int, ratio: real)
    requires WellFormed(t) && o.factor > 0 && DescendingSorter(sort) && n > 0 && o.split <= split
    ensures Diff(t, o.(split := split), sort, n, ratio) <= Diff(t, o, sort, n, ratio)
  {
    HeadsShrink(t, o, split, sort);
    var a, b := |Heads(t, o.(split := split), sort)| as real, |Heads(t, o, sort)| as real;
    assert a / n as real <= b / n as real;
  }

  /** What the probes of one value of `select` leave behind: l and r bracket the sign change. */
  ghost predicate Bracket(t: seq<Node>, o: Options, sort: Sorter, n: int, ratio: real, select: int, l: int, r: int, best: real)
    requires WellFormed(t) && o.factor > 0 && DescendingSorter(sort) && n > 0
  {
    && o.factor <= l && r <= o.split
    && (o.factor < l ==> best <= Diff(t, Options(select, l, o.factor), sort, n, ratio) &&
                         0.0 < Diff(t, Options(select, l, o.factor), sort, n, ratio))
    && (r < o.split ==> best <= -Diff(t, Options(select, r, o.factor), sort, n, ratio) &&
                        Diff(t, Options(select, r, o.factor), sort, n, ratio) <= 0.0)
  }

  /** Once the bracket has closed, no unprobed split threshold can do better than the best probe. */
  lemma BracketCoversRow(t: seq<Node>, o: Options, sort: Sorter, n: int, ratio: real, select: int, l: int, r: int,
                         best: real, split: int)
    requires WellFormed(t) && o.factor > 0 && DescendingSorter(sort) && n > 0
    requires Bracket(t, o, sort, n, ratio, select, l, r, best) && l >= r - 1
    requires o.factor < split < o.split
    ensures best <= Abs(Diff(t, Options(select, split, o.factor), sort, n, ratio))
  {
    if split <= l {
      DiffFalls(t, Options(select, split, o.factor), l, sort, n, ratio);
    } else {
      DiffFalls(t, Options(select, r, o.factor), split, sort, n, ratio);
    }
  }

  /** `best` is the smallest distance among 100 and the grid rows below `select`; `chosen` attains it. */
  ghost predicate BestBelow(t: seq<Node>, o: Options, sort: Sorter, n: int, ratio: real, select: int, best: real, chosen: Options)
    requires WellFormed(t) && o.factor > 0 && DescendingSorter(sort) && n > 0
  {
    && (forall p | OnGrid(p, o) && p.select < select :: best <= Abs(Diff(t, p, sort, n, ratio)))
    && BestAttained(t, o, sort, n, ratio, best, chosen)
  }

  ghost predicate BestAttained(t: seq<Node>, o: Options, sort: Sorter, n: int, ratio: real, best: real, chosen: Options)
    requires WellFormed(t) && o.factor > 0 && DescendingSorter(sort) && n > 0
  {
    if OnGrid(chosen, o) && best < 100.0 then best == Abs(Diff(t, chosen, sort, n, ratio))
    else chosen == o && best == 100.0
  }

  /** Visit the tree from the root, then sort and deduplicate the pushed ids. */
  method Probe(t: seq<Node>, o: Options, sort: Sorter) returns (selected: seq<int>)
    requires WellFormed(t) && o.factor > 0 && DescendingSorter(sort)
    ensures StrictlyAscending(selected)
    ensures forall x :: x in selected <==> x in Heads(t, o, sort)
    ensures |selected| == |Heads(t, o, sort)|
  {
    var _, pushed := SelectInternal(t, 0, o, sort, []);
    assert pushed == Pushes(t, 0, o, sort);
    SortedUniqueSize(pushed);
    selected := SortedUnique(pushed);
  }

  /** One row of the search: the binary search on the split threshold for a fixed `select`. */
  method SearchRow(t: seq<Node>, o: Options, sort: Sorter, n: int, ratio: real, select: int, best0: real, chosen0: Options)
    returns (best: real, chosen: Options)
    requires WellFormed(t) && o.factor > 0 && DescendingSorter(sort) && n > 0 && 2 <= select <= o.select
    requires BestBelow(t, o, sort, n, ratio, select, best0, chosen0)
    ensures BestBelow(t, o, sort, n, ratio, select + 1, best, chosen)
  {
    best, chosen := best0, chosen0;
    var l, r := o.factor, o.split;
    while l < r - 1
      invariant best <= best0
      invariant BestAttained(t, o, sort, n, ratio, best, chosen)
      invariant Bracket(t, o, sort, n, ratio, select, l, r, best)
      decreases r - l
    {
      var probe := Options(select, (l + r) / 2, o.factor);
      var selected := Probe(t, probe, sort);
      var diff := |selected| as real / n as real - ratio;
      assert diff == Diff(t, probe, sort, n, ratio);
      if best > Abs(diff) {
        best, chosen := Abs(diff), probe;
      }
      if diff > 0.0 {
        l := (l + r) / 2;
      } else {
        r := (l + r) / 2;
      }
    }
    forall p | OnGrid(p, o) && p.select < select + 1
      ensures best <= Abs(Diff(t, p, sort, n, ratio))
    {
      if p.select == select {
        BracketCoversRow(t, o, sort, n, ratio, select, l, r, best, p.split);
        assert p == Options(select, p.split, o.factor);
      }
    }
  }

  /** The head ids returned past the early return are the deduplicated pushes of the chosen thresholds.
      If some grid pair lies within 100 of the wanted ratio, the chosen pair is a grid pair and no grid pair
      is closer; otherwise the search keeps the thresholds it was given. */
  method SelectHeadDynamicallyOld(t: seq<Node>, n: int, ratio: real, o: Options, sort: Sorter)
    returns (selected: seq<int>, chosen: Options)
    requires WellFormed(t) && n >= 0 && o.factor > 0 && DescendingSorter(sort)
    ensures StrictlyAscending(selected)
    ensures Round(ratio * n as real) >= n ==> |selected| == n && forall i | 0 <= i < n :: selected[i] == i
    ensures Round(ratio * n as real) < n ==> n > 0 && chosen.factor == o.factor
    ensures Round(ratio * n as real) < n ==> forall x :: x in selected <==> x in Heads(t, chosen, sort)
    ensures Round(ratio * n as real) < n ==>
              if exists p :: OnGrid(p, o) && Abs(Diff(t, p, sort, n, ratio)) < 100.0 then
                && OnGrid(chosen, o)
                && forall p | OnGrid(p, o) :: Abs(Diff(t, chosen, sort, n, ratio)) <= Abs(Diff(t, p, sort, n, ratio))
              else
                chosen == o
    ensures Round(ratio * n as real) < n && chosen != o ==>
              && 2 <= chosen.select <= o.select && o.factor < chosen.split < o.split
              && forall select, split | 2 <= select <= o.select && o.factor < split < o.split ::
                   var heads := |Heads(t, Options(select, split, o.factor), sort)|;
                   Abs(|selected| as real / n as real - ratio) <= Abs(heads as real / n as real - ratio)
  {
    chosen := o;
    if Round(ratio * n as real) >= n {
      selected := [];
      var i := 0;
      while i < n
        invariant 0 <= i <= n && |selected| == i
        invariant forall j | 0 <= j < i :: selected[j] == j
      {
        selected := selected + [i];
        i := i + 1;
      }
      return;
    }
    var best := 100.0;
    var select := 2;
    while select <= o.select
      invariant 2 <= select
      invariant n > 0 && BestBelow(t, o, sort, n, ratio, select, best, chosen)
    {
      best, chosen := SearchRow(t, o, sort, n, ratio, select, best, chosen);
      select := select + 1;
    }
    assert forall p | OnGrid(p, o) :: best <= Abs(Diff(t, p, sort, n, ratio));
    selected := Probe(t, chosen, sort);
  }

  // ---- When the search is certain to stay on the grid ----

  /** The nodes of s carry ids of vectors below the bound. The node with id -1 that closes the array of a built tree
      is in no subtree. */
  ghost predicate CentersBelow(t: seq<Node>, s: set<int>, bound: int) {
    forall i | i in s && 0 <= i < |t| :: 0 <= t[i].centerid < bound
  }

  lemma {:induction false} CentersBounded(t: seq<Node>, c: seq<Child>, s: set<int>, bound: int)
    requires CentersBelow(t, s, bound) && forall x | x in c :: x.id < |t| && x.id in s
    ensures forall x | x in Centers(t, c) :: 0 <= x < bound
  {
    if c != [] {
      CentersBounded(t, c[1..], s, bound);
    }
  }

  lemma {:induction false} KidsInTrees(t: seq<Node>, j: nat, hi: int, select: int)
    requires WellFormed(t) && j <= |t| && hi <= |t|
    ensures forall c | c in Kids(t, j, hi, select) :: c.id < |t| && c.id in KidTrees(t, j, hi)
    decreases |t| - j
  {
    if j < hi {
      KidsInTrees(t, j + 1, hi, select);
      assert j in Subtree(t, j);
    }
  }

  lemma SettledBounded(t: seq<Node>, id: nat, o: Options, kids: seq<Child>, w: nat, count: nat, s: set<int>, bound: int)
    requires id < |t| && id in s && (forall c | c in kids :: c.id < |t| && c.id in s) && CentersBelow(t, s, bound)
    ensures forall x | x in Settled(t, id, o, kids, w, count) :: 0 <= x < bound
  {
    CentersBounded(t, kids[..Min(count, |kids|)], s, bound);
  }

  lemma SortedKidsInTree(t: seq<Node>, id: nat, select: int, sort: Sorter)
    requires WellFormed(t) && id < |t| && DescendingSorter(sort)
    ensures forall c | c in sort(Kids(t, Lo(t, id), Hi(t, id), select)) :: c.id < |t| && c.id in Subtree(t, id)
  {
    var kids := Kids(t, Lo(t, id), Hi(t, id), select);
    KidsInTrees(t, Lo(t, id), Hi(t, id), select);
    assert Sorts(sort, kids);
    forall c | c in sort(kids) ensures c in kids {
      PermutationMember(sort(kids), kids, c);
    }
  }

  lemma {:induction false} OwnBounded(t: seq<Node>, id: nat, o: Options, sort: Sorter, bound: int)
    requires WellFormed(t) && id < |t| && o.factor > 0 && DescendingSorter(sort)
    requires CentersBelow(t, Subtree(t, id), bound)
    ensures forall x | x in Own(t, id, o, sort) :: 0 <= x < bound
  {
    var w, kids := Weight(t, id, o.select), sort(Kids(t, Lo(t, id), Hi(t, id), o.select));
    SortedKidsInTree(t, id, o.select, sort);
    SettledBounded(t, id, o, kids, w, CeilDiv(w, o.factor), Subtree(t, id), bound);
  }

  lemma {:induction false} PushesBounded(t: seq<Node>, id: nat, o: Options, sort: Sorter, bound: int)
    requires WellFormed(t) && id < |t| && o.factor > 0 && DescendingSorter(sort)
    requires CentersBelow(t, Subtree(t, id), bound)
    ensures forall x | x in Pushes(t, id, o, sort) :: 0 <= x < bound
    decreases |t| - id, 0
  {
    KidPushesBounded(t, Lo(t, id), Hi(t, id), o, sort, bound);
    OwnBounded(t, id, o, sort, bound);
  }

  lemma {:induction false} KidPushesBounded(t: seq<Node>, j: nat, hi: int, o: Options, sort: Sorter, bound: int)
    requires WellFormed(t) && j <= |t| && hi <= |t| && o.factor > 0 && DescendingSorter(sort)
    requires CentersBelow(t, KidTrees(t, j, hi), bound)
    ensures forall x | x in KidPushes(t, j, hi, o, sort) :: 0 <= x < bound
    decreases |t| - j, 1
  {
    if j < hi {
      PushesBounded(t, j, o, sort, bound);
      KidPushesBounded(t, j + 1, hi, o, sort, bound);
    }
  }

  ghost function Upto(n: nat): (s: set<int>)
    ensures |s| == n
    ensures forall x :: x in s <==> 0 <= x < n
  {
    if n == 0 then {} else Upto(n - 1) + {n - 1}
  }

  lemma RealMulLe(a: real, b: real, m: real)
    requires m > 0.0
    ensures a <= b <==> a * m <= b * m
  {
    assert (b - a) * m >= 0.0 <==> b - a >= 0.0;
    assert (b - a) * m == b * m - a * m;
  }

  lemma QuotientBounds(x: real, m: real)
    requires 1.0 <= m && 0.0 <= x <= m + 1.0
    ensures 0.0 <= x / m <= 2.0
  {
    var q := x / m;
    assert q * m == x;
    RealMulLe(q, 2.0, m);
    RealMulLe(0.0, q, m);
  }

  lemma RoundBelow(x: real, n: int)
    requires n > 0 && Round(x) < n
    ensures x < n as real
  {
    if x >= 0.0 {
      assert (x + 0.5).Floor <= n - 1;
      assert x + 0.5 < (x + 0.5).Floor as real + 1.0;
    }
  }

  lemma RatioBelow(ratio: real, m: real, x: real)
    requires m > 0.0 && x == ratio * m && x < m
    ensures ratio < 1.0
  {
    RealMulLe(1.0, ratio, m);
  }

  lemma RatioBounds(h: nat, n: int, ratio: real, x: real)
    requires n > 0 && h <= n + 1 && -98.0 < ratio && x == ratio * n as real && Round(x) < n
    ensures Abs(h as real / n as real - ratio) < 100.0
  {
    QuotientBounds(h as real, n as real);
    RoundBelow(x, n);
    RatioBelow(ratio, n as real, x);
  }

  /** With center ids of vectors (and the root's own id n) in the tree of the root and a ratio above -98, every
      distance is below 100, so the search never falls back to the thresholds it was given. */
  lemma GridAlwaysBelowStart(t: seq<Node>, o: Options, sort: Sorter, n: int, ratio: real)
    requires WellFormed(t) && o.factor > 0 && DescendingSorter(sort) && n > 0
    requires CentersBelow(t, Subtree(t, 0), n + 1) && -98.0 < ratio && Round(ratio * n as real) < n
    ensures Abs(Diff(t, o, sort, n, ratio)) < 100.0
  {
    PushesBounded(t, 0, o, sort, n + 1);
    assert forall x | x in Heads(t, o, sort) :: x in Pushes(t, 0, o, sort);
    SubsetSize(Heads(t, o, sort), Upto(n + 1));
    RatioBounds(|Heads(t, o, sort)|, n, ratio, ratio * n as real);
  }

  // ---- Conservation and packing ----

  /** Sizes of the nodes absorbed into heads in the subtree of `id`, in visiting order. */
  function Absorbed(t: seq<Node>, id: nat, select: int): seq<nat>
    requires WellFormed(t) && id < |t|
    decreases |t| - id, 0
  {
    var w := Weight(t, id, select);
    KidsAbsorbed(t, Lo(t, id), Hi(t, id), select) + if w >= select then [w] else []
  }

  function KidsAbsorbed(t: seq<Node>, j: nat, hi: int, select: int): seq<nat>
    requires WellFormed(t) && j <= |t| && hi <= |t|
    decreases |t| - j, 1
  {
    if j >= hi then [] else Absorbed(t, j, select) + KidsAbsorbed(t, j + 1, hi, select)
  }

  function NodeCount(t: seq<Node>, id: nat): nat
    requires WellFormed(t) && id < |t|
    decreases |t| - id, 0
  {
    1 + KidsCount(t, Lo(t, id), Hi(t, id))
  }

  function KidsCount(t: seq<Node>, j: nat, hi: int): nat
    requires WellFormed(t) && j <= |t| && hi <= |t|
    decreases |t| - j, 1
  {
    if j >= hi then 0 else NodeCount(t, j) + KidsCount(t, j + 1, hi)
  }

  function Sum(s: seq<nat>): nat {
    if s == [] then 0 else s[0] + Sum(s[1..])
  }

  lemma {:induction false} SumConcat(a: seq<nat>, b: seq<nat>)
    ensures Sum(a + b) == Sum(a) + Sum(b)
  {
    if a == [] {
      assert a + b == b;
    } else {
      assert (a + b)[1..] == a[1..] + b;
      SumConcat(a[1..], b);
    }
  }

  /** Every node of the subtree is either still carried by the residue or was absorbed exactly once. */
  lemma {:induction false} Conservation(t: seq<Node>, id: nat, select: int)
    requires WellFormed(t) && id < |t|
    ensures NodeCount(t, id) == Residue(t, id, select) + Sum(Absorbed(t, id, select))
    ensures select >= 1 ==> Residue(t, id, select) < select
    ensures forall w | w in Absorbed(t, id, select) :: w >= select
    decreases |t| - id, 0
  {
    var w := Weight(t, id, select);
    KidsConservation(t, Lo(t, id), Hi(t, id), select);
    SumConcat(KidsAbsorbed(t, Lo(t, id), Hi(t, id), select), if w >= select then [w] else []);
  }

  lemma {:induction false} KidsConservation(t: seq<Node>, j: nat, hi: int, select: int)
    requires WellFormed(t) && j <= |t| && hi <= |t|
    ensures KidsCount(t, j, hi) == Sizes(Kids(t, j, hi, select)) + Sum(KidsAbsorbed(t, j, hi, select))
    ensures forall w | w in KidsAbsorbed(t, j, hi, select) :: w >= select
    decreases |t| - j, 1
  {
    if j < hi {
      Conservation(t, j, select);
      KidsConservation(t, j + 1, hi, select);
      SumConcat(Absorbed(t, j, select), KidsAbsorbed(t, j + 1, hi, select));
      KidsStep(t, j, hi, select);
    }
  }

  /** Upper bound on the ids pushed at absorbing nodes of the given sizes. */
  function PushBudget(sizes: seq<nat>, factor: int): nat
    requires factor > 0
  {
    if sizes == [] then 0 else 2 + sizes[0] / factor + PushBudget(sizes[1..], factor)
  }

  lemma {:induction false} PushBudgetConcat(a: seq<nat>, b: seq<nat>, factor: int)
    requires factor > 0
    ensures PushBudget(a + b, factor) == PushBudget(a, factor) + PushBudget(b, factor)
  {
    if a == [] {
      assert a + b == b;
    } else {
      assert (a + b)[1..] == a[1..] + b;
      PushBudgetConcat(a[1..], b, factor);
    }
  }

  lemma {:induction false} PushBudgetBound(sizes: seq<nat>, factor: int)
    requires factor > 0
    ensures PushBudget(sizes, factor) <= 2 * |sizes| + Sum(sizes) / factor
  {
    if sizes != [] {
      PushBudgetBound(sizes[1..], factor);
      DivSuperadditive(sizes[0], Sum(sizes[1..]), factor);
    }
  }

  lemma {:induction false} AbsorbedCount(sizes: seq<nat>, select: nat)
    requires forall w | w in sizes :: w >= select
    ensures |sizes| * select <= Sum(sizes)
  {
    if sizes != [] {
      assert forall w | w in sizes[1..] :: w in sizes;
      AbsorbedCount(sizes[1..], select);
      assert sizes[0] in sizes;
      assert |sizes| * select == select + |sizes[1..]| * select;
    }
  }

  lemma CeilDivBound(a: nat, f: int)
    requires f > 0
    ensures CeilDiv(a, f) <= a / f + 1
  {
    DivTimesLe(a, f);
    DivModUnique(a + f, f, a / f + 1, a % f);
    DivMonotone(a + f - 1, a + f, f);
  }

  /** A node pushes at most its own center and, when it is split, weight / factor rounded up more. */
  lemma OwnWithinBudget(t: seq<Node>, id: nat, o: Options, sort: Sorter)
    requires WellFormed(t) && id < |t| && o.factor > 0 && DescendingSorter(sort)
    ensures var w := Weight(t, id, o.select);
            |Own(t, id, o, sort)| <= if w >= o.select then 2 + w / o.factor else 0
  {
    CeilDivBound(Weight(t, id, o.select), o.factor);
  }

  lemma {:induction false} PushesWithinBudget(t: seq<Node>, id: nat, o: Options, sort: Sorter)
    requires WellFormed(t) && id < |t| && o.factor > 0 && DescendingSorter(sort)
    ensures |Pushes(t, id, o, sort)| <= PushBudget(Absorbed(t, id, o.select), o.factor)
    decreases |t| - id, 0
  {
    var w := Weight(t, id, o.select);
    KidPushesWithinBudget(t, Lo(t, id), Hi(t, id), o, sort);
    PushBudgetConcat(KidsAbsorbed(t, Lo(t, id), Hi(t, id), o.select), if w >= o.select then [w] else [], o.factor);
    OwnWithinBudget(t, id, o, sort);
  }

  lemma {:induction false} NoKidPushes(t: seq<Node>, j: nat, hi: int, o: Options, sort: Sorter)
    requires WellFormed(t) && hi <= j <= |t| && o.factor > 0 && DescendingSorter(sort)
    ensures KidPushes(t, j, hi, o, sort) == []
  {
  }

  lemma {:induction false} KidPushesSplit(t: seq<Node>, j: nat, hi: int, o: Options, sort: Sorter)
    requires WellFormed(t) && j < hi <= |t| && o.factor > 0 && DescendingSorter(sort)
    ensures |KidPushes(t, j, hi, o, sort)| == |Pushes(t, j, o, sort)| + |KidPushes(t, j + 1, hi, o, sort)|
  {
  }

  lemma {:induction false} BudgetSplit(t: seq<Node>, j: nat, hi: int, select: int, factor: int)
    requires WellFormed(t) && j < hi <= |t| && factor > 0
    ensures PushBudget(KidsAbsorbed(t, j, hi, select), factor) ==
            PushBudget(Absorbed(t, j, select), factor) + PushBudget(KidsAbsorbed(t, j + 1, hi, select), factor)
  {
    PushBudgetConcat(Absorbed(t, j, select), KidsAbsorbed(t, j + 1, hi, select), factor);
  }

  lemma {:induction false} KidPushesWithinBudget(t: seq<Node>, j: nat, hi: int, o: Options, sort: Sorter)
    requires WellFormed(t) && j <= |t| && hi <= |t| && o.factor > 0 && DescendingSorter(sort)
    ensures |KidPushes(t, j, hi, o, sort)| <= PushBudget(KidsAbsorbed(t, j, hi, o.select), o.factor)
    decreases |t| - j, 1
  {
    hide Pushes, KidPushes, Absorbed, KidsAbsorbed, PushBudget;
    if j >= hi {
      NoKidPushes(t, j, hi, o, sort);
    } else {
      PushesWithinBudget(t, j, o, sort);
      KidPushesWithinBudget(t, j + 1, hi, o, sort);
      KidPushesSplit(t, j, hi, o, sort);
      BudgetSplit(t, j, hi, o.select, o.factor);
    }
  }

  /** With A absorbing nodes: A * select <= nodes, and at most 2A + nodes / factor ids are pushed. */
  lemma Packing(t: seq<Node>, id: nat, o: Options, sort: Sorter)
    requires WellFormed(t) && id < |t| && o.factor > 0 && o.select >= 1 && DescendingSorter(sort)
    ensures |Absorbed(t, id, o.select)| * o.select <= NodeCount(t, id)
    ensures |Pushes(t, id, o, sort)| <= 2 * |Absorbed(t, id, o.select)| + NodeCount(t, id) / o.factor
  {
    Conservation(t, id, o.select);
    AbsorbedCount(Absorbed(t, id, o.select), o.select);
    PushesWithinBudget(t, id, o, sort);
    PushBudgetBound(Absorbed(t, id, o.select), o.factor);
    DivMonotone(Sum(Absorbed(t, id, o.select)), NodeCount(t, id), o.factor);
  }

  // ---- With unique parents, a visit counts every node of the array at most once ----

  ghost predicate HasChild(t: seq<Node>, p: nat, j: int) {
    p < |t| && 0 <= t[p].childStart <= j < t[p].childEnd
  }

  ghost predicate UniqueParent(t: seq<Node>) {
    forall p, q, j | HasChild(t, p, j) && HasChild(t, q, j) :: p == q
  }

  ghost function Subtree(t: seq<Node>, id: nat): (s: set<int>)
    requires WellFormed(t) && id < |t|
    ensures forall x | x in s :: id <= x < |t|
    decreases |t| - id, 0
  {
    {id} + KidTrees(t, Lo(t, id), Hi(t, id))
  }

  ghost function KidTrees(t: seq<Node>, j: nat, hi: int): (s: set<int>)
    requires WellFormed(t) && j <= |t| && hi <= |t|
    ensures forall x | x in s :: j <= x < |t|
    decreases |t| - j, 1
  {
    if j >= hi then {} else Subtree(t, j) + KidTrees(t, j + 1, hi)
  }

  lemma {:induction false} ParentInside(t: seq<Node>, id: nat, x: int) returns (p: nat)
    requires WellFormed(t) && id < |t| && x in Subtree(t, id) && x != id
    ensures p in Subtree(t, id) && HasChild(t, p, x)
    decreases |t| - id
  {
    var j, hi := Lo(t, id), Hi(t, id);
    while j < hi && x !in Subtree(t, j)
      invariant Lo(t, id) <= j <= |t| && x in KidTrees(t, j, hi)
      invariant KidTrees(t, j, hi) <= KidTrees(t, Lo(t, id), hi)
    {
      j := j + 1;
    }
    if x == j {
      p := id;
    } else {
      p := ParentInside(t, j, x);
    }
  }

  lemma {:induction false} SiblingsDisjoint(t: seq<Node>, p: nat, a: nat, b: nat, x: int)
    requires WellFormed(t) && UniqueParent(t) && HasChild(t, p, a) && HasChild(t, p, b) && a != b
    requires x in Subtree(t, a)
    ensures x !in Subtree(t, b)
    decreases x
  {
    if x in Subtree(t, b) {
      if x == a {
        var q := ParentInside(t, b, x);
      } else if x == b {
        var q := ParentInside(t, a, x);
      } else {
        var q := ParentInside(t, a, x);
        var r := ParentInside(t, b, x);
        SiblingsDisjoint(t, p, a, b, q);
      }
    }
  }

  lemma {:induction false} TreeDisjointFromLater(t: seq<Node>, p: nat, a: nat, j: nat, x: int)
    requires WellFormed(t) && UniqueParent(t) && HasChild(t, p, a) && a < j <= t[p].childEnd
    requires x in Subtree(t, a)
    ensures x !in KidTrees(t, j, t[p].childEnd)
    decreases |t| - j
  {
    if j < t[p].childEnd {
      SiblingsDisjoint(t, p, a, j, x);
      TreeDisjointFromLater(t, p, a, j + 1, x);
    }
  }

  lemma DisjointFromLater(t: seq<Node>, p: nat, j: nat)
    requires WellFormed(t) && UniqueParent(t) && HasChild(t, p, j)
    ensures |Subtree(t, j) + KidTrees(t, j + 1, t[p].childEnd)| == |Subtree(t, j)| + |KidTrees(t, j + 1, t[p].childEnd)|
  {
    var a, b := Subtree(t, j), KidTrees(t, j + 1, t[p].childEnd);
    forall x | x in a ensures x !in b {
      TreeDisjointFromLater(t, p, j, j + 1, x);
    }
    assert a !! b;
  }

  lemma {:induction false} CountIsSize(t: seq<Node>, id: nat)
    requires WellFormed(t) && UniqueParent(t) && id < |t|
    ensures NodeCount(t, id) == |Subtree(t, id)|
    decreases |t| - id, 0
  {
    if t[id].childStart >= 0 {
      KidsCountIsSize(t, id, Lo(t, id));
    }
  }

  lemma {:induction false} KidsCountIsSize(t: seq<Node>, p: nat, j: nat)
    requires WellFormed(t) && UniqueParent(t) && p < |t| && 0 <= t[p].childStart <= j <= t[p].childEnd
    ensures KidsCount(t, j, t[p].childEnd) == |KidTrees(t, j, t[p].childEnd)|
    decreases |t| - j, 1
  {
    if j < t[p].childEnd {
      CountIsSize(t, j);
      KidsCountIsSize(t, p, j + 1);
      DisjointFromLater(t, p, j);
    }
  }

  /** In a tree with unique parents a visit from the root absorbs at most |t| / select nodes and pushes at
      most 2A + |t| / factor ids. */
  lemma PackingOfTree(t: seq<Node>, o: Options, sort: Sorter)
    requires WellFormed(t) && UniqueParent(t) && o.factor > 0 && o.select >= 1 && DescendingSorter(sort)
    ensures |Absorbed(t, 0, o.select)| <= |t| / o.select
    ensures |Pushes(t, 0, o, sort)| <= 2 * |Absorbed(t, 0, o.select)| + |t| / o.factor
  {
    CountIsSize(t, 0);
    SubsetSize(Subtree(t, 0), Upto(|t|));
    Packing(t, 0, o, sort);
    DivGalois(|t|, |Absorbed(t, 0, o.select)|, o.select);
    DivMonotone(NodeCount(t, 0), |t|, o.factor);
  }
}
