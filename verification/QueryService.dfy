/** The client and server objects of the query pipeline. */
module QueryService {
  import opened Collections
  import opened QueryText
  import opened Query
  import Base64

  function FirstNul(t: Text): (k: nat)
    ensures k <= |t| && (k < |t| ==> t[k] == NUL)
  {
    if t == [] || t[0] == NUL then 0 else 1 + FirstNul(t[1..])
  }

  lemma {:induction false} BeforeNul(t: Text, k: nat)
    requires k < FirstNul(t)
    ensures t[k] != NUL
  {
    if k > 0 {
      BeforeNul(t[1..], k - 1);
    }
  }

  /** A query as the parser sees it: up to the first terminator. */
  function Seen(query: Text): Text {
    query[..FirstNul(query)]
  }

  /** The vector token begins with a character that stays, and once it is closed its end lies behind its begin. */
  ghost predicate VectorOk(s: Scan, b: Text) {
    && (s.mode.Vector? ==> s.vectorBegin.At?)
    && (s.vectorBegin.At? ==> s.vectorBegin.p < |b| && b[s.vectorBegin.p] != NUL)
    && (s.vectorBegin.At? && !s.mode.Vector? ==>
          s.vectorEnd.At? && s.vectorBegin.p < s.vectorEnd.p <= |b| && s.dimension > 0)
  }

  lemma {:induction false} VectorStep(s: Scan, b: Text, c: Byte, separators: Text)
    requires VectorOk(s, b) && c != NUL
    ensures VectorOk(Step(s, c, |b|, separators), b + [Left(s.mode, c, separators)])
  {
    var n := b + [Left(s.mode, c, separators)];
    assert forall p | 0 <= p < |b| :: n[p] == b[p];
    assert n[|b|] == Left(s.mode, c, separators);
  }

  /** Where a call starts: a parser that was used before keeps its Base64 pointer and length. */
  function Restart(was: Scan): Scan {
    Begin().(base64 := was.base64, base64Length := was.base64Length)
  }

  /** A scan that found no Base64 token, with the earlier call's pointer and length in place of none. */
  function Stale(was: Scan, s: Scan): Scan {
    if s.base64.Null? then s.(base64 := was.base64, base64Length := was.base64Length) else s
  }

  /** Two scans of the same text, the second by a used parser: they differ in the Base64 fields until the text has set
      them, the length only once the token is closed. */
  ghost predicate Alike(was: Scan, s: Scan, r: Scan) {
    && r == s.(base64 := r.base64, base64Length := r.base64Length)
    && (s.base64.Null? ==> !s.mode.Base64? && r.base64 == was.base64 && r.base64Length == was.base64Length)
    && (s.base64.At? ==> r.base64 == s.base64 && (s.mode.Base64? || r.base64Length == s.base64Length))
  }

  lemma {:induction false} StepAlike(was: Scan, s: Scan, r: Scan, c: Byte, i: nat, separators: Text)
    requires Alike(was, s, r)
    ensures Alike(was, Step(s, c, i, separators), Step(r, c, i, separators))
  {
  }

  lemma {:induction false} RunAlike(was: Scan, s: Scan, r: Scan, t: Text, i: nat, separators: Text)
    requires Alike(was, s, r)
    ensures Alike(was, Run(s, t, i, separators), Run(r, t, i, separators))
    ensures Bytes(s, t, i, separators) == Bytes(r, t, i, separators)
    decreases |t|
  {
    hide Step, Left;
    if t != [] {
      StepAlike(was, s, r, t[0], i, separators);
      RunAlike(was, Step(s, t[0], i, separators), Step(r, t[0], i, separators), t[1..], i + 1, separators);
    }
  }

  /** A used parser ends like a new one, but for a Base64 token that the text does not have. */
  lemma {:induction false} RestartedEnd(was: Scan, t: Text, separators: Text)
    ensures Close(Run(Restart(was), t, 0, separators), |t|) == Stale(was, FinalScan(t, separators))
    ensures Bytes(Restart(was), t, 0, separators) + [NUL] == FinalBuffer(t, separators)
  {
    hide Run;
    RunAlike(was, Begin(), Restart(was), t, 0, separators);
  }

  /** The state of the parse loop after the first i characters. */
  ghost predicate Parsing(start: Scan, s: Scan, b: Text, query: Text, i: nat, separators: Text) {
    && i <= FirstNul(query) && |b| == i
    && s == Run(start, query[..i], 0, separators) && b == Bytes(start, query[..i], 0, separators) && VectorOk(s, b)
  }

  lemma {:induction false} ParsingFirst(start: Scan, query: Text, separators: Text)
    requires start == Restart(start)
    ensures Parsing(start, start, [], query, 0, separators)
  {
  }

  /** At the terminator the loop has gone through what the parser sees of the query. */
  lemma {:induction false} ParsingLast(start: Scan, s: Scan, b: Text, query: Text, i: nat, separators: Text)
    requires Parsing(start, s, b, query, i, separators) && (i < |query| ==> query[i] == NUL)
    ensures i == |Seen(query)| && s == Run(start, Seen(query), 0, separators) && b == Bytes(start, Seen(query), 0, separators)
    ensures var e := Close(s, i);
            e.vectorBegin.At? ==>
              e.vectorEnd.At? && e.vectorBegin.p < e.vectorEnd.p <= i && e.dimension > 0 && b[e.vectorBegin.p] != NUL
  {
    hide Run, Bytes;
    IsNul(query, i);
  }

  lemma {:induction false} ParsingStep(start: Scan, s: Scan, b: Text, query: Text, i: nat, separators: Text)
    requires Parsing(start, s, b, query, i, separators) && i < FirstNul(query)
    ensures Parsing(start, Step(s, query[i], i, separators), b + [Left(s.mode, query[i], separators)], query, i + 1, separators)
  {
    BeforeNul(query, i);
    RunSnoc(start, query[..i], query[i], 0, separators);
    assert query[..i + 1] == query[..i] + [query[i]];
    VectorStep(s, b, query[i], separators);
  }

  /** A position in [begin, end) where a run of characters starts. */
  ghost predicate Starts(b: Text, begin: nat, end: nat, p: nat) {
    begin <= p < end <= |b| && b[p] != NUL && (p == begin || b[p - 1] == NUL)
  }

  /** The starts found up to position at. */
  ghost predicate Found(found: seq<nat>, b: Text, begin: nat, end: nat, at: nat) {
    && (forall i, j | 0 <= i < j < |found| :: found[i] < found[j])
    && (forall i | 0 <= i < |found| :: Starts(b, begin, end, found[i]) && found[i] < at)
    && (forall p: nat | p < at && Starts(b, begin, end, p) :: p in found)
  }

  method SkipNuls(b: Text, at: nat, end: nat) returns (next: nat)
    requires at <= end <= |b|
    ensures at <= next <= end && (forall p | at <= p < next :: b[p] == NUL) && (next < end ==> b[next] != NUL)
  {
    next := at;
    while next < end && b[next] == NUL
      invariant at <= next <= end && forall p | at <= p < next :: b[p] == NUL
    {
      next := next + 1;
    }
  }

  method SkipRun(b: Text, at: nat, end: nat) returns (next: nat)
    requires at <= end <= |b|
    ensures at <= next <= end && (forall p | at <= p < next :: b[p] != NUL) && (next < end ==> b[next] == NUL)
  {
    next := at;
    while next < end && b[next] != NUL
      invariant at <= next <= end && forall p | at <= p < next :: b[p] != NUL
    {
      next := next + 1;
    }
  }

  lemma {:induction false} FoundRun(found: seq<nat>, b: Text, begin: nat, end: nat, at: nat, next: nat)
    requires Found(found, b, begin, end, at) && Starts(b, begin, end, at) && at < next <= end
    requires forall p | at <= p < next :: b[p] != NUL
    ensures Found(found + [at], b, begin, end, next)
  {
    assert forall p | at <= p < next - 1 :: b[p] != NUL;
    forall p: nat | p < next && Starts(b, begin, end, p) ensures p in found + [at] {
      if p < at {
        assert p in found;
      }
    }
  }

  /** The second loop of `Parse`: the start of every run between begin and end. */
  method FindElements(b: Text, begin: nat, end: nat) returns (found: seq<nat>)
    requires begin <= end <= |b|
    ensures Found(found, b, begin, end, end)
  {
    found := [];
    var at := begin;
    while at < end
      invariant begin <= at <= end && Found(found, b, begin, end, at)
      invariant begin < at < end ==> b[at] == NUL
      decreases end - at
    {
      var start := SkipNuls(b, at, end);
      if start >= end {
        at := start;
        break;
      }
      at := SkipRun(b, start, end);
      FoundRun(found, b, begin, end, start, at);
      found := found + [start];
    }
  }

  class Parser {
    var buffer: array<Byte>
    var scan: Scan
    var elements: seq<nat>

    constructor ()
      ensures scan == Begin() && elements == []
    {
      buffer := new Byte[0];
      scan, elements := Begin(), [];
    }

    /** `Parse`: it never fails. A parser that has parsed before keeps its Base64 token if the query has none. */
    method Parse(query: Text, separators: Text) returns (ok: bool)
      modifies this
      ensures ok && fresh(buffer) && buffer.Length == |query| + 1
      ensures scan == Stale(old(scan), FinalScan(Seen(query), separators))
      ensures old(scan) == Begin() ==> scan == FinalScan(Seen(query), separators)
      ensures buffer[..|Seen(query)| + 1] == FinalBuffer(Seen(query), separators)
      ensures scan.vectorBegin.Null? ==> elements == []
      ensures scan.vectorBegin.At? ==>
                scan.vectorEnd.At? && Found(elements, buffer[..], scan.vectorBegin.p, scan.vectorEnd.p, scan.vectorEnd.p) && elements != []
    {
      ghost var was := scan;
      scan, elements := Restart(scan), [];
      CopyQuery(query);
      Tokenise(query, separators);
      RestartedEnd(was, Seen(query), separators);
      if scan.vectorBegin.Null? || scan.dimension == 0 {
        return true;
      }
      elements := FindElements(buffer[..], scan.vectorBegin.p, scan.vectorEnd.p);
      assert Starts(buffer[..], scan.vectorBegin.p, scan.vectorEnd.p, scan.vectorBegin.p);
      ok := |elements| > 0;
    }

    method CopyQuery(query: Text)
      modifies this`buffer
      ensures fresh(buffer) && buffer[..] == query + [NUL]
    {
      buffer := new Byte[|query| + 1];
      var i := 0;
      while i < |query|
        invariant 0 <= i <= |query| && fresh(buffer) && buffer.Length == |query| + 1 && buffer[..i] == query[..i]
      {
        buffer[i] := query[i];
        i := i + 1;
      }
      buffer[i] := NUL;
    }

    /** The parse loop. */
    method Tokenise(query: Text, separators: Text)
      requires scan == Restart(scan) && buffer[..] == query + [NUL]
      modifies this`scan, buffer
      ensures scan == Close(Run(old(scan), Seen(query), 0, separators), |Seen(query)|) && buffer.Length == |query| + 1
      ensures buffer[..|Seen(query)| + 1] == Bytes(old(scan), Seen(query), 0, separators) + [NUL]
      ensures scan.vectorBegin.At? ==>
                && scan.vectorEnd.At? && scan.vectorBegin.p < scan.vectorEnd.p <= |query| && scan.dimension > 0
                && buffer[scan.vectorBegin.p] != NUL
    {
      hide Parsing, Run, Bytes, Close, Seen;
      ghost var start := scan;
      var i := 0;
      ParsingFirst(start, query, separators);
      assert buffer[..0] == [];
      while buffer[i] != NUL
        invariant i <= |query| && buffer.Length == |query| + 1 && buffer[i..] == query[i..] + [NUL]
        invariant Parsing(start, scan, buffer[..i], query, i, separators)
        decreases |query| - i
      {
        TokeniseOne(query, i, separators, start);
        i := i + 1;
      }
      assert i < |query| ==> query[i] == buffer[i];
      ParsingLast(start, scan, buffer[..i], query, i, separators);
      assert buffer[..i + 1] == buffer[..i] + [NUL];
      scan := Close(scan, i);
    }

    method TokeniseOne(query: Text, i: nat, separators: Text, ghost start: Scan)
      requires i < |query| && buffer.Length == |query| + 1 && buffer[i..] == query[i..] + [NUL] && buffer[i] != NUL
      requires Parsing(start, scan, buffer[..i], query, i, separators)
      modifies this`scan, buffer
      ensures buffer[i + 1..] == query[i + 1..] + [NUL]
      ensures Parsing(start, scan, buffer[..i + 1], query, i + 1, separators)
    {
      var c := buffer[i];
      assert c == query[i];
      NotYetNul(query, i);
      ParsingStep(start, scan, buffer[..i], query, i, separators);
      buffer[i] := Left(scan.mode, c, separators);
      scan := Step(scan, c, i, separators);
    }
  }

  lemma {:induction false} IsNul(t: Text, i: nat)
    requires i <= FirstNul(t) && (i < |t| ==> t[i] == NUL)
    ensures i == FirstNul(t)
  {
    if i < FirstNul(t) {
      BeforeNul(t, i);
    }
  }

  lemma {:induction false} NotYetNul(t: Text, i: nat)
    requires i <= FirstNul(t) && i < |t| && t[i] != NUL
    ensures i < FirstNul(t)
  {
  }

  method FindComma(v: Text, from: nat) returns (end: nat)
    requires from <= |v|
    ensures end == from + FirstComma(v[from..])
  {
    end := from;
    while end < |v| && v[end] != COMMA
      invariant from <= end <= |v| && end + FirstComma(v[end..]) == from + FirstComma(v[from..])
    {
      assert v[end..][1..] == v[end + 1..];
      end := end + 1;
    }
  }

  /** The first name of a nonempty list, if not empty, and the names behind the first comma. */
  function FirstPiece(v: Text): seq<Text> {
    if FirstComma(v) > 0 then [v[..FirstComma(v)]] else []
  }

  function Behind(v: Text): Text {
    if FirstComma(v) < |v| then v[FirstComma(v) + 1..] else []
  }

  lemma {:induction false} PiecesOf(v: Text)
    requires v != []
    ensures Pieces(v) == FirstPiece(v) + Pieces(Behind(v))
  {
  }

  ghost predicate Splitting(names: seq<Text>, rest: Text, v: Text) {
    names + Pieces(rest) == Pieces(v)
  }

  lemma {:induction false} SplitStep(names: seq<Text>, rest: Text, v: Text)
    requires rest != [] && Splitting(names, rest, v)
    ensures Splitting(names + FirstPiece(rest), Behind(rest), v)
  {
    PiecesOf(rest);
    JoinNames(names, FirstPiece(rest), Pieces(Behind(rest)));
  }

  lemma {:induction false} JoinNames(a: seq<Text>, b: seq<Text>, c: seq<Text>)
    ensures a + (b + c) == (a + b) + c
  {
  }

  /** The loop over an index name list. */
  method Split(v: Text) returns (names: seq<Text>)
    ensures names == Pieces(v)
  {
    names := [];
    var begin, end := 0, 0;
    ghost var rest := v;
    while end < |v|
      invariant begin <= end <= |v| && Splitting(names, rest, v)
      invariant if end < |v| then begin == end && rest == v[begin..] else rest == []
      decreases |v| - end
    {
      SplitStep(names, rest, v);
      var piece;
      piece, end := NextPiece(v, begin);
      names := names + piece;
      rest := Behind(rest);
      if end < |v| {
        end := end + 1;
        begin := end;
      }
    }
    assert names + [] == names;
  }

  /** Scan to the next comma; a name that is not empty is taken. */
  method NextPiece(v: Text, begin: nat) returns (piece: seq<Text>, end: nat)
    requires begin < |v|
    ensures begin <= end <= |v| && piece == FirstPiece(v[begin..])
    ensures Behind(v[begin..]) == if end < |v| then v[end + 1..] else []
  {
    end := FindComma(v, begin);
    ghost var rest := v[begin..];
    assert rest[..FirstComma(rest)] == v[begin..end];
    assert end < |v| ==> rest[FirstComma(rest) + 1..] == v[end + 1..];
    piece := [];
    if end != begin {
      piece := [v[begin..end]];
    }
  }

  /** `SearchExecutionContext`. */
  class Context {
    var fields: Fields
    var vector: seq<Byte>
    var dimension: nat

    constructor (defaultResultNum: int)
      ensures fields == Fields(Undefined, false, defaultResultNum, []) && vector == []
    {
      fields, vector, dimension := Fields(Undefined, false, defaultResultNum, []), [], 0;
    }

    method ExtractOption(options: seq<Option>)
      modifies this`fields
      ensures fields == Extract(old(fields), options)
    {
      var i := 0;
      while i < |options|
        invariant 0 <= i <= |options| && fields == Extract(old(fields), options[..i])
      {
        ExtractSnoc(old(fields), options[..i], options[i]);
        assert options[..i + 1] == options[..i] + [options[i]];
        ApplyOption(options[i]);
        i := i + 1;
      }
      assert options[..i] == options;
    }

    method ApplyOption(o: Option)
      modifies this`fields
      ensures fields == ExtractOne(old(fields), o)
    {
      if SameIgnoringCase(o.0, INDEXNAME) {
        var names := Split(o.1);
        fields := fields.(indexNames := fields.indexNames + names);
      } else if SameIgnoringCase(o.0, DATATYPE) {
        var t := ParseType(o.1);
        if t.Just? { fields := fields.(valueType := t.value); }
      } else if SameIgnoringCase(o.0, EXTRACTMETADATA) {
        var b := ParseBool(o.1);
        if b.Just? { fields := fields.(extract := b.value); }
      } else if SameIgnoringCase(o.0, RESULTNUM) {
        var n := ParseInt(o.1);
        if n.Just? { fields := fields.(resultNum := n.value); }
      }
    }

    /** The Base64 half of `ExtractVector`. */
    method ExtractBase64(token: Text, t: ValueType) returns (ok: bool)
      requires t != Undefined
      modifies this`vector, this`dimension
      ensures ok <==> ExtractVector(token, t).Just?
      ensures ok ==> (vector, dimension) == ExtractVector(token, t).value
    {
      if token == [] {
        return false;
      }
      var out := new Byte[Base64.CapacityForDecode(|token|)];
      var n;
      ok, n := Base64.DecodeTo(token, out);
      if !ok || n % TypeSize(t) != 0 {
        return false;
      }
      vector, dimension := out[..n], n / TypeSize(t);
    }
  }

  function LowerOf(c: Byte): Byte {
    if IsUpper(c) then c | 0x20 else c
  }

  function Lowered(t: Text): (r: Text)
    ensures |r| == |t|
  {
    if t == [] then [] else [LowerOf(t[0])] + Lowered(t[1..])
  }

  lemma {:induction false} LoweredIs(t: Text, r: Text)
    requires |r| == |t| && forall k | 0 <= k < |t| :: r[k] == LowerOf(t[k])
    ensures r == Lowered(t)
  {
    if t != [] {
      LoweredIs(t[1..], r[1..]);
    }
  }

  method ToLower(t: Text) returns (r: Text)
    ensures r == Lowered(t)
  {
    r := t;
    var i := 0;
    while i < |t|
      invariant 0 <= i <= |t| && |r| == |t|
      invariant forall k | 0 <= k < |t| :: r[k] == if k < i then LowerOf(t[k]) else t[k]
    {
      if IsUpper(r[i]) {
        r := r[i := r[i] | 0x20];
      }
      i := i + 1;
    }
    LoweredIs(t, r);
  }

  /** order lists the parameters, each once. */
  ghost predicate Lists(order: seq<Option>, params: map<Text, Text>, left: set<Text>) {
    && (forall n | n in params && n !in left :: (n, params[n]) in order)
    && (forall k | 0 <= k < |order| :: order[k].0 in params && order[k].0 !in left && order[k].1 == params[order[k].0])
    && (forall i, j | 0 <= i < j < |order| :: order[i].0 != order[j].0)
  }

  lemma {:induction false} ListsMore(order: seq<Option>, params: map<Text, Text>, left: set<Text>, n: Text)
    requires Lists(order, params, left) && n in left && n in params
    ensures Lists(order + [(n, params[n])], params, left - {n})
  {
    var o := order + [(n, params[n])];
    forall m | m in params && m !in left - {n} ensures (m, params[m]) in o {
      if m == n {
        assert o[|order|] == (m, params[m]);
      } else {
        assert (m, params[m]) in order;
      }
    }
  }

  /** Parameters that come back: names and values without spaces, names not the query's own. */
  ghost predicate GoodParams(params: map<Text, Text>) {
    forall n | n in params :: GoodOption((n, params[n])) && !Reserved(n)
  }

  /** A call of `SetSearchParam`; Nothing stands for a null pointer. */
  datatype Call = Call(name: Maybe<Text>, value: Maybe<Text>)

  /** The call does something. */
  predicate Named(c: Call) {
    c.name.Just? && c.name.value != []
  }

  /** The call sets a value and does not remove one. */
  predicate Valued(c: Call) {
    c.value.Just? && c.value.value != []
  }

  /** Names are kept in lower case; an empty value removes. */
  function SetParam(params: map<Text, Text>, c: Call): map<Text, Text> {
    if !Named(c) then params
    else if Valued(c) then params[Lowered(c.name.value) := c.value.value]
    else params - {Lowered(c.name.value)}
  }

  /** The parameters after several calls. */
  function AllSet(calls: seq<Call>): map<Text, Text> {
    if calls == [] then map[] else SetParam(AllSet(calls[..|calls| - 1]), calls[|calls| - 1])
  }

  /** Free of what would end a name early, in any case. */
  predicate Unbroken(t: Text) {
    t == [] || (t[0] != COLON && t[0] != EQUAL && Unbroken(t[1..]))
  }

  /** What a caller has to see to: no spaces, no separator inside the name, not one of the query's own names. */
  predicate GoodCall(c: Call) {
    Named(c) && Valued(c) ==>
      Plain(c.name.value) && Unbroken(c.name.value[1..]) && !Reserved(c.name.value) && Plain(c.value.value)
  }

  lemma {:induction false} LowerKeeps(c: Byte)
    ensures var l := LowerOf(c);
            !IsUpper(l) && (IsSpace(l) <==> IsSpace(c)) && (l == NUL <==> c == NUL) && (l == COLON <==> c == COLON) &&
            (l == EQUAL <==> c == EQUAL) && Up(l) == Up(c)
  {
  }

  /** Ignoring case is comparing in lower case. */
  lemma {:induction false} SameLetter(a: Byte, b: Byte)
    ensures Up(a) == Up(b) <==> LowerOf(a) == LowerOf(b)
  {
  }

  lemma {:induction false} SameIgnoringCaseIs(a: Text, b: Text)
    ensures SameIgnoringCase(a, b) <==> Lowered(a) == Lowered(b)
  {
    if a != [] && b != [] {
      SameLetter(a[0], b[0]);
      SameIgnoringCaseIs(a[1..], b[1..]);
      assert Lowered(a)[0] == LowerOf(a[0]) && Lowered(a)[1..] == Lowered(a[1..]);
      assert Lowered(b)[0] == LowerOf(b[0]) && Lowered(b)[1..] == Lowered(b[1..]);
    }
  }

  lemma {:induction false} LoweredPlain(t: Text)
    ensures Plain(Lowered(t)) <==> Plain(t)
  {
    if t != [] {
      LowerKeeps(t[0]);
      LoweredPlain(t[1..]);
    }
  }

  lemma {:induction false} LoweredUnbroken(t: Text)
    ensures NameRest(Lowered(t)) <==> Unbroken(t)
  {
    if t != [] {
      LowerKeeps(t[0]);
      LoweredUnbroken(t[1..]);
    }
  }

  lemma {:induction false} LoweredSame(t: Text, u: Text)
    ensures SameIgnoringCase(Lowered(t), u) <==> SameIgnoringCase(t, u)
  {
    if t != [] && u != [] {
      LowerKeeps(t[0]);
      LoweredSame(t[1..], u[1..]);
    }
  }

  lemma {:induction false} LoweredName(n: Text)
    requires n != []
    ensures GoodName(Lowered(n)) <==> Plain(n) && Unbroken(n[1..])
    ensures Reserved(Lowered(n)) <==> Reserved(n)
  {
    hide Plain, SameIgnoringCase, NameRest, Unbroken;
    LoweredPlain(n);
    LoweredUnbroken(n[1..]);
    assert Lowered(n)[1..] == Lowered(n[1..]);
    LoweredSame(n, DATATYPE);
    LoweredSame(n, EXTRACTMETADATA);
    LoweredSame(n, RESULTNUM);
  }

  /** A call keeps the parameters fit to be sent exactly when it is well formed. */
  lemma {:induction false} CallKeepsGood(params: map<Text, Text>, c: Call)
    requires GoodParams(params)
    ensures GoodParams(SetParam(params, c)) <==> GoodCall(c)
  {
    hide Plain, Reserved, GoodName, Unbroken, Lowered;
    if Named(c) && Valued(c) {
      LoweredName(c.name.value);
      var low, n := Lowered(c.name.value), SetParam(params, c);
      assert low in n && n[low] == c.value.value;
    }
  }

  /** So parameters set by any number of well-formed calls are fit to be sent. */
  lemma {:induction false} CallsGiveGood(calls: seq<Call>)
    requires forall k | 0 <= k < |calls| :: GoodCall(calls[k])
    ensures GoodParams(AllSet(calls))
  {
    hide GoodCall, SetParam;
    if calls != [] {
      CallsGiveGood(calls[..|calls| - 1]);
      CallKeepsGood(AllSet(calls[..|calls| - 1]), calls[|calls| - 1]);
    }
  }

  /** `AnnClient`, its parameters and the printer. */
  class Client {
    var params: map<Text, Text>

    constructor ()
      ensures params == map[]
    {
      params := map[];
    }

    method SetSearchParam(name: Maybe<Text>, value: Maybe<Text>)
      modifies this
      ensures params == SetParam(old(params), Call(name, value))
      ensures old(GoodParams(params)) ==> (GoodParams(params) <==> GoodCall(Call(name, value)))
    {
      if GoodParams(params) {
        CallKeepsGood(params, Call(name, value));
      }
      if name.Nothing? || name.value == [] {
        return;
      }
      var low := ToLower(name.value);
      if value.Nothing? || value.value == [] {
        params := params - {low};
      } else {
        params := params[low := value.value];
      }
    }

    /** The parameters in whatever order the map gives them. */
    method CreateSearchQuery(data: seq<Byte>, t: ValueType, resultNum: int, extract: bool) returns (text: Text, ghost order: seq<Option>)
      ensures Lists(order, params, {}) && text == PrintSearch(data, t, resultNum, extract, order)
      ensures GoodParams(params) ==> GoodOptions(order) && Unreserved(order)
    {
      var enc, n := Base64.EncodeStream(data);
      text := [HASH] + enc + PrintOptions(Standard(t, resultNum, extract));
      ghost var os := Standard(t, resultNum, extract);
      order := [];
      assert os + [] == os;
      var left := params.Keys;
      while left != {}
        invariant left <= params.Keys && Lists(order, params, left) && text == [HASH] + enc + PrintOptions(os + order)
        invariant GoodParams(params) ==> GoodOptions(order) && Unreserved(order)
        decreases |left|
      {
        var name :| name in left;
        ListsMore(order, params, left, name);
        text := PrintOne(text, enc, os, order, name);
        if GoodParams(params) {
          GoodSnoc(order, (name, params[name]));
          UnreservedSnoc(order, (name, params[name]));
        }
        order := order + [(name, params[name])];
        left := left - {name};
      }
    }

    method PrintOne(text: Text, enc: Text, ghost os: seq<Option>, ghost order: seq<Option>, name: Text) returns (next: Text)
      requires name in params && text == [HASH] + enc + PrintOptions(os + order)
      ensures next == [HASH] + enc + PrintOptions(os + (order + [(name, params[name])]))
    {
      next := text + PrintOption(name, params[name]);
      OptionsGrow([HASH] + enc, os + order, (name, params[name]));
      assert os + (order + [(name, params[name])]) == (os + order) + [(name, params[name])];
    }
  }

  lemma {:induction false} OptionsGrow(front: Text, os: seq<Option>, o: Option)
    ensures front + PrintOptions(os + [o]) == front + PrintOptions(os) + PrintOption(o.0, o.1)
  {
    assert (os + [o])[..|os|] == os;
    Associate(front, PrintOptions(os), PrintOption(o.0, o.1));
  }

  lemma {:induction false} UnreservedSnoc(os: seq<Option>, o: Option)
    requires Unreserved(os) && !Reserved(o.0)
    ensures Unreserved(os + [o])
  {
    assert (os + [o])[..|os|] == os;
  }

  predicate NoNul(t: Text) {
    t == [] || (t[0] != NUL && NoNul(t[1..]))
  }

  lemma {:induction false} NoNulConcat(a: Text, b: Text)
    requires NoNul(a) && NoNul(b)
    ensures NoNul(a + b)
  {
    if a == [] {
      assert a + b == b;
    } else {
      NoNulConcat(a[1..], b);
      assert (a + b)[1..] == a[1..] + b;
    }
  }

  lemma {:induction false} PlainNoNul(t: Text)
    requires Plain(t)
    ensures NoNul(t)
  {
    if t != [] {
      PlainNoNul(t[1..]);
    }
  }

  lemma {:induction false} SeenWhole(t: Text)
    requires NoNul(t)
    ensures FirstNul(t) == |t| && Seen(t) == t
  {
    if t != [] {
      SeenWhole(t[1..]);
    }
  }

  lemma {:induction false} MarksNoNul()
    ensures NoNul([SPACE, DOLLAR]) && NoNul([COLON]) && NoNul([HASH])
  {
    assert [SPACE, DOLLAR][1..] == [DOLLAR] && [DOLLAR][1..] == [] && [COLON][1..] == [] && [HASH][1..] == [];
  }

  lemma {:induction false} OptionNoNul(n: Text, v: Text)
    requires GoodName(n) && GoodValue(v)
    ensures NoNul(PrintOption(n, v))
  {
    MarksNoNul();
    PlainNoNul(n);
    PlainNoNul(v);
    NoNulConcat([SPACE, DOLLAR], n);
    NoNulConcat([SPACE, DOLLAR] + n, [COLON]);
    NoNulConcat([SPACE, DOLLAR] + n + [COLON], v);
  }

  lemma {:induction false} OptionsNoNul(os: seq<Option>)
    requires GoodOptions(os)
    ensures NoNul(PrintOptions(os))
  {
    if os != [] {
      var k := |os| - 1;
      OptionsNoNul(os[..k]);
      OptionNoNul(os[k].0, os[k].1);
      NoNulConcat(PrintOptions(os[..k]), PrintOption(os[k].0, os[k].1));
    }
  }

  /** A printed query reaches the parser whole. */
  lemma {:induction false} QueryNoNul(enc: Text, os: seq<Option>)
    requires Plain(enc) && GoodOptions(os)
    ensures Seen(PrintQuery(enc, os)) == PrintQuery(enc, os)
  {
    MarksNoNul();
    PlainNoNul(enc);
    OptionsNoNul(os);
    NoNulConcat([HASH], enc);
    NoNulConcat([HASH] + enc, PrintOptions(os));
    SeenWhole(PrintQuery(enc, os));
  }

  lemma {:induction false} SearchSeen(data: seq<Byte>, t: ValueType, resultNum: int, extract: bool, params: seq<Option>)
    requires -0x8000_0000 <= resultNum <= 0x7fff_ffff && GoodOptions(params)
    ensures Seen(PrintSearch(data, t, resultNum, extract, params)) == PrintSearch(data, t, resultNum, extract, params)
  {
    PlainEncoded(data);
    StandardGood(t, resultNum, extract);
    GoodConcat(Standard(t, resultNum, extract), params);
    QueryNoNul(Base64.Encoded(data), Standard(t, resultNum, extract) + params);
  }

  /** Server side: parse, then take the options and the vector. */
  method Receive(text: Text, separators: Text, t: ValueType, context: Context) returns (ok: bool, options: seq<Option>)
    requires t != Undefined && Seen(text) == text && FinalScan(text, separators).vectorBegin.Null?
    modifies context
    ensures options == Strings(FinalBuffer(text, separators), FinalScan(text, separators).options)
    ensures context.fields == Extract(old(context.fields), options)
    ensures var found := ExtractVector(Token(FinalBuffer(text, separators), FinalScan(text, separators)), t);
            (ok <==> found.Just?) && (ok ==> (context.vector, context.dimension) == found.value)
  {
    var parser := new Parser();
    var _ := parser.Parse(text, separators);
    assert parser.buffer[..] == parser.buffer[..|text| + 1];
    options := Strings(parser.buffer[..], parser.scan.options);
    context.ExtractOption(options);
    ok := context.ExtractBase64(Token(parser.buffer[..], parser.scan), t);
  }

  /** The whole pipeline, from the client's parameters to the server's context. */
  method Deliver(client: Client, data: seq<Byte>, t: ValueType, resultNum: int, extract: bool, separators: Text, context: Context)
    returns (ok: bool, options: seq<Option>, ghost order: seq<Option>)
    requires t != Undefined && data != [] && |data| % TypeSize(t) == 0
    requires -0x8000_0000 <= resultNum <= 0x7fff_ffff && GoodParams(client.params)
    modifies context
    ensures ok && context.vector == data && context.dimension == |data| / TypeSize(t)
    ensures context.fields.valueType == t && context.fields.resultNum == resultNum && context.fields.extract == extract
    ensures Lists(order, client.params, {}) && options == Standard(t, resultNum, extract) + order
  {
    var text;
    text, order := client.CreateSearchQuery(data, t, resultNum, extract);
    QueryRoundTrip(data, t, resultNum, extract, order, separators, context.fields);
    SearchSeen(data, t, resultNum, extract, order);
    ok, options := Receive(text, separators, t, context);
  }
}
