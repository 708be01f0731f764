/** The text form of a search query: `#` and the vector in Base64, then ` $name:value` options. The tokeniser that
    overwrites separators with terminators, as a fold over the characters. */
module QueryText {
  import opened Collections

  type Byte = bv8
  type Text = seq<Byte>

  const NUL: Byte := 0
  const SPACE: Byte := 32
  const HASH: Byte := 35
  const DOLLAR: Byte := 36
  const COLON: Byte := 58
  const EQUAL: Byte := 61

  predicate IsSpace(c: Byte) {
    c == 32 || 9 <= c <= 13
  }

  predicate IsUpper(c: Byte) {
    65 <= c <= 90
  }

  datatype Mode = None | NameBegin | Name | ValueBegin | Value | Vector | Base64

  datatype Offset = Null | At(p: nat)

  /** The variables of the parse loop; pointers are offsets into the buffer. */
  datatype Scan = Scan(
    mode: Mode,
    name: nat,
    options: seq<(nat, nat)>,
    base64: Offset,
    base64Length: int,
    vectorBegin: Offset,
    vectorEnd: Offset,
    dimension: nat)

  function Begin(): Scan {
    Scan(None, 0, [], Null, 0, Null, Null, 0)
  }

  /** The end of a token, at a space or at the end of the text. */
  function Close(s: Scan, i: nat): Scan {
    match s.mode
    case Vector => s.(dimension := s.dimension + 1, vectorEnd := At(i))
    case Base64 => s.(base64Length := if s.base64.At? then i - s.base64.p else s.base64Length)
    case _ => s
  }

  /** Character c at offset i. */
  function Step(s: Scan, c: Byte, i: nat, separators: Text): Scan {
    if IsSpace(c) then Close(s, i).(mode := None)
    else
      match s.mode
      case None =>
        if c == DOLLAR then s.(mode := NameBegin)
        else if c == HASH then s.(mode := Base64, base64 := At(i + 1))
        else s.(mode := Vector, vectorBegin := At(i))
      case NameBegin => s.(name := i, mode := Name)
      case Name => if c == COLON || c == EQUAL then s.(mode := ValueBegin) else s
      case ValueBegin => s.(mode := Value, options := s.options + [(s.name, i)])
      case Vector => if c in separators then s.(dimension := s.dimension + 1) else s
      case Value => s
      case Base64 => s
  }

  /** What the step leaves in the buffer in place of c. */
  function Left(mode: Mode, c: Byte, separators: Text): Byte {
    if IsSpace(c) then NUL
    else
      match mode
      case Name => if c == COLON || c == EQUAL then NUL else if IsUpper(c) then c | 0x20 else c
      case Vector => if c in separators then NUL else c
      case _ => c
  }

  /** The scan of a text that starts at offset i, and the bytes it leaves. */
  function Run(s: Scan, t: Text, i: nat, separators: Text): Scan
    decreases |t|
  {
    if t == [] then s else Run(Step(s, t[0], i, separators), t[1..], i + 1, separators)
  }

  function Bytes(s: Scan, t: Text, i: nat, separators: Text): (r: Text)
    ensures |r| == |t|
    decreases |t|
  {
    if t == [] then [] else [Left(s.mode, t[0], separators)] + Bytes(Step(s, t[0], i, separators), t[1..], i + 1, separators)
  }

  lemma {:induction false} RunConcat(s: Scan, a: Text, b: Text, i: nat, separators: Text)
    ensures Run(s, a + b, i, separators) == Run(Run(s, a, i, separators), b, i + |a|, separators)
    ensures Bytes(s, a + b, i, separators) ==
            Bytes(s, a, i, separators) + Bytes(Run(s, a, i, separators), b, i + |a|, separators)
    decreases |a|
  {
    if a == [] {
      assert a + b == b;
    } else {
      RunConcat(Step(s, a[0], i, separators), a[1..], b, i + 1, separators);
      assert (a + b)[1..] == a[1..] + b;
    }
  }

  lemma {:induction false} RunSnoc(s: Scan, a: Text, c: Byte, i: nat, separators: Text)
    ensures Run(s, a + [c], i, separators) == Step(Run(s, a, i, separators), c, i + |a|, separators)
    ensures Bytes(s, a + [c], i, separators) ==
            Bytes(s, a, i, separators) + [Left(Run(s, a, i, separators).mode, c, separators)]
  {
    RunConcat(s, a, [c], i, separators);
    var m := Run(s, a, i, separators);
    assert [c][1..] == [];
    assert Run(m, [c], i + |a|, separators) == Run(Step(m, c, i + |a|, separators), [], i + |a| + 1, separators);
  }

  /** Neither a space nor the terminator. */
  predicate Plain(t: Text) {
    t == [] || (!IsSpace(t[0]) && t[0] != NUL && Plain(t[1..]))
  }

  /** Modes in which the tokeniser only moves on. */
  lemma {:induction false} PassesOver(s: Scan, t: Text, i: nat, separators: Text)
    requires Plain(t)
    requires s.mode.Value? || s.mode.Base64? || (s.mode.Name? && NameRest(t))
    ensures Run(s, t, i, separators) == s && Bytes(s, t, i, separators) == t
    decreases |t|
  {
    if t != [] {
      assert !IsSpace(t[0]);
      PassesOver(s, t[1..], i + 1, separators);
    }
  }

  /** What may follow the first character of a name for it to come back unchanged. */
  predicate NameRest(t: Text) {
    t == [] || (t[0] != COLON && t[0] != EQUAL && !IsUpper(t[0]) && NameRest(t[1..]))
  }

  predicate GoodName(n: Text) {
    n != [] && Plain(n) && NameRest(n[1..])
  }

  predicate GoodValue(v: Text) {
    v != [] && Plain(v)
  }

  function PrintOption(n: Text, v: Text): Text {
    [SPACE, DOLLAR] + n + [COLON] + v
  }

  /** The option as the tokeniser leaves it. */
  function CutOption(n: Text, v: Text): Text {
    [NUL, DOLLAR] + n + [NUL] + v
  }

  /** One option: it closes the token before it and adds itself. */
  lemma {:induction false} ScanOption(s: Scan, n: Text, v: Text, i: nat, separators: Text)
    requires GoodName(n) && GoodValue(v)
    ensures Run(s, PrintOption(n, v), i, separators) ==
            Close(s, i).(mode := Value, name := i + 2, options := s.options + [(i + 2, i + |n| + 3)])
    ensures Bytes(s, PrintOption(n, v), i, separators) == CutOption(n, v)
  {
    var a, b := [SPACE, DOLLAR], n + [COLON] + v;
    assert PrintOption(n, v) == a + b && CutOption(n, v) == [NUL, DOLLAR] + (n + [NUL] + v);
    ScanHead(s, i, separators);
    RunConcat(s, a, b, i, separators);
    ScanBody(Close(s, i).(mode := NameBegin), n, v, i + 2, separators);
  }

  lemma {:induction false} ScanHead(s: Scan, i: nat, separators: Text)
    ensures Run(s, [SPACE, DOLLAR], i, separators) == Close(s, i).(mode := NameBegin)
    ensures Bytes(s, [SPACE, DOLLAR], i, separators) == [NUL, DOLLAR]
  {
    RunSnoc(s, [], SPACE, i, separators);
    RunSnoc(s, [SPACE], DOLLAR, i, separators);
    assert [] + [SPACE] == [SPACE];
    assert [SPACE] + [DOLLAR] == [SPACE, DOLLAR];
  }

  lemma {:induction false} ScanBody(s: Scan, n: Text, v: Text, i: nat, separators: Text)
    requires GoodName(n) && GoodValue(v) && s.mode.NameBegin?
    ensures Run(s, n + [COLON] + v, i, separators) ==
            s.(mode := Value, name := i, options := s.options + [(i, i + |n| + 1)])
    ensures Bytes(s, n + [COLON] + v, i, separators) == n + [NUL] + v
  {
    ScanName(s, n, i, separators);
    var named := s.(mode := Name, name := i);
    RunSnoc(s, n, COLON, i, separators);
    RunConcat(s, n + [COLON], v, i, separators);
    ScanValue(named.(mode := ValueBegin), v, i + |n| + 1, separators);
  }

  lemma {:induction false} ScanName(s: Scan, n: Text, i: nat, separators: Text)
    requires GoodName(n) && s.mode.NameBegin?
    ensures Run(s, n, i, separators) == s.(mode := Name, name := i) && Bytes(s, n, i, separators) == n
  {
    assert !IsSpace(n[0]);
    PassesOver(s.(mode := Name, name := i), n[1..], i + 1, separators);
  }

  lemma {:induction false} ScanValue(s: Scan, v: Text, i: nat, separators: Text)
    requires GoodValue(v) && s.mode.ValueBegin?
    ensures Run(s, v, i, separators) == s.(mode := Value, options := s.options + [(s.name, i)])
    ensures Bytes(s, v, i, separators) == v
  {
    assert !IsSpace(v[0]);
    PassesOver(s.(mode := Value, options := s.options + [(s.name, i)]), v[1..], i + 1, separators);
  }

  type Option = (Text, Text)

  predicate GoodOption(o: Option) {
    GoodName(o.0) && GoodValue(o.1)
  }

  predicate GoodOptions(os: seq<Option>) {
    os == [] || (GoodOptions(os[..|os| - 1]) && GoodOption(os[|os| - 1]))
  }

  function PrintOptions(os: seq<Option>): Text {
    if os == [] then [] else PrintOptions(os[..|os| - 1]) + PrintOption(os[|os| - 1].0, os[|os| - 1].1)
  }

  function CutOptions(os: seq<Option>): (r: Text)
    ensures |r| == |PrintOptions(os)|
  {
    if os == [] then [] else CutOptions(os[..|os| - 1]) + CutOption(os[|os| - 1].0, os[|os| - 1].1)
  }

  /** Where names and values lie when the options start at offset i. */
  function Places(os: seq<Option>, i: nat): (r: seq<(nat, nat)>)
    ensures |r| == |os|
  {
    if os == [] then []
    else
      var k := |os| - 1;
      var p := i + |PrintOptions(os[..k])|;
      Places(os[..k], i) + [(p + 2, p + |os[k].0| + 3)]
  }

  function PrintQuery(enc: Text, os: seq<Option>): Text {
    [HASH] + enc + PrintOptions(os)
  }

  /** The scan behind the Base64 token and the options. */
  function Scanned(enc: Text, os: seq<Option>): Scan {
    if os == [] then Begin().(mode := Base64, base64 := At(1))
    else
      var k := |os| - 1;
      Scan(Value, 1 + |enc| + |PrintOptions(os[..k])| + 2, Places(os, 1 + |enc|), At(1), |enc|, Null, Null, 0)
  }

  /** A printed query leaves exactly its Base64 token and its options. */
  lemma {:induction false} ScanQuery(enc: Text, os: seq<Option>, separators: Text)
    requires Plain(enc) && GoodOptions(os)
    ensures Leaves(PrintQuery(enc, os), separators, Scanned(enc, os), [HASH] + enc + CutOptions(os))
    decreases |os|
  {
    if os == [] {
      ScanVector(enc, separators);
      NoOptions(enc);
    } else {
      var k := |os| - 1;
      ScanQuery(enc, os[..k], separators);
      ScanMore(PrintQuery(enc, os[..k]), Scanned(enc, os[..k]), [HASH] + enc + CutOptions(os[..k]), os[k].0, os[k].1, separators);
      QueryGrows(enc, os);
      Extended(enc, os);
    }
  }

  /** Scanning t from the start ends in state s and leaves the bytes b. */
  ghost predicate Leaves(t: Text, separators: Text, s: Scan, b: Text) {
    Run(Begin(), t, 0, separators) == s && Bytes(Begin(), t, 0, separators) == b
  }

  lemma {:induction false} NoOptions(enc: Text)
    ensures PrintQuery(enc, []) == [HASH] + enc && [HASH] + enc + CutOptions([]) == [HASH] + enc
  {
  }

  lemma {:induction false} ScanMore(a: Text, s: Scan, left: Text, n: Text, v: Text, separators: Text)
    requires GoodName(n) && GoodValue(v) && Leaves(a, separators, s, left)
    ensures Leaves(a + PrintOption(n, v), separators, Grown(s, n, |a|), left + CutOption(n, v))
  {
    RunConcat(Begin(), a, PrintOption(n, v), 0, separators);
    ScanOption(s, n, v, |a|, separators);
  }

  /** A scan after one more option, printed at offset p. */
  function Grown(s: Scan, n: Text, p: nat): Scan {
    Close(s, p).(mode := Value, name := p + 2, options := s.options + [(p + 2, p + |n| + 3)])
  }

  lemma {:induction false} QueryGrows(enc: Text, os: seq<Option>)
    requires os != []
    ensures var k := |os| - 1;
            && PrintQuery(enc, os) == PrintQuery(enc, os[..k]) + PrintOption(os[k].0, os[k].1)
            && [HASH] + enc + CutOptions(os) == ([HASH] + enc + CutOptions(os[..k])) + CutOption(os[k].0, os[k].1)
  {
    var k := |os| - 1;
    Associate([HASH] + enc, PrintOptions(os[..k]), PrintOption(os[k].0, os[k].1));
    Associate([HASH] + enc, CutOptions(os[..k]), CutOption(os[k].0, os[k].1));
  }

  /** How the scan grows by the last option. */
  lemma {:induction false} Extended(enc: Text, os: seq<Option>)
    requires os != []
    ensures var k := |os| - 1;
            Scanned(enc, os) == Grown(Scanned(enc, os[..k]), os[k].0, |PrintQuery(enc, os[..k])|)
  {
    var k := |os| - 1;
    assert |PrintQuery(enc, os[..k])| == 1 + |enc| + |PrintOptions(os[..k])|;
    if k == 0 {
      assert os[..k] == [];
    }
  }

  lemma {:induction false} ScanVector(enc: Text, separators: Text)
    requires Plain(enc)
    ensures Leaves([HASH] + enc, separators, Begin().(mode := Base64, base64 := At(1)), [HASH] + enc)
  {
    assert ([HASH] + enc)[1..] == enc;
    PassesOver(Begin().(mode := Base64, base64 := At(1)), enc, 1, separators);
  }

  /** The C string at offset p. */
  function CString(b: Text, p: nat): Text
    decreases |b| - p
  {
    if p >= |b| || b[p] == NUL then [] else [b[p]] + CString(b, p + 1)
  }

  lemma {:induction false} CStringIs(b: Text, p: nat, t: Text)
    requires Plain(t) && p + |t| < |b| && b[p..p + |t|] == t && b[p + |t|] == NUL
    ensures CString(b, p) == t
    decreases |t|
  {
    if t != [] {
      assert b[p] == t[0] != NUL;
      assert b[p + 1..p + 1 + |t[1..]|] == t[1..];
      CStringIs(b, p + 1, t[1..]);
    }
  }

  lemma {:induction false} CStringWithin(a: Text, t: Text, rest: Text)
    requires Plain(t)
    ensures CString(a + t + [NUL] + rest, |a|) == t
  {
    CStringIs(a + t + [NUL] + rest, |a|, t);
  }

  function Strings(b: Text, ps: seq<(nat, nat)>): (r: seq<Option>)
    ensures |r| == |ps|
  {
    if ps == [] then [] else Strings(b, ps[..|ps| - 1]) + [(CString(b, ps[|ps| - 1].0), CString(b, ps[|ps| - 1].1))]
  }

  /** Name and value pointers that read as the option. */
  ghost predicate ReadsAs(b: Text, p: (nat, nat), o: Option) {
    CString(b, p.0) == o.0 && CString(b, p.1) == o.1
  }

  /** A buffer with one cut option behind `before`. */
  ghost predicate Ends(b: Text, before: Text, o: Option, rest: Text) {
    b == before + CutOption(o.0, o.1) + [NUL] + rest
  }

  lemma {:induction false} OptionBack(b: Text, before: Text, o: Option, rest: Text, p: (nat, nat))
    requires GoodOption(o) && Ends(b, before, o, rest) && p == (|before| + 2, |before| + |o.0| + 3)
    ensures ReadsAs(b, p, o)
  {
    var n, v := o.0, o.1;
    CStringWithin(before + [NUL, DOLLAR], n, v + [NUL] + rest);
    assert b == (before + [NUL, DOLLAR]) + n + [NUL] + (v + [NUL] + rest);
    CStringWithin(before + [NUL, DOLLAR] + n + [NUL], v, rest);
    assert b == (before + [NUL, DOLLAR] + n + [NUL]) + v + [NUL] + rest;
  }

  function Following(n: Text, v: Text, rest: Text): Text {
    [DOLLAR] + n + [NUL] + v + [NUL] + rest
  }

  lemma {:induction false} EndsBefore(before: Text, n: Text, v: Text, rest: Text)
    ensures before + CutOption(n, v) + [NUL] + rest == before + [NUL] + Following(n, v, rest)
  {
  }

  /** A buffer with the cut options at offset |front|. */
  ghost predicate Lies(b: Text, front: Text, os: seq<Option>, rest: Text) {
    b == front + CutOptions(os) + [NUL] + rest
  }

  lemma {:induction false} LiesLast(b: Text, front: Text, os: seq<Option>, rest: Text)
    requires os != [] && Lies(b, front, os, rest)
    ensures Ends(b, front + CutOptions(os[..|os| - 1]), os[|os| - 1], rest)
  {
    var k := |os| - 1;
    Associate(front, CutOptions(os[..k]), CutOption(os[k].0, os[k].1));
  }

  lemma {:induction false} LiesShorter(b: Text, front: Text, os: seq<Option>, rest: Text)
    requires os != [] && Lies(b, front, os, rest)
    ensures Lies(b, front, os[..|os| - 1], Following(os[|os| - 1].0, os[|os| - 1].1, rest))
  {
    var k := |os| - 1;
    LiesLast(b, front, os, rest);
    EndsBefore(front + CutOptions(os[..k]), os[k].0, os[k].1, rest);
  }

  /** The last option read back. */
  lemma {:induction false} LastBack(b: Text, front: Text, os: seq<Option>, rest: Text)
    requires os != [] && GoodOptions(os) && Lies(b, front, os, rest)
    ensures ReadsAs(b, Places(os, |front|)[|os| - 1], os[|os| - 1])
  {
    hide CutOptions, Lies, Ends, ReadsAs, Places;
    var k := |os| - 1;
    PlacesLast(front, os);
    LiesLast(b, front, os, rest);
    OptionBack(b, front + CutOptions(os[..k]), os[k], rest, Places(os, |front|)[k]);
  }

  lemma {:induction false} PlacesLast(front: Text, os: seq<Option>)
    requires os != []
    ensures var p := |front + CutOptions(os[..|os| - 1])|;
            Places(os, |front|)[|os| - 1] == (p + 2, p + |os[|os| - 1].0| + 3)
  {
  }

  /** The options read back from the buffer. */
  lemma {:induction false} OptionsBack(b: Text, front: Text, os: seq<Option>, rest: Text)
    requires GoodOptions(os) && Lies(b, front, os, rest)
    ensures Strings(b, Places(os, |front|)) == os
    decreases |os|
  {
    if os != [] {
      var k := |os| - 1;
      LiesShorter(b, front, os, rest);
      OptionsBack(b, front, os[..k], Following(os[k].0, os[k].1, rest));
      PlacesSnoc(os, |front|);
      LastBack(b, front, os, rest);
      StringsGrow(b, Places(os, |front|), os);
    }
  }

  lemma {:induction false} StringsGrow(b: Text, ps: seq<(nat, nat)>, os: seq<Option>)
    requires 0 < |ps| == |os| && Strings(b, ps[..|ps| - 1]) == os[..|os| - 1] && ReadsAs(b, ps[|ps| - 1], os[|os| - 1])
    ensures Strings(b, ps) == os
  {
  }

  lemma {:induction false} PlacesSnoc(os: seq<Option>, i: nat)
    requires os != []
    ensures Places(os, i)[..|os| - 1] == Places(os[..|os| - 1], i)
  {
  }
}
