/** From the client's printed query to the server's search context: options and vector come back unchanged. */
module Query {
  import opened Collections
  import opened QueryText
  import Base64
  import Ascii

  datatype ValueType = Undefined | Int8 | UInt8 | Int16 | Float

  datatype Maybe<T> = Nothing | Just(value: T)

  const DATATYPE: Text := [100, 97, 116, 97, 116, 121, 112, 101]
  const RESULTNUM: Text := [114, 101, 115, 117, 108, 116, 110, 117, 109]
  const EXTRACTMETADATA: Text := [101, 120, 116, 114, 97, 99, 116, 109, 101, 116, 97, 100, 97, 116, 97]
  const INDEXNAME: Text := [105, 110, 100, 101, 120, 110, 97, 109, 101]
  const TRUE: Text := [116, 114, 117, 101]
  const FALSE: Text := [102, 97, 108, 115, 101]
  const COMMA: Byte := 44
  const MINUS: Byte := 45
  const PLUS: Byte := 43

  function TypeName(t: ValueType): Text {
    match t
    case Undefined => [85, 110, 100, 101, 102, 105, 110, 101, 100]
    case Int8 => [73, 110, 116, 56]
    case UInt8 => [85, 73, 110, 116, 56]
    case Int16 => [73, 110, 116, 49, 54]
    case Float => [70, 108, 111, 97, 116]
  }

  /** The names of the options as the code spells them. */
  lemma {:induction false} OptionNamesAre()
    ensures Ascii.Spells(DATATYPE, "datatype") && Ascii.Spells(RESULTNUM, "resultnum") && Ascii.Spells(INDEXNAME, "indexname")
  {
  }

  lemma {:induction false} MoreNamesAre()
    ensures Ascii.Spells(EXTRACTMETADATA, "extractmetadata") && Ascii.Spells(TRUE, "true") && Ascii.Spells(FALSE, "false")
  {
  }

  lemma {:induction false} TypeNamesAre()
    ensures Ascii.Spells(TypeName(Int8), "Int8") && Ascii.Spells(TypeName(UInt8), "UInt8")
    ensures Ascii.Spells(TypeName(Int16), "Int16") && Ascii.Spells(TypeName(Float), "Float")
    ensures Ascii.Spells(TypeName(Undefined), "Undefined")
  {
  }

  /** Blank, tabulators, line and page breaks. */
  lemma {:induction false} SpacesAre(c: Byte)
    ensures IsSpace(c) <==> c in [32, 9, 10, 11, 12, 13]
    ensures Ascii.Spells([32, 9, 10, 13], " \t\n\r")
  {
  }

  lemma {:induction false} MarksAre()
    ensures Ascii.Is(SPACE, ' ') && Ascii.Is(HASH, '#') && Ascii.Is(DOLLAR, '$') && Ascii.Is(COLON, ':') && Ascii.Is(EQUAL, '=')
    ensures Ascii.Is(COMMA, ',') && Ascii.Is(MINUS, '-') && Ascii.Is(PLUS, '+')
  {
  }

  function TypeSize(t: ValueType): nat {
    match t
    case Undefined => 0
    case Int8 => 1
    case UInt8 => 1
    case Int16 => 2
    case Float => 4
  }

  function Up(c: Byte): Byte {
    if 97 <= c <= 122 then c - 32 else c
  }

  predicate SameIgnoringCase(a: Text, b: Text) {
    if a == [] || b == [] then a == b else Up(a[0]) == Up(b[0]) && SameIgnoringCase(a[1..], b[1..])
  }

  lemma {:induction false} SameAsItself(a: Text)
    ensures SameIgnoringCase(a, a)
  {
    if a != [] {
      SameAsItself(a[1..]);
    }
  }

  lemma {:induction false} SameLength(a: Text, b: Text)
    requires SameIgnoringCase(a, b)
    ensures |a| == |b| && (a != [] ==> Up(a[0]) == Up(b[0]))
  {
    if a != [] && b != [] {
      SameLength(a[1..], b[1..]);
    }
  }

  function ParseType(v: Text): Maybe<ValueType> {
    if SameIgnoringCase(v, TypeName(Int8)) then Just(Int8)
    else if SameIgnoringCase(v, TypeName(UInt8)) then Just(UInt8)
    else if SameIgnoringCase(v, TypeName(Int16)) then Just(Int16)
    else if SameIgnoringCase(v, TypeName(Float)) then Just(Float)
    else Nothing
  }

  function ParseBool(v: Text): Maybe<bool> {
    if SameIgnoringCase(v, TRUE) then Just(true) else if SameIgnoringCase(v, FALSE) then Just(false) else Nothing
  }

  lemma {:induction false} TypeBack(t: ValueType)
    requires t != Undefined
    ensures ParseType(TypeName(t)) == Just(t)
  {
    SameAsItself(TypeName(t));
    forall u: ValueType | SameIgnoringCase(TypeName(t), TypeName(u)) && u != Undefined
      ensures u == t
    {
      SameLength(TypeName(t), TypeName(u));
    }
  }

  function PrintBool(b: bool): Text {
    if b then TRUE else FALSE
  }

  lemma {:induction false} BoolBack(b: bool)
    ensures ParseBool(PrintBool(b)) == Just(b)
  {
    SameAsItself(PrintBool(b));
    if SameIgnoringCase(FALSE, TRUE) {
      SameLength(FALSE, TRUE);
    }
  }

  function Digit(d: nat): Byte
    requires d < 10
  {
    match d
    case 0 => 48
    case 1 => 49
    case 2 => 50
    case 3 => 51
    case 4 => 52
    case 5 => 53
    case 6 => 54
    case 7 => 55
    case 8 => 56
    case _ => 57
  }

  function DigitValue(c: Byte): Maybe<nat> {
    if c == 48 then Just(0) else if c == 49 then Just(1) else if c == 50 then Just(2) else if c == 51 then Just(3)
    else if c == 52 then Just(4) else if c == 53 then Just(5) else if c == 54 then Just(6) else if c == 55 then Just(7)
    else if c == 56 then Just(8) else if c == 57 then Just(9) else Nothing
  }

  lemma {:induction false} DigitsAre(d: nat)
    requires d < 10
    ensures Ascii.Is(Digit(d), "0123456789"[d])
  {
  }

  lemma {:induction false} DigitBack(d: nat)
    requires d < 10
    ensures DigitValue(Digit(d)) == Just(d) && Digit(d) != MINUS && Digit(d) != PLUS && Plain([Digit(d)])
  {
    assert [Digit(d)][1..] == [];
  }

  /** `std::to_string`. */
  function PrintNat(n: nat): (r: Text)
    ensures r != []
  {
    if n < 10 then [Digit(n)] else PrintNat(n / 10) + [Digit(n % 10)]
  }

  function PrintInt(n: int): (r: Text)
    ensures r != []
  {
    if n < 0 then [MINUS] + PrintNat(-n) else PrintNat(n)
  }

  function ParseNat(t: Text): Maybe<nat> {
    if t == [] then Just(0)
    else
      match (ParseNat(t[..|t| - 1]), DigitValue(t[|t| - 1]))
      case (Just(m), Just(d)) => Just(10 * m + d)
      case _ => Nothing
  }

  /** Conversion to a signed 32-bit integer: an optional sign, at least one digit, nothing else, in range. */
  function ParseInt(t: Text): Maybe<int> {
    var negative := t != [] && t[0] == MINUS;
    var digits := if t != [] && (t[0] == MINUS || t[0] == PLUS) then t[1..] else t;
    if digits == [] then Nothing
    else
      match ParseNat(digits)
      case Nothing => Nothing
      case Just(m) => InRange(Signed(negative, m))
  }

  function Signed(negative: bool, m: int): int {
    if negative then -m else m
  }

  function InRange(n: int): Maybe<int> {
    if -0x8000_0000 <= n <= 0x7fff_ffff then Just(n) else Nothing
  }

  lemma {:induction false} NatBack(n: nat)
    ensures ParseNat(PrintNat(n)) == Just(n) && PrintNat(n)[0] != MINUS && PrintNat(n)[0] != PLUS && Plain(PrintNat(n))
  {
    hide Digit, DigitValue, Plain;
    if n < 10 {
      DigitBack(n);
      assert [Digit(n)][..0] == [];
    } else {
      NatBack(n / 10);
      DigitBack(n % 10);
      var t := PrintNat(n);
      assert t[..|t| - 1] == PrintNat(n / 10);
      PlainConcat(PrintNat(n / 10), [Digit(n % 10)]);
    }
  }

  /** No leading zero, and a minus sign exactly for negative numbers. */
  lemma {:induction false} PrintedPlainly(n: int)
    ensures PrintInt(n)[0] == MINUS <==> n < 0
    ensures n > 0 ==> PrintInt(n)[0] != Digit(0)
    ensures n == 0 ==> PrintInt(n) == [Digit(0)]
  {
    if n < 0 {
      assert PrintInt(n)[0] == MINUS;
    } else {
      FirstDigit(n);
    }
  }

  lemma {:induction false} FirstDigit(n: nat)
    ensures PrintNat(n)[0] != MINUS && (n > 0 ==> PrintNat(n)[0] != Digit(0))
  {
    if n >= 10 {
      FirstDigit(n / 10);
    }
  }

  /** The number in the name of an integer type is its bits. */
  lemma {:induction false} TypeSizesAre()
    ensures ParseNat(TypeName(Int8)[3..]) == Just(8 * TypeSize(Int8)) && ParseNat(TypeName(UInt8)[4..]) == Just(8 * TypeSize(UInt8))
    ensures ParseNat(TypeName(Int16)[3..]) == Just(8 * TypeSize(Int16)) && 8 * TypeSize(Float) == 32 && TypeSize(Undefined) == 0
  {
    OneDigit(56);
    assert TypeName(Int8)[3..] == [56] && TypeName(UInt8)[4..] == [56] && TypeName(Int16)[3..] == [49, 54];
    OneDigit(49);
    assert ParseNat([49, 54]) == Just(16) by {
      assert [49 as Byte, 54][..1] == [49];
    }
  }

  lemma {:induction false} OneDigit(c: Byte)
    requires DigitValue(c).Just?
    ensures ParseNat([c]) == DigitValue(c)
  {
    assert [c][..0] == [];
  }

  lemma {:induction false} IntBack(n: int)
    requires -0x8000_0000 <= n <= 0x7fff_ffff
    ensures ParseInt(PrintInt(n)) == Just(n) && Plain(PrintInt(n))
  {
    if n < 0 {
      NatBack(-n);
      SignedBack(PrintNat(-n), -n);
    } else {
      NatBack(n);
    }
  }

  lemma {:induction false} SignedBack(t: Text, m: nat)
    requires t != [] && ParseNat(t) == Just(m) && Plain(t) && m <= 0x8000_0000
    ensures ParseInt([MINUS] + t) == Just(Signed(true, m)) && Plain([MINUS] + t)
  {
    assert ([MINUS] + t)[1..] == t;
  }

  lemma {:induction false} PlainConcat(a: Text, b: Text)
    requires Plain(a) && Plain(b)
    ensures Plain(a + b)
  {
    if a == [] {
      assert a + b == b;
    } else {
      PlainConcat(a[1..], b);
      assert (a + b)[1..] == a[1..] + b;
    }
  }

  lemma {:induction false} PlainChar(u: Byte)
    ensures Plain([Base64.Enc(u)]) && Plain([Base64.PAD])
  {
    assert [Base64.Enc(u)][1..] == [] && [Base64.PAD][1..] == [];
  }

  lemma {:induction false} PlainFour(a: Byte, b: Byte, c: Byte, d: Byte)
    requires Plain([a]) && Plain([b]) && Plain([c]) && Plain([d])
    ensures Plain([a, b, c, d])
  {
    PlainConcat([a], [b]);
    PlainConcat([c], [d]);
    assert [a] + [b] == [a, b] && [c] + [d] == [c, d];
    PlainConcat([a, b], [c, d]);
    assert [a, b] + [c, d] == [a, b, c, d];
  }

  lemma {:induction false} PlainEncoded(s: seq<Byte>)
    ensures Plain(Base64.Encoded(s))
  {
    if |s| >= 3 {
      PlainChar(Base64.First(s[0]));
      PlainChar(Base64.Second(s[0], s[1]));
      PlainChar(Base64.Third(s[1], s[2]));
      PlainChar(Base64.Fourth(s[2]));
      var q := Base64.Quad(s[0], s[1], s[2]);
      PlainFour(q[0], q[1], q[2], q[3]);
      PlainEncoded(s[3..]);
      PlainConcat(q, Base64.Encoded(s[3..]));
    } else if |s| > 0 {
      PlainChar(Base64.First(s[0]));
      PlainChar(Base64.Second(s[0], 0));
      if |s| == 2 {
        PlainChar(Base64.Second(s[0], s[1]));
        PlainChar(Base64.Third(s[1], 0));
      }
      var q := Base64.Padded(s);
      PlainFour(q[0], q[1], q[2], q[3]);
    }
  }

  /** Visible characters are plain, small letters also make names. */
  lemma {:induction false} VisiblePlain(t: Text)
    requires forall k | 0 <= k < |t| :: 33 <= t[k] <= 126
    ensures Plain(t)
  {
    if t != [] {
      assert 33 <= t[0] <= 126;
      VisiblePlain(t[1..]);
    }
  }

  lemma {:induction false} LettersName(t: Text)
    requires forall k | 0 <= k < |t| :: 97 <= t[k] <= 122
    ensures NameRest(t)
  {
    if t != [] {
      assert 97 <= t[0] <= 122;
      LettersName(t[1..]);
    }
  }

  lemma {:induction false} LettersGood(t: Text)
    requires t != [] && forall k | 0 <= k < |t| :: 97 <= t[k] <= 122
    ensures GoodName(t) && GoodValue(t)
  {
    VisiblePlain(t);
    LettersName(t[1..]);
  }

  /** The options every query carries. */
  function Standard(t: ValueType, resultNum: int, extract: bool): seq<Option> {
    Three(DATATYPE, TypeName(t), RESULTNUM, PrintInt(resultNum), EXTRACTMETADATA, PrintBool(extract))
  }

  function Three(n1: Text, v1: Text, n2: Text, v2: Text, n3: Text, v3: Text): seq<Option> {
    [(n1, v1), (n2, v2), (n3, v3)]
  }

  lemma {:induction false} ThreeGood(n1: Text, v1: Text, n2: Text, v2: Text, n3: Text, v3: Text)
    requires GoodName(n1) && GoodValue(v1) && GoodName(n2) && GoodValue(v2) && GoodName(n3) && GoodValue(v3)
    ensures GoodOptions(Three(n1, v1, n2, v2, n3, v3))
  {
    GoodSnoc([], (n1, v1));
    GoodSnoc([(n1, v1)], (n2, v2));
    GoodSnoc([(n1, v1), (n2, v2)], (n3, v3));
    assert [] + [(n1, v1)] == [(n1, v1)];
    assert [(n1, v1)] + [(n2, v2)] == [(n1, v1), (n2, v2)];
    assert [(n1, v1), (n2, v2)] + [(n3, v3)] == Three(n1, v1, n2, v2, n3, v3);
  }

  lemma {:induction false} DatatypeGood()
    ensures GoodName(DATATYPE)
  {
    LettersGood(DATATYPE);
  }

  lemma {:induction false} TypeNameGood(t: ValueType)
    ensures GoodValue(TypeName(t))
  {
    var n := TypeName(t);
    forall k | 0 <= k < |n| ensures 33 <= n[k] <= 126 {
      match t
      case Undefined =>
      case Int8 =>
      case UInt8 =>
      case Int16 =>
      case Float =>
    }
    VisiblePlain(n);
  }

  lemma {:induction false} ResultnumGood()
    ensures GoodName(RESULTNUM)
  {
    LettersGood(RESULTNUM);
  }

  lemma {:induction false} ExtractGood()
    ensures GoodName(EXTRACTMETADATA)
  {
    LettersGood(EXTRACTMETADATA);
  }

  lemma {:induction false} FlagGood(b: bool)
    ensures GoodValue(PrintBool(b))
  {
    LettersGood(PrintBool(b));
  }

  lemma {:induction false} StandardGood(t: ValueType, resultNum: int, extract: bool)
    requires -0x8000_0000 <= resultNum <= 0x7fff_ffff
    ensures GoodOptions(Standard(t, resultNum, extract))
  {
    DatatypeGood();
    TypeNameGood(t);
    ResultnumGood();
    ExtractGood();
    IntBack(resultNum);
    FlagGood(extract);
    ThreeGood(DATATYPE, TypeName(t), RESULTNUM, PrintInt(resultNum), EXTRACTMETADATA, PrintBool(extract));
  }

  lemma {:induction false} GoodSnoc(os: seq<Option>, o: Option)
    requires GoodOptions(os) && GoodOption(o)
    ensures GoodOptions(os + [o])
  {
    assert (os + [o])[..|os|] == os;
  }

  lemma {:induction false} GoodConcat(a: seq<Option>, b: seq<Option>)
    requires GoodOptions(a) && GoodOptions(b)
    ensures GoodOptions(a + b)
  {
    if b == [] {
      assert a + b == a;
    } else {
      var k := |b| - 1;
      GoodConcat(a, b[..k]);
      assert a + b == (a + b[..k]) + [b[k]];
      GoodSnoc(a + b[..k], b[k]);
    }
  }

  datatype Fields = Fields(valueType: ValueType, extract: bool, resultNum: int, indexNames: seq<Text>)

  function FirstComma(v: Text): (k: nat)
    ensures k <= |v| && (k < |v| ==> v[k] == COMMA)
  {
    if v == [] || v[0] == COMMA then 0 else 1 + FirstComma(v[1..])
  }

  /** The names between commas, empty ones left out. */
  function Pieces(v: Text): seq<Text>
    decreases |v|
  {
    if v == [] then []
    else
      var k := FirstComma(v);
      (if k > 0 then [v[..k]] else []) + (if k < |v| then Pieces(v[k + 1..]) else [])
  }

  function ExtractOne(f: Fields, o: Option): Fields {
    if SameIgnoringCase(o.0, INDEXNAME) then f.(indexNames := f.indexNames + Pieces(o.1))
    else if SameIgnoringCase(o.0, DATATYPE) then
      (match ParseType(o.1) case Just(t) => f.(valueType := t) case Nothing => f)
    else if SameIgnoringCase(o.0, EXTRACTMETADATA) then
      (match ParseBool(o.1) case Just(b) => f.(extract := b) case Nothing => f)
    else if SameIgnoringCase(o.0, RESULTNUM) then
      (match ParseInt(o.1) case Just(n) => f.(resultNum := n) case Nothing => f)
    else f
  }

  /** `ExtractOption` over all options, in order. */
  function Extract(f: Fields, os: seq<Option>): Fields {
    if os == [] then f else ExtractOne(Extract(f, os[..|os| - 1]), os[|os| - 1])
  }

  lemma {:induction false} ExtractSnoc(f: Fields, os: seq<Option>, o: Option)
    ensures Extract(f, os + [o]) == ExtractOne(Extract(f, os), o)
  {
    assert (os + [o])[..|os|] == os;
  }

  predicate Reserved(n: Text) {
    SameIgnoringCase(n, DATATYPE) || SameIgnoringCase(n, EXTRACTMETADATA) || SameIgnoringCase(n, RESULTNUM)
  }

  predicate Unreserved(os: seq<Option>) {
    os == [] || (Unreserved(os[..|os| - 1]) && !Reserved(os[|os| - 1].0))
  }

  lemma {:induction false} ReservedDiffer()
    ensures !SameIgnoringCase(DATATYPE, INDEXNAME) && !SameIgnoringCase(RESULTNUM, INDEXNAME)
    ensures !SameIgnoringCase(EXTRACTMETADATA, INDEXNAME) && !SameIgnoringCase(RESULTNUM, DATATYPE)
    ensures !SameIgnoringCase(RESULTNUM, EXTRACTMETADATA) && !SameIgnoringCase(EXTRACTMETADATA, DATATYPE)
  {
    if SameIgnoringCase(RESULTNUM, INDEXNAME) {
      SameLength(RESULTNUM, INDEXNAME);
    }
    forall a, b | a in [DATATYPE, RESULTNUM, EXTRACTMETADATA] && b in [INDEXNAME, DATATYPE, EXTRACTMETADATA] && |a| != |b|
      ensures !SameIgnoringCase(a, b)
    {
      if SameIgnoringCase(a, b) {
        SameLength(a, b);
      }
    }
  }

  lemma {:induction false} ThreeExtracted(f: Fields, a: Option, b: Option, c: Option)
    ensures Extract(f, Three(a.0, a.1, b.0, b.1, c.0, c.1)) == ExtractOne(ExtractOne(ExtractOne(f, a), b), c)
  {
    ExtractSnoc(f, [], a);
    ExtractSnoc(f, [a], b);
    ExtractSnoc(f, [a, b], c);
    assert [] + [a] == [a] && [a] + [b] == [a, b] && [a, b] + [c] == [a, b, c];
  }

  lemma {:induction false} TypeExtracted(f: Fields, t: ValueType)
    requires t != Undefined
    ensures ExtractOne(f, (DATATYPE, TypeName(t))) == f.(valueType := t)
  {
    ReservedDiffer();
    SameAsItself(DATATYPE);
    TypeBack(t);
  }

  lemma {:induction false} NumberExtracted(f: Fields, n: int)
    requires -0x8000_0000 <= n <= 0x7fff_ffff
    ensures ExtractOne(f, (RESULTNUM, PrintInt(n))) == f.(resultNum := n)
  {
    ReservedDiffer();
    SameAsItself(RESULTNUM);
    IntBack(n);
  }

  lemma {:induction false} FlagExtracted(f: Fields, b: bool)
    ensures ExtractOne(f, (EXTRACTMETADATA, PrintBool(b))) == f.(extract := b)
  {
    ReservedDiffer();
    SameAsItself(EXTRACTMETADATA);
    BoolBack(b);
  }

  lemma {:induction false} StandardExtracted(f: Fields, t: ValueType, resultNum: int, extract: bool)
    requires t != Undefined && -0x8000_0000 <= resultNum <= 0x7fff_ffff
    ensures Extract(f, Standard(t, resultNum, extract)) == Fields(t, extract, resultNum, f.indexNames)
  {
    ThreeExtracted(f, (DATATYPE, TypeName(t)), (RESULTNUM, PrintInt(resultNum)), (EXTRACTMETADATA, PrintBool(extract)));
    TypeExtracted(f, t);
    NumberExtracted(f.(valueType := t), resultNum);
    FlagExtracted(f.(valueType := t, resultNum := resultNum), extract);
  }

  /** Unreserved parameters leave the three standard fields alone. */
  lemma {:induction false} ParamsExtracted(f: Fields, os: seq<Option>, params: seq<Option>)
    requires Unreserved(params)
    ensures var a, b := Extract(f, os), Extract(f, os + params);
            b.valueType == a.valueType && b.extract == a.extract && b.resultNum == a.resultNum
    decreases |params|
  {
    if params == [] {
      assert os + params == os;
    } else {
      var k := |params| - 1;
      ParamsExtracted(f, os, params[..k]);
      assert os + params == (os + params[..k]) + [params[k]];
      ExtractSnoc(f, os + params[..k], params[k]);
    }
  }

  function PrintSearch(data: seq<Byte>, t: ValueType, resultNum: int, extract: bool, params: seq<Option>): Text {
    PrintQuery(Base64.Encoded(data), Standard(t, resultNum, extract) + params)
  }

  /** The loop variables after the whole text, and the buffer with its terminator. */
  function FinalScan(text: Text, separators: Text): Scan {
    Close(Run(Begin(), text, 0, separators), |text|)
  }

  function FinalBuffer(text: Text, separators: Text): Text {
    Bytes(Begin(), text, 0, separators) + [NUL]
  }

  /** The Base64 token, empty if there is none. */
  function Token(b: Text, scan: Scan): Text {
    if scan.base64.At? && 0 <= scan.base64Length <= |b| - scan.base64.p
    then b[scan.base64.p..scan.base64.p + scan.base64Length] else []
  }

  /** What the parser hands on: the options, the Base64 token, and no plain vector. */
  ghost predicate ParsesTo(text: Text, separators: Text, os: seq<Option>, enc: Text) {
    var scan, b := FinalScan(text, separators), FinalBuffer(text, separators);
    Strings(b, scan.options) == os && Token(b, scan) == enc && scan.vectorBegin.Null?
  }

  lemma {:induction false} PrintedParses(enc: Text, os: seq<Option>, separators: Text)
    requires Plain(enc) && GoodOptions(os) && os != []
    ensures ParsesTo(PrintQuery(enc, os), separators, os, enc)
  {
    ScanQuery(enc, os, separators);
    PrintedBack(FinalBuffer(PrintQuery(enc, os), separators), enc, os);
  }

  lemma {:induction false} PrintedBack(b: Text, enc: Text, os: seq<Option>)
    requires GoodOptions(os) && os != [] && b == ([HASH] + enc + CutOptions(os)) + [NUL]
    ensures Strings(b, Scanned(enc, os).options) == os && Token(b, Scanned(enc, os)) == enc
  {
    WithoutRest(b, enc, os);
    OptionsBack(b, [HASH] + enc, os, []);
    TokenBack(b, enc, CutOptions(os) + [NUL]);
  }

  lemma {:induction false} WithoutRest(b: Text, enc: Text, os: seq<Option>)
    requires b == ([HASH] + enc + CutOptions(os)) + [NUL]
    ensures Lies(b, [HASH] + enc, os, []) && b == [HASH] + enc + (CutOptions(os) + [NUL])
  {
  }

  lemma {:induction false} TokenBack(b: Text, enc: Text, rest: Text)
    requires b == [HASH] + enc + rest
    ensures 1 + |enc| <= |b| && b[1..1 + |enc|] == enc
  {
  }

  /** `ExtractVector` from a Base64 token. */
  function ExtractVector(enc: Text, t: ValueType): Maybe<(seq<Byte>, nat)>
    requires t != Undefined
  {
    if enc == [] then Nothing
    else
      match Base64.Decoded(enc)
      case Refused => Nothing
      case Bytes(data) => if |data| % TypeSize(t) != 0 then Nothing else Just((data, |data| / TypeSize(t)))
  }

  /** The text of a query: the mark, the vector, the three options every query has, then one more for each parameter. */
  lemma {:induction false} PrintedForm(data: seq<Byte>, t: ValueType, resultNum: int, extract: bool)
    ensures PrintSearch(data, t, resultNum, extract, []) ==
            [HASH] + Base64.Encoded(data) +
            ([SPACE, DOLLAR] + DATATYPE + [COLON] + TypeName(t) +
             ([SPACE, DOLLAR] + RESULTNUM + [COLON] + PrintInt(resultNum)) +
             ([SPACE, DOLLAR] + EXTRACTMETADATA + [COLON] + if extract then TRUE else FALSE))
  {
    hide DATATYPE, RESULTNUM, EXTRACTMETADATA, TypeName, PrintInt, PrintOptions, Base64.Encoded;
    var os := Standard(t, resultNum, extract);
    assert os + [] == os;
    ThreePrinted(os[0], os[1], os[2]);
  }

  lemma {:induction false} ThreePrinted(a: Option, b: Option, c: Option)
    ensures PrintOptions([a, b, c]) ==
            [SPACE, DOLLAR] + a.0 + [COLON] + a.1 + ([SPACE, DOLLAR] + b.0 + [COLON] + b.1) + ([SPACE, DOLLAR] + c.0 + [COLON] + c.1)
  {
    PrintedMore([], a);
    PrintedMore([a], b);
    PrintedMore([a, b], c);
    assert [] + [a] == [a] && [a] + [b] == [a, b] && [a, b] + [c] == [a, b, c];
    assert [] + ([SPACE, DOLLAR] + a.0 + [COLON] + a.1) == [SPACE, DOLLAR] + a.0 + [COLON] + a.1;
  }

  lemma {:induction false} PrintedMore(os: seq<Option>, o: Option)
    ensures PrintOptions(os + [o]) == PrintOptions(os) + ([SPACE, DOLLAR] + o.0 + [COLON] + o.1)
  {
    assert (os + [o])[..|os|] == os;
  }

  lemma {:induction false} PrintedParam(data: seq<Byte>, t: ValueType, resultNum: int, extract: bool, params: seq<Option>, n: Text, v: Text)
    ensures PrintSearch(data, t, resultNum, extract, params + [(n, v)]) ==
            PrintSearch(data, t, resultNum, extract, params) + ([SPACE, DOLLAR] + n + [COLON] + v)
  {
    var os := Standard(t, resultNum, extract);
    assert os + (params + [(n, v)]) == os + params + [(n, v)];
    PrintedMore(os + params, (n, v));
    Associate([HASH] + Base64.Encoded(data), PrintOptions(os + params), [SPACE, DOLLAR] + n + [COLON] + v);
  }

  /** What the client meant is what the server gets: the bytes, the dimension, the result number, the metadata flag and
      all parameters, whatever the separators and the defaults. */
  lemma {:induction false} QueryRoundTrip(data: seq<Byte>, t: ValueType, resultNum: int, extract: bool,
                                          params: seq<Option>, separators: Text, f: Fields)
    requires t != Undefined && data != [] && |data| % TypeSize(t) == 0
    requires -0x8000_0000 <= resultNum <= 0x7fff_ffff
    requires GoodOptions(params) && Unreserved(params)
    ensures var os := Standard(t, resultNum, extract) + params;
            && ParsesTo(PrintSearch(data, t, resultNum, extract, params), separators, os, Base64.Encoded(data))
            && Extract(f, os).valueType == t && Extract(f, os).resultNum == resultNum && Extract(f, os).extract == extract
    ensures ExtractVector(Base64.Encoded(data), t) == Just((data, |data| / TypeSize(t)))
  {
    PlainEncoded(data);
    StandardGood(t, resultNum, extract);
    GoodConcat(Standard(t, resultNum, extract), params);
    PrintedParses(Base64.Encoded(data), Standard(t, resultNum, extract) + params, separators);
    StandardExtracted(f, t, resultNum, extract);
    ParamsExtracted(f, Standard(t, resultNum, extract), params);
    Base64.DecodeEncoded(data);
  }

  predicate NoIndexName(os: seq<Option>) {
    os == [] || (NoIndexName(os[..|os| - 1]) && !SameIgnoringCase(os[|os| - 1].0, INDEXNAME))
  }

  lemma {:induction false} OthersKeepNames(f: Fields, a: seq<Option>, b: seq<Option>)
    requires NoIndexName(b)
    ensures Extract(f, a + b).indexNames == Extract(f, a).indexNames
    decreases |b|
  {
    hide Extract, ExtractOne, SameIgnoringCase;
    if b == [] {
      assert a + b == a;
    } else {
      var k := |b| - 1;
      OthersKeepNames(f, a, b[..k]);
      assert a + b == (a + b[..k]) + [b[k]];
      ExtractSnoc(f, a + b[..k], b[k]);
      OtherKeepsNames(Extract(f, a + b[..k]), b[k]);
    }
  }

  lemma {:induction false} OtherKeepsNames(f: Fields, o: Option)
    requires !SameIgnoringCase(o.0, INDEXNAME)
    ensures ExtractOne(f, o).indexNames == f.indexNames
  {
    hide SameIgnoringCase, ParseType, ParseBool, ParseInt;
  }

  /** Index names, sent joined by commas as a parameter of that name in any case, are added in order whatever the other
      parameters are. */
  lemma {:induction false} IndexNamesArrive(f: Fields, t: ValueType, resultNum: int, extract: bool, before: seq<Option>, n: Text,
                                            names: seq<Text>, after: seq<Option>)
    requires t != Undefined && -0x8000_0000 <= resultNum <= 0x7fff_ffff
    requires NoIndexName(before) && NoIndexName(after) && SameIgnoringCase(n, INDEXNAME) && names != [] && IndexNames(names)
    ensures Extract(f, Standard(t, resultNum, extract) + before + [(n, Join(names))] + after).indexNames == f.indexNames + names
  {
    var os := Standard(t, resultNum, extract);
    StandardExtracted(f, t, resultNum, extract);
    OthersKeepNames(f, os, before);
    ExtractSnoc(f, os + before, (n, Join(names)));
    NamesBack(names);
    OthersKeepNames(f, os + before + [(n, Join(names))], after);
  }

  /** An empty vector is refused: its token is empty. */
  lemma {:induction false} EmptyVectorFails(t: ValueType, resultNum: int, extract: bool, params: seq<Option>, separators: Text)
    requires t != Undefined && -0x8000_0000 <= resultNum <= 0x7fff_ffff && GoodOptions(params)
    ensures ParsesTo(PrintSearch([], t, resultNum, extract, params), separators, Standard(t, resultNum, extract) + params, [])
    ensures ExtractVector([], t).Nothing?
  {
    StandardGood(t, resultNum, extract);
    GoodConcat(Standard(t, resultNum, extract), params);
    PrintedParses([], Standard(t, resultNum, extract) + params, separators);
  }

  function Join(names: seq<Text>): Text
    requires names != []
  {
    if |names| == 1 then names[0] else names[0] + [COMMA] + Join(names[1..])
  }

  predicate NoComma(t: Text) {
    t == [] || (t[0] != COMMA && NoComma(t[1..]))
  }

  lemma {:induction false} CommaAfter(a: Text, rest: Text)
    requires NoComma(a) && (rest == [] || rest[0] == COMMA)
    ensures FirstComma(a + rest) == |a|
  {
    if a == [] {
      assert a + rest == rest;
    } else {
      CommaAfter(a[1..], rest);
      assert (a + rest)[1..] == a[1..] + rest;
    }
  }

  lemma {:induction false} OnePiece(a: Text)
    requires a != [] && NoComma(a)
    ensures Pieces(a) == [a]
  {
    CommaAfter(a, []);
    assert a + [] == a;
  }

  lemma {:induction false} PieceFirst(a: Text, tail: Text)
    requires a != [] && NoComma(a)
    ensures Pieces(a + [COMMA] + tail) == [a] + Pieces(tail)
  {
    var v := a + [COMMA] + tail;
    assert v == a + ([COMMA] + tail);
    CommaAfter(a, [COMMA] + tail);
    assert v[|a| + 1..] == tail && v[..|a|] == a;
  }

  predicate IndexNames(names: seq<Text>) {
    names == [] || (names[0] != [] && NoComma(names[0]) && IndexNames(names[1..]))
  }

  /** Index names joined by commas come apart again. */
  lemma {:induction false} NamesBack(names: seq<Text>)
    requires names != [] && IndexNames(names)
    ensures Pieces(Join(names)) == names
    decreases |names|
  {
    if |names| == 1 {
      OnePiece(names[0]);
    } else {
      NamesBack(names[1..]);
      PieceFirst(names[0], Join(names[1..]));
    }
  }
}
