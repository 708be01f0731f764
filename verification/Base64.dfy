/** Base64 (section 4 of RFC 4648): the two encoders, the decoder and the buffer sizes. */
module Base64 {
  import Ascii

  type Byte = bv8
  const PAD: Byte := 61

  datatype Result = Refused | Bytes(bytes: seq<Byte>)

  /** c_encTable. */
  function Enc(u: Byte): Byte {
    if u < 26 then 65 + u else if u < 52 then 71 + u else if u < 62 then u - 4 else if u == 62 then 43 else 47
  }

  /** c_decTable: 64 for what is not in the alphabet. */
  function Dec(c: Byte): Byte {
    if 65 <= c <= 90 then c - 65
    else if 97 <= c <= 122 then c - 71
    else if 48 <= c <= 57 then c + 4
    else if c == 43 then 62
    else if c == 47 then 63
    else 64
  }

  lemma {:induction false} TablesInverse(u: Byte, c: Byte)
    ensures u < 64 ==> Dec(Enc(u)) == u && Enc(u) != PAD
    ensures Dec(c) <= 64 && (Dec(c) < 64 ==> Enc(Dec(c)) == c && c != PAD)
    ensures Dec(PAD) == 64
  {
  }

  /** The alphabet: capital letters, small letters, digits, plus and slash; the pad is the equality sign. */
  lemma {:induction false} TableIsAlphabet(u: Byte)
    ensures Ascii.Is(Enc(0), 'A') && Ascii.Is(Enc(26), 'a') && Ascii.Is(Enc(52), '0') && Ascii.Is(Enc(62), '+') && Ascii.Is(Enc(63), '/')
    ensures u < 26 ==> Enc(u) == Enc(0) + u
    ensures 26 <= u < 52 ==> Enc(u) == Enc(26) + (u - 26)
    ensures 52 <= u < 62 ==> Enc(u) == Enc(52) + (u - 52)
    ensures Ascii.Is(PAD, '=')
  {
  }

  /** The four six-bit values of three bytes, and the three bytes of four six-bit values. */
  function First(a: Byte): Byte { a >> 2 }

  function Second(a: Byte, b: Byte): Byte { ((a & 3) << 4) | ((b & 0xf0) >> 4) }

  function Third(b: Byte, c: Byte): Byte { ((b & 0x0f) << 2) | ((c & 0xc0) >> 6) }

  function Fourth(c: Byte): Byte { c & 0x3f }

  function High(u0: Byte, u1: Byte): Byte { (u0 << 2) | (u1 >> 4) }

  function Middle(u1: Byte, u2: Byte): Byte { (u1 << 4) | (u2 >> 2) }

  function Low(u2: Byte, u3: Byte): Byte { (u2 << 6) | u3 }

  lemma {:induction false} SixBits(a: Byte, b: Byte, c: Byte)
    ensures First(a) < 64 && Second(a, b) < 64 && Third(b, c) < 64 && Fourth(c) < 64
    ensures Second(a, b) & 0x0f == 0 <==> b & 0xf0 == 0
  {
  }

  lemma {:induction false} BitsBack(a: Byte, b: Byte, c: Byte)
    ensures High(First(a), Second(a, b)) == a
    ensures Middle(Second(a, b), Third(b, c)) == b
    ensures Low(Third(b, c), Fourth(c)) == c
  {
  }

  lemma {:induction false} BitsForth(u0: Byte, u1: Byte, u2: Byte, u3: Byte)
    requires u0 < 64 && u1 < 64 && u2 < 64 && u3 < 64
    ensures First(High(u0, u1)) == u0
    ensures Second(High(u0, u1), Middle(u1, u2)) == u1
    ensures Third(Middle(u1, u2), Low(u2, u3)) == u2
    ensures Fourth(Low(u2, u3)) == u3
  {
  }

  /** Fewer than three bytes left: the missing bits are zero. */
  lemma {:induction false} TailBits(u0: Byte, u1: Byte, u2: Byte)
    requires u0 < 64 && u1 < 64 && u2 < 64
    ensures u1 & 0x0f == 0 <==> Second(High(u0, u1), 0) == u1
    ensures First(High(u0, u1)) == u0
    ensures u2 & 3 == 0 <==> Third(Middle(u1, u2), 0) == u2
    ensures Third(Middle(u1, u2), 0) & 3 == 0
  {
  }

  /** Four six-bit values and three bytes are the same 24 bits. */
  lemma {:induction false} SameBits(a: Byte, b: Byte, c: Byte)
    ensures ((First(a) as bv24 << 18) | (Second(a, b) as bv24 << 12) | (Third(b, c) as bv24 << 6) | Fourth(c) as bv24) ==
            ((a as bv24 << 16) | (b as bv24 << 8) | c as bv24)
  {
  }

  function Quad(a: Byte, b: Byte, c: Byte): seq<Byte> {
    [Enc(First(a)), Enc(Second(a, b)), Enc(Third(b, c)), Enc(Fourth(c))]
  }

  /** The last one or two bytes, padded. */
  function Padded(s: seq<Byte>): seq<Byte>
    requires |s| == 1 || |s| == 2
  {
    if |s| == 1 then [Enc(First(s[0])), Enc(Second(s[0], 0)), PAD, PAD]
    else [Enc(First(s[0])), Enc(Second(s[0], s[1])), Enc(Third(s[1], 0)), PAD]
  }

  function Encoded(s: seq<Byte>): seq<Byte> {
    if s == [] then [] else if |s| < 3 then Padded(s) else Quad(s[0], s[1], s[2]) + Encoded(s[3..])
  }

  /** Four characters before the last four: all must be in the alphabet. */
  function DecodeQuad(t: seq<Byte>): (r: Result)
    requires |t| == 4
    ensures r.Bytes? ==> |r.bytes| == 3
  {
    var u0, u1, u2, u3 := Dec(t[0]), Dec(t[1]), Dec(t[2]), Dec(t[3]);
    if u0 > 63 || u1 > 63 || u2 > 63 || u3 > 63 then Refused else Bytes([High(u0, u1), Middle(u1, u2), Low(u2, u3)])
  }

  /** The last four characters. The test of the spare bits before one pad looks at the pad's own table entry. */
  function DecodeLast(t: seq<Byte>): (r: Result)
    requires |t| == 4
    ensures r.Bytes? ==> 1 <= |r.bytes| <= 3
  {
    var u0, u1, u2, u3 := Dec(t[0]), Dec(t[1]), Dec(t[2]), Dec(t[3]);
    if u0 > 63 || u1 > 63 || (t[2] == PAD && t[3] != PAD) then Refused
    else if (u2 > 63 && t[2] != PAD) || (u3 > 63 && t[3] != PAD) then Refused
    else if t[2] == PAD then (if u1 & 0x0f != 0 then Refused else Bytes([High(u0, u1)]))
    else if t[3] == PAD then (if u3 & 3 != 0 then Refused else Bytes([High(u0, u1), Middle(u1, u2)]))
    else Bytes([High(u0, u1), Middle(u1, u2), Low(u2, u3)])
  }

  function Then(a: Result, b: Result): Result {
    if a.Refused? || b.Refused? then Refused else Bytes(a.bytes + b.bytes)
  }

  function Decoded(t: seq<Byte>): Result
    requires t != []
  {
    if |t| % 4 != 0 then Refused
    else if |t| == 4 then DecodeLast(t)
    else Then(DecodeQuad(t[..4]), Decoded(t[4..]))
  }

  function CapacityForEncode(n: nat): nat {
    (n + 2) / 3 * 4
  }

  function CapacityForDecode(n: nat): nat {
    n / 4 * 3 + n % 4 * 2 / 3
  }

  /** The buffer size for decoding is the number of whole bytes in so many six-bit values. */
  lemma {:induction false} CapacityIsWholeBytes(n: nat)
    ensures CapacityForDecode(n) == 6 * n / 8
  {
  }

  lemma {:induction false} EncodedLength(s: seq<Byte>)
    ensures |Encoded(s)| == CapacityForEncode(|s|) && |Encoded(s)| % 4 == 0
    ensures s != [] ==> Encoded(s) != []
  {
    CapacitySteps(|s|);
    if |s| >= 3 {
      EncodedLength(s[3..]);
    }
  }

  lemma {:induction false} CapacitySteps(n: nat)
    ensures CapacityForEncode(n) % 4 == 0
    ensures CapacityForEncode(n) == if n == 0 then 0 else if n < 3 then 4 else 4 + CapacityForEncode(n - 3)
  {
  }

  lemma {:induction false} QuadBack(a: Byte, b: Byte, c: Byte)
    ensures DecodeQuad(Quad(a, b, c)) == Bytes([a, b, c]) && DecodeLast(Quad(a, b, c)) == Bytes([a, b, c])
  {
    SixBits(a, b, c);
    BitsBack(a, b, c);
    TablesInverse(First(a), 0);
    TablesInverse(Second(a, b), 0);
    TablesInverse(Third(b, c), 0);
    TablesInverse(Fourth(c), 0);
  }

  lemma {:induction false} PaddedBack(s: seq<Byte>)
    requires |s| == 1 || |s| == 2
    ensures DecodeLast(Padded(s)) == Bytes(s)
  {
    var a, b := s[0], if |s| == 1 then 0 else s[1];
    SixBits(a, b, 0);
    BitsBack(a, b, 0);
    TablesInverse(First(a), 0);
    TablesInverse(Second(a, b), 0);
    TablesInverse(Third(b, 0), 0);
  }

  /** Decoding undoes encoding on every nonempty input. */
  lemma {:induction false} DecodeEncoded(s: seq<Byte>)
    requires s != []
    ensures Encoded(s) != [] && Decoded(Encoded(s)) == Bytes(s)
  {
    EncodedLength(s);
    if |s| < 3 {
      PaddedBack(s);
    } else {
      QuadBack(s[0], s[1], s[2]);
      if |s| == 3 {
        assert s == [s[0], s[1], s[2]];
      } else {
        DecodeEncoded(s[3..]);
        EncodedLength(s[3..]);
        var t := Encoded(s);
        assert t[..4] == Quad(s[0], s[1], s[2]) && t[4..] == Encoded(s[3..]);
        assert s == [s[0], s[1], s[2]] + s[3..];
      }
    }
  }

  /** One pad after a character whose two spare bits are not zero. */
  predicate Loose(t: seq<Byte>)
    requires |t| >= 4
  {
    t[|t| - 1] == PAD && t[|t| - 2] != PAD && Dec(t[|t| - 2]) & 3 != 0
  }

  lemma {:induction false} QuadForth(t: seq<Byte>)
    requires |t| == 4 && DecodeQuad(t).Bytes?
    ensures var s := DecodeQuad(t).bytes; Quad(s[0], s[1], s[2]) == t
  {
    forall i | 0 <= i < 4 ensures Dec(t[i]) < 64 && Enc(Dec(t[i])) == t[i] {
      TablesInverse(0, t[i]);
    }
    BitsForth(Dec(t[0]), Dec(t[1]), Dec(t[2]), Dec(t[3]));
  }

  lemma {:induction false} LastForth(t: seq<Byte>)
    requires |t| == 4 && DecodeLast(t).Bytes?
    ensures Encoded(DecodeLast(t).bytes) == t <==> !Loose(t)
    ensures var e := Encoded(DecodeLast(t).bytes); |e| == 4 && e[0] == t[0] && e[1] == t[1] && e[3] == t[3]
  {
    var s := DecodeLast(t).bytes;
    TablesInverse(0, t[0]);
    TablesInverse(0, t[1]);
    TablesInverse(0, t[2]);
    TablesInverse(0, t[3]);
    var u0, u1, u2, u3 := Dec(t[0]), Dec(t[1]), Dec(t[2]), Dec(t[3]);
    if t[2] == PAD {
      TailBits(u0, u1, 0);
    } else if t[3] == PAD {
      TailBits(u0, u1, u2);
      BitsForth(u0, u1, u2, 0);
      TablesInverse(Third(s[1], 0), t[2]);
    } else {
      BitsForth(u0, u1, u2, u3);
      assert s[3..] == [];
    }
  }

  /** Every accepted text encodes back to itself, except those with one pad and nonzero spare bits before it, which
      differ in their last data character and nowhere else. */
  lemma {:induction false} EncodeDecoded(t: seq<Byte>)
    requires t != [] && Decoded(t).Bytes?
    ensures |t| >= 4 && |t| % 4 == 0
    ensures Encoded(Decoded(t).bytes) == t <==> !Loose(t)
    ensures var e := Encoded(Decoded(t).bytes);
            |e| == |t| && forall i | 0 <= i < |t| && i != |t| - 2 :: e[i] == t[i]
  {
    if |t| == 4 {
      LastForth(t);
    } else {
      EncodeDecoded(t[4..]);
      QuadForth(t[..4]);
      var a, b := DecodeQuad(t[..4]).bytes, Decoded(t[4..]).bytes;
      EncodedJoin(a, b);
      FirstFour(t, Encoded(b));
    }
  }

  /** The encoding with the spare bits before its one pad spoilt. */
  function Spoilt(s: seq<Byte>): (t: seq<Byte>)
    requires |s| % 3 == 2
    ensures |t| == |Encoded(s)| >= 4
  {
    EncodedLength(s);
    var e := Encoded(s);
    e[|e| - 2 := Enc(Dec(e[|e| - 2]) | 1)]
  }

  lemma {:induction false} SpareBits(a: Byte, b: Byte)
    ensures var v := Third(b, 0); Dec(Enc(v)) == v && v | 1 < 64 && (v | 1) & 3 != 0 && Middle(Second(a, b), v | 1) == b
  {
    SixBits(a, b, 0);
    TablesInverse(Third(b, 0), 0);
  }

  /** Loose texts are accepted: every input that needs one pad has a second text that decodes to it. */
  lemma {:induction false} LooseIsAccepted(s: seq<Byte>)
    requires |s| % 3 == 2
    ensures Loose(Spoilt(s)) && Decoded(Spoilt(s)) == Bytes(s) && Spoilt(s) != Encoded(s)
  {
    hide Enc, Dec, Quad, Encoded, DecodeQuad, DecodeLast;
    if |s| == 2 {
      SpoiltShort(s);
    } else {
      var q, rest, t := Quad(s[0], s[1], s[2]), s[3..], Spoilt(s);
      SpoiltLong(s);
      LooseIsAccepted(rest);
      QuadBack(s[0], s[1], s[2]);
      assert t[..4] == q && t[4..] == Spoilt(rest);
      assert s == [s[0], s[1], s[2]] + rest;
    }
  }

  lemma {:induction false} SpoiltShort(s: seq<Byte>)
    requires |s| == 2
    ensures Loose(Spoilt(s)) && Decoded(Spoilt(s)) == Bytes(s) && Spoilt(s) != Encoded(s)
  {
    hide Enc, Dec, DecodeLast, First, Second, Third, Loose;
    var a, b := s[0], s[1];
    SpareBits(a, b);
    LooseLast(a, b);
    var t := [Enc(First(a)), Enc(Second(a, b)), Enc(Third(b, 0) | 1), PAD];
    assert Spoilt(s) == t;
    IsLoose(t);
    assert Encoded(s)[2] != t[2];
    assert s == [a, b];
  }

  lemma {:induction false} IsLoose(t: seq<Byte>)
    requires |t| == 4 && t[3] == PAD && t[2] != PAD && Dec(t[2]) & 3 != 0
    ensures Loose(t)
  {
  }

  lemma {:induction false} SpoiltLong(s: seq<Byte>)
    requires |s| % 3 == 2 && |s| > 2
    ensures var q := Quad(s[0], s[1], s[2]);
            |q| == 4 && Spoilt(s) == q + Spoilt(s[3..]) && Encoded(s) == q + Encoded(s[3..]) && |Spoilt(s)| % 4 == 0
  {
    hide Enc, Dec, First, Second, Third, Fourth, CapacityForEncode;
    EncodedLength(s);
    EncodedLength(s[3..]);
    var e := Encoded(s[3..]);
    SetBehind(Quad(s[0], s[1], s[2]), e, Enc(Dec(e[|e| - 2]) | 1));
  }

  lemma {:induction false} SetBehind(q: seq<Byte>, e: seq<Byte>, x: Byte)
    requires |e| >= 2
    ensures var a := q + e; a[|a| - 2] == e[|e| - 2] && a[|a| - 2 := x] == q + e[|e| - 2 := x]
  {
  }

  lemma {:induction false} LooseLast(a: Byte, b: Byte)
    ensures var t := [Enc(First(a)), Enc(Second(a, b)), Enc(Third(b, 0) | 1), PAD];
            Dec(t[2]) & 3 != 0 && t[2] != PAD && t[2] != Enc(Third(b, 0)) && DecodeLast(t) == Bytes([a, b])
  {
    SixBits(a, b, 0);
    BitsBack(a, b, 0);
    SpareBits(a, b);
    TablesInverse(First(a), 0);
    TablesInverse(Second(a, b), 0);
    TablesInverse(Third(b, 0) | 1, PAD);
    assert Third(b, 0) & 3 == 0;
  }

  lemma {:induction false} EncodedJoin(a: seq<Byte>, b: seq<Byte>)
    requires |a| == 3
    ensures Encoded(a + b) == Quad(a[0], a[1], a[2]) + Encoded(b)
  {
    assert (a + b)[3..] == b;
  }

  lemma {:induction false} FirstFour(t: seq<Byte>, e: seq<Byte>)
    requires |t| > 4 && |e| == |t| - 4
    ensures t[..4] + e == t <==> e == t[4..]
    ensures (forall i | 0 <= i < |e| && i != |e| - 2 :: e[i] == t[4..][i]) ==>
              forall i | 0 <= i < |t| && i != |t| - 2 :: (t[..4] + e)[i] == t[i]
  {
    var x := t[..4] + e;
    assert x[4..] == e;
    if e == t[4..] {
      assert x == t;
    }
  }

  function Pads(t: seq<Byte>): nat
    requires |t| >= 4
  {
    if t[|t| - 2] == PAD then 2 else if t[|t| - 1] == PAD then 1 else 0
  }

  /** The buffer size for decoding is exact but for the pads. */
  lemma {:induction false} DecodedLength(t: seq<Byte>)
    requires t != [] && Decoded(t).Bytes?
    ensures |t| >= 4 && |t| % 4 == 0 && |Decoded(t).bytes| == CapacityForDecode(|t|) - Pads(t)
  {
    if |t| > 4 {
      DecodedLength(t[4..]);
    }
  }

  /** Write data at position n of a buffer. */
  method Put(out: array<Byte>, n: nat, data: seq<Byte>)
    requires n + |data| <= out.Length
    modifies out
    ensures out[..n + |data|] == old(out[..n]) + data
    ensures forall p | n + |data| <= p < out.Length :: out[p] == old(out[p])
  {
    var i := 0;
    while i < |data|
      invariant 0 <= i <= |data|
      invariant out[..n] == old(out[..n]) && out[n..n + i] == data[..i]
      invariant forall p | n + i <= p < out.Length :: out[p] == old(out[p])
    {
      out[n + i] := data[i];
      i := i + 1;
    }
    assert out[..n + |data|] == out[..n] + out[n..n + |data|];
  }

  /** `Encode` into a buffer. */
  method EncodeTo(input: seq<Byte>, out: array<Byte>) returns (n: nat)
    requires out.Length >= CapacityForEncode(|input|)
    modifies out
    ensures n == CapacityForEncode(|input|) && out[..n] == Encoded(input)
    ensures forall p | n <= p < out.Length :: out[p] == old(out[p])
  {
    hide Encoded, Quad, Padded;
    n := 0;
    var i := 0;
    EncodedLength(input);
    assert out[..n] == [] && input[i..] == input;
    while |input| - i >= 3
      invariant i <= |input| && n <= out.Length && out[..n] + Encoded(input[i..]) == Encoded(input)
      invariant forall p | n <= p < out.Length :: out[p] == old(out[p])
      decreases |input| - i
    {
      EncodeStep(out[..n], input, i);
      Put(out, n, Quad(input[i], input[i + 1], input[i + 2]));
      i, n := i + 3, n + 4;
    }
    EncodeRest(out[..n], input, i);
    if i < |input| {
      Put(out, n, Padded(input[i..]));
      n := n + 4;
    }
  }

  lemma {:induction false} EncodeRest(done: seq<Byte>, input: seq<Byte>, i: nat)
    requires |input| - 3 < i <= |input| && done + Encoded(input[i..]) == Encoded(input)
    ensures Encoded(input) == if i < |input| then done + Padded(input[i..]) else done
    ensures i < |input| ==> |Padded(input[i..])| == 4
  {
  }

  lemma {:induction false} EncodeStep(done: seq<Byte>, input: seq<Byte>, i: nat)
    requires i + 3 <= |input| && done + Encoded(input[i..]) == Encoded(input)
    ensures done + Quad(input[i], input[i + 1], input[i + 2]) + Encoded(input[i + 3..]) == Encoded(input)
    ensures |Quad(input[i], input[i + 1], input[i + 2])| == 4 && |done| + 4 <= |Encoded(input)|
  {
    assert input[i..][3..] == input[i + 3..];
  }

  /** `Encode` onto a stream. */
  method EncodeStream(input: seq<Byte>) returns (out: seq<Byte>, n: nat)
    ensures out == Encoded(input) && n == |out|
  {
    hide Encoded, Quad, Padded;
    out, n := [], 0;
    var i := 0;
    assert input[i..] == input;
    while |input| - i >= 3
      invariant i <= |input| && n == |out| && out + Encoded(input[i..]) == Encoded(input)
      decreases |input| - i
    {
      EncodeStep(out, input, i);
      out := out + Quad(input[i], input[i + 1], input[i + 2]);
      i, n := i + 3, n + 4;
    }
    EncodeRest(out, input, i);
    if i < |input| {
      out, n := out + Padded(input[i..]), n + 4;
    }
  }

  /** What is decoded, and what is left to decode. */
  ghost predicate DecodeSoFar(done: seq<Byte>, t: seq<Byte>, i: nat)
    requires t != []
  {
    i < |t| && Then(Bytes(done), Decoded(t[i..])) == Decoded(t)
  }

  lemma {:induction false} DecodeStep(done: seq<Byte>, t: seq<Byte>, i: nat)
    requires t != [] && |t| % 4 == 0 && i % 4 == 0 && i + 4 < |t| && DecodeSoFar(done, t, i)
    ensures var q := DecodeQuad(t[i..i + 4]);
            if q.Refused? then Decoded(t).Refused? else DecodeSoFar(done + q.bytes, t, i + 4)
  {
    hide DecodeQuad, DecodeLast, Decoded, Then;
    var rest := t[i..];
    assert rest[..4] == t[i..i + 4] && rest[4..] == t[i + 4..];
    SplitQuad(rest);
    ThenAssociates(done, DecodeQuad(t[i..i + 4]), Decoded(t[i + 4..]));
  }

  lemma {:induction false} SplitQuad(t: seq<Byte>)
    requires |t| > 4 && |t| % 4 == 0
    ensures Decoded(t) == Then(DecodeQuad(t[..4]), Decoded(t[4..]))
  {
  }

  lemma {:induction false} ThenAssociates(done: seq<Byte>, q: Result, d: Result)
    ensures Then(Bytes(done), Then(q, d)) == if q.Refused? then Refused else Then(Bytes(done + q.bytes), d)
  {
    if q.Bytes? && d.Bytes? {
      assert done + (q.bytes + d.bytes) == (done + q.bytes) + d.bytes;
    }
  }

  lemma {:induction false} DecodeFirst(t: seq<Byte>)
    requires t != []
    ensures DecodeSoFar([], t, 0)
  {
    assert t[0..] == t;
    if Decoded(t).Bytes? {
      assert [] + Decoded(t).bytes == Decoded(t).bytes;
    }
  }

  lemma {:induction false} DecodeRest(done: seq<Byte>, t: seq<Byte>, i: nat)
    requires t != [] && |t| - i == 4 && DecodeSoFar(done, t, i)
    ensures Decoded(t) == Then(Bytes(done), DecodeLast(t[i..]))
  {
  }

  lemma {:induction false} RefusedLength(t: seq<Byte>)
    requires |t| % 4 != 0
    ensures Decoded(t).Refused?
  {
  }

  /** `Decode` into a buffer. An empty text is not for this function: it would read before looking at the length. */
  method DecodeTo(t: seq<Byte>, out: array<Byte>) returns (ok: bool, n: nat)
    requires t != [] && out.Length >= CapacityForDecode(|t|)
    modifies out
    ensures ok <==> Decoded(t).Bytes?
    ensures ok ==> n <= out.Length && out[..n] == Decoded(t).bytes
  {
    hide DecodeQuad, DecodeLast, Decoded, DecodeSoFar;
    ok, n := false, 0;
    if |t| % 4 != 0 {
      RefusedLength(t);
      return;
    }
    var i := 0;
    DecodeFirst(t);
    while |t| - i > 4
      invariant i % 4 == 0 && i + 4 <= |t| && 4 * n == 3 * i && DecodeSoFar(out[..n], t, i)
      decreases |t| - i
    {
      var q := DecodeQuad(t[i..i + 4]);
      DecodeStep(out[..n], t, i);
      if q.Refused? {
        return;
      }
      Put(out, n, q.bytes);
      i, n := i + 4, n + 3;
    }
    DecodeRest(out[..n], t, i);
    var last := DecodeLast(t[i..]);
    if last.Bytes? {
      Put(out, n, last.bytes);
      ok, n := true, n + |last.bytes|;
    }
  }
}
