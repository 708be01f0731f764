/** Bytes as characters. */
module Ascii {

  type Byte = bv8

  predicate Is(b: Byte, c: char) {
    b as int == c as int
  }

  /** t spells s. */
  ghost predicate Spells(t: seq<Byte>, s: string) {
    |t| == |s| && forall i | 0 <= i < |s| :: Is(t[i], s[i])
  }
}
