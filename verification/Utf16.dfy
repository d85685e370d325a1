/**
 * JavaScript strings as UTF-16 code units, their scalar values, and their UTF-8 bytes as a hash
 * update with encoding `utf8` takes them: a lone surrogate becomes U+FFFD.
 */
module Utf16 {
  import opened Prelude

  type Unit = n: int | 0 <= n < 0x1_0000
  type Byte = n: int | 0 <= n < 0x100
  type Text = seq<Unit>
  type Scalar = n: int | 0 <= n < 0x11_0000 && !(0xD800 <= n < 0xE000) witness 0

  predicate High(u: int) { 0xD800 <= u < 0xDC00 }
  predicate Low(u: int) { 0xDC00 <= u < 0xE000 }
  predicate Surrogate(u: int) { 0xD800 <= u < 0xE000 }

  /** The text of an ASCII literal. */
  function Ascii(s: string): (t: Text)
    ensures |t| == |s| && forall i :: 0 <= i < |s| ==> t[i] < 128
  {
    seq(|s|, i requires 0 <= i < |s| => if s[i] as int < 128 then s[i] as int else 63)
  }

  /** The first scalar of a text starts with a pair. */
  predicate PairAhead(t: Text) { |t| >= 2 && High(t[0]) && Low(t[1]) }

  function Combine(h: Unit, l: Unit): Scalar
    requires High(h) && Low(l)
  {
    0x1_0000 + (h - 0xD800) * 0x400 + (l - 0xDC00)
  }

  function Scalars(t: Text): seq<Scalar> {
    if t == [] then []
    else if PairAhead(t) then [Combine(t[0], t[1])] + Scalars(t[2..])
    else if Surrogate(t[0]) then [0xFFFD] + Scalars(t[1..])
    else [t[0]] + Scalars(t[1..])
  }

  /** No surrogate stands alone. */
  predicate WellFormed(t: Text) {
    t == [] || (if PairAhead(t) then WellFormed(t[2..]) else !Surrogate(t[0]) && WellFormed(t[1..]))
  }

  function UnitsOf(c: Scalar): Text {
    if c < 0x1_0000 then [c] else [0xD800 + (c - 0x1_0000) / 0x400, 0xDC00 + (c - 0x1_0000) % 0x400]
  }

  function FromScalars(cs: seq<Scalar>): Text {
    if cs == [] then [] else UnitsOf(cs[0]) + FromScalars(cs[1..])
  }

  /** A well-formed text is recovered from its scalars. */
  lemma {:induction false} ScalarsRoundTrip(t: Text)
    requires WellFormed(t)
    ensures FromScalars(Scalars(t)) == t
  {
    if t != [] {
      if PairAhead(t) {
        ScalarsRoundTrip(t[2..]);
        var c := Combine(t[0], t[1]);
        assert UnitsOf(c) == [t[0], t[1]];
        assert Scalars(t)[1..] == Scalars(t[2..]);
        assert t == [t[0], t[1]] + t[2..];
      } else {
        ScalarsRoundTrip(t[1..]);
        assert Scalars(t)[1..] == Scalars(t[1..]);
        assert t == [t[0]] + t[1..];
      }
    }
  }

  /** No pair straddles the seam of `a` and `b`. */
  predicate CleanSeam(a: Text, b: Text) { WellFormed(a) || b == [] || !Surrogate(b[0]) }

  lemma {:induction false} ScalarsConcat(a: Text, b: Text)
    requires CleanSeam(a, b)
    ensures Scalars(a + b) == Scalars(a) + Scalars(b)
  {
    if a == [] {
      assert a + b == b;
    } else if PairAhead(a) {
      ScalarsConcat(a[2..], b);
      PairFirst(a, b);
    } else {
      ScalarsConcat(a[1..], b);
      UnitFirst(a, b);
    }
  }

  lemma ScalarsOfPair(t: Text)
    requires PairAhead(t)
    ensures Scalars(t) == [Combine(t[0], t[1])] + Scalars(t[2..])
  {}

  lemma ScalarsOfUnit(t: Text)
    requires t != [] && !PairAhead(t)
    ensures Scalars(t) == [if Surrogate(t[0]) then 0xFFFD else t[0]] + Scalars(t[1..])
  {}

  lemma ConsConcat<T>(x: T, s: seq<T>, t: seq<T>)
    ensures [x] + (s + t) == ([x] + s) + t
  {}

  lemma PairFirst(a: Text, b: Text)
    requires PairAhead(a) && Scalars(a[2..] + b) == Scalars(a[2..]) + Scalars(b)
    ensures Scalars(a + b) == Scalars(a) + Scalars(b)
  {
    assert (a + b)[2..] == a[2..] + b;
    ScalarsOfPair(a);
    ScalarsOfPair(a + b);
    ConsConcat(Combine(a[0], a[1]), Scalars(a[2..]), Scalars(b));
  }

  lemma UnitFirst(a: Text, b: Text)
    requires a != [] && !PairAhead(a) && CleanSeam(a, b) && Scalars(a[1..] + b) == Scalars(a[1..]) + Scalars(b)
    ensures Scalars(a + b) == Scalars(a) + Scalars(b)
  {
    assert (a + b)[1..] == a[1..] + b;
    assert !PairAhead(a + b);
    ScalarsOfUnit(a);
    ScalarsOfUnit(a + b);
    var first: Scalar := if Surrogate(a[0]) then 0xFFFD else a[0];
    ConsConcat(first, Scalars(a[1..]), Scalars(b));
  }

  lemma {:induction false} WellFormedConcat(a: Text, b: Text)
    requires WellFormed(a) && WellFormed(b)
    ensures WellFormed(a + b)
  {
    if a == [] {
      assert a + b == b;
    } else if PairAhead(a) {
      assert (a + b)[2..] == a[2..] + b;
      WellFormedConcat(a[2..], b);
    } else {
      assert (a + b)[1..] == a[1..] + b;
      WellFormedConcat(a[1..], b);
    }
  }

  // ---- UTF-8. ----

  function Encode(c: Scalar): seq<Byte> {
    if c < 0x80 then [c]
    else if c < 0x800 then [0xC0 + c / 0x40, 0x80 + c % 0x40]
    else if c < 0x1_0000 then [0xE0 + c / 0x1000, 0x80 + c / 0x40 % 0x40, 0x80 + c % 0x40]
    else [0xF0 + c / 0x4_0000, 0x80 + c / 0x1000 % 0x40, 0x80 + c / 0x40 % 0x40, 0x80 + c % 0x40]
  }

  function EncodeAll(cs: seq<Scalar>): seq<Byte> {
    if cs == [] then [] else Encode(cs[0]) + EncodeAll(cs[1..])
  }

  function Trail(b: Byte): int { b as int - 0x80 }

  /** The value behind the lead byte of a well-formed sequence, and its length. */
  function FirstValue(bs: seq<Byte>): (int, nat)
    requires bs != []
  {
    var lead: int := bs[0];
    if lead < 0x80 then (lead, 1)
    else if lead < 0xE0 && |bs| >= 2 then ((lead - 0xC0) * 0x40 + Trail(bs[1]), 2)
    else if lead < 0xF0 && |bs| >= 3 then ((lead - 0xE0) * 0x1000 + Trail(bs[1]) * 0x40 + Trail(bs[2]), 3)
    else if |bs| >= 4 then ((lead - 0xF0) * 0x4_0000 + Trail(bs[1]) * 0x1000 + Trail(bs[2]) * 0x40 + Trail(bs[3]), 4)
    else (lead, 1)
  }

  lemma FirstOfEncoded(c: Scalar, rest: seq<Byte>)
    ensures |Encode(c)| > 0 && FirstValue(Encode(c) + rest) == (c, |Encode(c)|)
  {
    assert c == c / 0x40 * 0x40 + c % 0x40;
    assert c / 0x40 == c / 0x1000 * 0x40 + c / 0x40 % 0x40;
    assert c / 0x1000 == c / 0x4_0000 * 0x40 + c / 0x1000 % 0x40;
  }

  /** UTF-8 determines the scalars. */
  lemma {:induction false} EncodeIsInjective(a: seq<Scalar>, b: seq<Scalar>)
    requires EncodeAll(a) == EncodeAll(b)
    ensures a == b
  {
    if a != [] && b != [] {
      FirstOfEncoded(a[0], EncodeAll(a[1..]));
      FirstOfEncoded(b[0], EncodeAll(b[1..]));
      assert a[0] == b[0];
      assert EncodeAll(a)[|Encode(a[0])|..] == EncodeAll(a[1..]);
      assert EncodeAll(b)[|Encode(b[0])|..] == EncodeAll(b[1..]);
      EncodeIsInjective(a[1..], b[1..]);
      assert a == [a[0]] + a[1..] && b == [b[0]] + b[1..];
    } else if a != [] {
      FirstOfEncoded(a[0], EncodeAll(a[1..]));
    } else if b != [] {
      FirstOfEncoded(b[0], EncodeAll(b[1..]));
    }
  }

  /** What the hash sees of a string. */
  function Utf8(t: Text): seq<Byte> { EncodeAll(Scalars(t)) }

  /** The scalars on each side of the bounds between one, two, three and four bytes. */
  lemma BoundaryBytes()
    ensures Encode(0x7F) == [0x7F] && Encode(0x80) == [0xC2, 0x80]
    ensures Encode(0x7FF) == [0xDF, 0xBF] && Encode(0x800) == [0xE0, 0xA0, 0x80]
    ensures Encode(0xFFFF) == [0xEF, 0xBF, 0xBF] && Encode(0x1_0000) == [0xF0, 0x90, 0x80, 0x80]
    ensures Encode(0x10_FFFF) == [0xF4, 0x8F, 0xBF, 0xBF]
  {}

  /** A pair is four bytes of one scalar, half a pair the three bytes of U+FFFD. */
  lemma SurrogateBytes()
    ensures Utf8([0xD84C, 0xDFB4]) == [0xF0, 0xA3, 0x8E, 0xB4]
    ensures Utf8([0xD84C]) == [0xEF, 0xBF, 0xBD]
  {
    var pair: Text, lone: Text := [0xD84C, 0xDFB4], [0xD84C];
    assert pair[2..] == [] && lone[1..] == [];
    assert Combine(0xD84C, 0xDFB4) == 0x2_33B4;
    ScalarsOfPair(pair);
    ScalarsOfUnit(lone);
    OneScalar(0x2_33B4);
    OneScalar(0xFFFD);
  }

  lemma OneScalar(c: Scalar)
    ensures EncodeAll([c]) == Encode(c)
  {
    assert [c][1..] == [];
  }

  /** Two strings have the same bytes exactly when they have the same scalars, lone surrogates all reading U+FFFD. */
  lemma SameBytesIff(a: Text, b: Text)
    ensures Utf8(a) == Utf8(b) <==> Scalars(a) == Scalars(b)
  {
    if Utf8(a) == Utf8(b) { EncodeIsInjective(Scalars(a), Scalars(b)); }
  }

  /** Well-formed strings with the same bytes are the same string. */
  lemma WellFormedBytesAreInjective(a: Text, b: Text)
    requires WellFormed(a) && WellFormed(b) && Utf8(a) == Utf8(b)
    ensures a == b
  {
    SameBytesIff(a, b);
    ScalarsRoundTrip(a);
    ScalarsRoundTrip(b);
  }

  lemma {:induction false} PlainIsWellFormed(t: Text)
    requires forall i :: 0 <= i < |t| ==> !Surrogate(t[i])
    ensures WellFormed(t)
  {
    if t != [] { PlainIsWellFormed(t[1..]); }
  }
}
