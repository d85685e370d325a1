/**
 * Unpadded base64url and the canonical texts of it (sections 3.5 and 5 of RFC 4648): the account
 * store's challenge and credential texts, user handles, and the credential module's exact lengths.
 */
module Base64Url {
  import opened Prelude

  /** A two-bit digit. Bytes and sextets are written with them, most significant first: coding only regroups them. */
  type Two = n: int | 0 <= n < 4

  datatype Byte = Byte(a: Two, b: Two, c: Two, d: Two)
  datatype Sextet = Sextet(a: Two, b: Two, c: Two)

  function ByteNumber(x: Byte): int { 64 * x.a + 16 * x.b + 4 * x.c + x.d }

  function ByteOf(n: int): Byte
    requires 0 <= n < 256
  {
    var r := n % 64;
    var t := r % 16;
    Byte(n / 64, r / 16, t / 4, t % 4)
  }

  lemma Quotients(q: int, r: int)
    ensures 0 <= r < 4 ==> (4 * q + r) / 4 == q && (4 * q + r) % 4 == r
    ensures 0 <= r < 16 ==> (16 * q + r) / 16 == q && (16 * q + r) % 16 == r
    ensures 0 <= r < 64 ==> (64 * q + r) / 64 == q && (64 * q + r) % 64 == r
  {}

  /** The digits stand for exactly the numbers 0 to 255. */
  lemma BytesAreNumbers(x: Byte, n: int)
    ensures 0 <= ByteNumber(x) < 256 && ByteOf(ByteNumber(x)) == x
    ensures 0 <= n < 256 ==> ByteNumber(ByteOf(n)) == n
  {
    Quotients(x.a, 16 * x.b + 4 * x.c + x.d);
    Quotients(x.b, 4 * x.c + x.d);
    Quotients(x.c, x.d);
  }

  function Number(v: Sextet): int { 16 * v.a + 4 * v.b + v.c }

  function SextetAt(n: int): Sextet
    requires 0 <= n < 64
  {
    var r := n % 16;
    Sextet(n / 16, r / 4, r % 4)
  }

  /** The alphabet: the character of each number below 64. */
  function Letter(n: int): char
    requires 0 <= n < 64
  {
    if n < 26 then (n + 'A' as int) as char
    else if n < 52 then (n - 26 + 'a' as int) as char
    else if n < 62 then (n - 52 + '0' as int) as char
    else if n == 62 then '-' else '_'
  }

  predicate InAlphabet(c: char) { 'A' <= c <= 'Z' || 'a' <= c <= 'z' || '0' <= c <= '9' || c == '-' || c == '_' }

  function LetterNumber(c: char): (n: int)
    requires InAlphabet(c)
    ensures 0 <= n < 64
  {
    if 'A' <= c <= 'Z' then c as int - 'A' as int
    else if 'a' <= c <= 'z' then c as int - 'a' as int + 26
    else if '0' <= c <= '9' then c as int - '0' as int + 52
    else if c == '-' then 62 else 63
  }

  function Char(v: Sextet): char { Letter(Number(v)) }

  function SextetOf(c: char): Sextet
    requires InAlphabet(c)
  {
    SextetAt(LetterNumber(c))
  }

  lemma NumberRoundTrip(v: Sextet, n: int)
    ensures SextetAt(Number(v)) == v
    ensures 0 <= n < 64 ==> Number(SextetAt(n)) == n
  {
    Quotients(v.a, 4 * v.b + v.c);
    Quotients(v.b, v.c);
  }

  lemma LetterRoundTrip(n: int, c: char)
    ensures 0 <= n < 64 ==> InAlphabet(Letter(n)) && LetterNumber(Letter(n)) == n
    ensures InAlphabet(c) ==> Letter(LetterNumber(c)) == c
  {}

  lemma CharRoundTrip(v: Sextet, c: char)
    ensures InAlphabet(Char(v)) && SextetOf(Char(v)) == v
    ensures InAlphabet(c) ==> Char(SextetOf(c)) == c
  {
    NumberRoundTrip(v, if InAlphabet(c) then LetterNumber(c) else 0);
    LetterRoundTrip(Number(v), c);
  }

  predicate Alphabetic(t: string) { forall i :: 0 <= i < |t| ==> InAlphabet(t[i]) }

  function Sextets(t: string): seq<Sextet>
    requires Alphabetic(t)
  {
    seq(|t|, i requires 0 <= i < |t| => SextetOf(t[i]))
  }

  function TextOf(ss: seq<Sextet>): string { seq(|ss|, i requires 0 <= i < |ss| => Char(ss[i])) }

  lemma TextRoundTrip(ss: seq<Sextet>, t: string)
    ensures Alphabetic(TextOf(ss)) && Sextets(TextOf(ss)) == ss
    ensures Alphabetic(t) ==> TextOf(Sextets(t)) == t
  {
    forall i | 0 <= i < |ss| ensures InAlphabet(Char(ss[i])) && SextetOf(Char(ss[i])) == ss[i] { CharRoundTrip(ss[i], 'A'); }
    assert Sextets(TextOf(ss)) == ss;
    if Alphabetic(t) {
      forall i | 0 <= i < |t| ensures Char(SextetOf(t[i])) == t[i] { CharRoundTrip(SextetAt(0), t[i]); }
      assert TextOf(Sextets(t)) == t;
    }
  }

  // ---- Groups of four sextets and three bytes. ----

  function Byte1(p: Sextet, q: Sextet): Byte { Byte(p.a, p.b, p.c, q.a) }
  function Byte2(q: Sextet, r: Sextet): Byte { Byte(q.b, q.c, r.a, r.b) }
  function Byte3(r: Sextet, s: Sextet): Byte { Byte(r.c, s.a, s.b, s.c) }

  /** `Buffer.from(text, 'base64url')` on alphabet characters: bits that fill no byte are dropped. */
  function DecodeSextets(ss: seq<Sextet>): seq<Byte> {
    if |ss| >= 4 then [Byte1(ss[0], ss[1]), Byte2(ss[1], ss[2]), Byte3(ss[2], ss[3])] + DecodeSextets(ss[4..])
    else if |ss| == 3 then [Byte1(ss[0], ss[1]), Byte2(ss[1], ss[2])]
    else if |ss| == 2 then [Byte1(ss[0], ss[1])]
    else []
  }

  const ZERO: Byte := Byte(0, 0, 0, 0)

  function Sextet1(x: Byte): Sextet { Sextet(x.a, x.b, x.c) }
  function Sextet2(x: Byte, y: Byte): Sextet { Sextet(x.d, y.a, y.b) }
  function Sextet3(y: Byte, z: Byte): Sextet { Sextet(y.c, y.d, z.a) }
  function Sextet4(z: Byte): Sextet { Sextet(z.b, z.c, z.d) }

  /** `buffer.toString('base64url')`. */
  function EncodeBytes(bs: seq<Byte>): seq<Sextet> {
    if |bs| >= 3 then
      [Sextet1(bs[0]), Sextet2(bs[0], bs[1]), Sextet3(bs[1], bs[2]), Sextet4(bs[2])] + EncodeBytes(bs[3..])
    else if |bs| == 2 then [Sextet1(bs[0]), Sextet2(bs[0], bs[1]), Sextet3(bs[1], ZERO)]
    else if |bs| == 1 then [Sextet1(bs[0]), Sextet2(bs[0], ZERO)]
    else []
  }

  lemma GroupDecodes(x: Byte, y: Byte, z: Byte)
    ensures Byte1(Sextet1(x), Sextet2(x, y)) == x
    ensures Byte2(Sextet2(x, y), Sextet3(y, z)) == y
    ensures Byte3(Sextet3(y, z), Sextet4(z)) == z
  {}

  lemma GroupEncodes(a: Sextet, b: Sextet, c: Sextet, d: Sextet)
    ensures Sextet1(Byte1(a, b)) == a
    ensures Sextet2(Byte1(a, b), Byte2(b, c)) == b
    ensures Sextet3(Byte2(b, c), Byte3(c, d)) == c
    ensures Sextet4(Byte3(c, d)) == d
    ensures Sextet3(Byte2(b, c), ZERO) == c <==> c.c == 0
    ensures Sextet2(Byte1(a, b), ZERO) == b <==> b.b == 0 && b.c == 0
  {}

  lemma DecodeGroup(a: Sextet, b: Sextet, c: Sextet, d: Sextet, rest: seq<Sextet>)
    ensures DecodeSextets([a, b, c, d] + rest) == [Byte1(a, b), Byte2(b, c), Byte3(c, d)] + DecodeSextets(rest)
  {
    assert ([a, b, c, d] + rest)[4..] == rest;
  }

  lemma EncodeGroup(x: Byte, y: Byte, z: Byte, rest: seq<Byte>)
    ensures EncodeBytes([x, y, z] + rest) == [Sextet1(x), Sextet2(x, y), Sextet3(y, z), Sextet4(z)] + EncodeBytes(rest)
  {
    assert ([x, y, z] + rest)[3..] == rest;
  }

  lemma ShortGroups(x: Byte, y: Byte, a: Sextet, b: Sextet, c: Sextet)
    ensures EncodeBytes([x, y]) == [Sextet1(x), Sextet2(x, y), Sextet3(y, ZERO)] && EncodeBytes([x]) == [Sextet1(x), Sextet2(x, ZERO)]
    ensures DecodeSextets([a, b, c]) == [Byte1(a, b), Byte2(b, c)] && DecodeSextets([a, b]) == [Byte1(a, b)]
  {}

  lemma TwoBytes(bs: seq<Byte>)
    requires |bs| == 2
    ensures DecodeSextets(EncodeBytes(bs)) == bs
  {
    var x, y := bs[0], bs[1];
    assert bs == [x, y];
    ShortGroups(x, y, Sextet1(x), Sextet2(x, y), Sextet3(y, ZERO));
    GroupDecodes(x, y, ZERO);
  }

  lemma OneByte(bs: seq<Byte>)
    requires |bs| == 1
    ensures DecodeSextets(EncodeBytes(bs)) == bs
  {
    var x := bs[0];
    assert bs == [x];
    ShortGroups(x, ZERO, Sextet1(x), Sextet2(x, ZERO), Sextet1(x));
    GroupDecodes(x, ZERO, ZERO);
  }

  lemma LongDecodeEncode(x: Byte, y: Byte, z: Byte, rest: seq<Byte>)
    requires DecodeSextets(EncodeBytes(rest)) == rest
    ensures DecodeSextets(EncodeBytes([x, y, z] + rest)) == [x, y, z] + rest
  {
    EncodeGroup(x, y, z, rest);
    DecodeGroup(Sextet1(x), Sextet2(x, y), Sextet3(y, z), Sextet4(z), EncodeBytes(rest));
    GroupDecodes(x, y, z);
  }

  /** Decoding undoes encoding, for every byte string. */
  lemma {:induction false} DecodeEncode(bs: seq<Byte>)
    ensures DecodeSextets(EncodeBytes(bs)) == bs
    decreases |bs|
  {
    if |bs| >= 3 {
      DecodeEncode(bs[3..]);
      LongDecodeEncode(bs[0], bs[1], bs[2], bs[3..]);
      assert bs == [bs[0], bs[1], bs[2]] + bs[3..];
    } else if |bs| == 2 {
      TwoBytes(bs);
    } else if |bs| == 1 {
      OneByte(bs);
    } else {
      assert bs == [];
    }
  }

  /** No dangling character, and no bits set in the last one beyond the last byte. */
  predicate Canonical(ss: seq<Sextet>) {
    && |ss| % 4 != 1
    && (|ss| % 4 == 2 ==> ss[|ss| - 1].b == 0 && ss[|ss| - 1].c == 0)
    && (|ss| % 4 == 3 ==> ss[|ss| - 1].c == 0)
  }

  lemma {:induction false} EncodeLength(bs: seq<Byte>)
    ensures |EncodeBytes(bs)| == (4 * |bs| + 2) / 3
  {
    if |bs| >= 3 { EncodeLength(bs[3..]); }
  }

  lemma {:induction false} DecodeLength(ss: seq<Sextet>)
    ensures |DecodeSextets(ss)| == 3 * |ss| / 4
  {
    if |ss| >= 4 { DecodeLength(ss[4..]); }
  }

  lemma CanonicalTail(ss: seq<Sextet>)
    requires |ss| >= 4
    ensures Canonical(ss[4..]) <==> Canonical(ss)
  {
    if |ss| > 4 { assert ss[4..][|ss| - 5] == ss[|ss| - 1]; }
  }

  lemma ThreeSextets(ss: seq<Sextet>)
    requires |ss| == 3
    ensures EncodeBytes(DecodeSextets(ss)) == ss <==> ss[2].c == 0
  {
    var a, b, c := ss[0], ss[1], ss[2];
    assert ss == [a, b, c];
    ShortGroups(Byte1(a, b), Byte2(b, c), a, b, c);
    GroupEncodes(a, b, c, a);
    assert EncodeBytes(DecodeSextets(ss))[2] == Sextet3(Byte2(b, c), ZERO);
  }

  lemma TwoSextets(ss: seq<Sextet>)
    requires |ss| == 2
    ensures EncodeBytes(DecodeSextets(ss)) == ss <==> ss[1].b == 0 && ss[1].c == 0
  {
    var a, b := ss[0], ss[1];
    assert ss == [a, b];
    ShortGroups(Byte1(a, b), ZERO, a, b, a);
    GroupEncodes(a, b, a, a);
    assert EncodeBytes(DecodeSextets(ss))[1] == Sextet2(Byte1(a, b), ZERO);
  }

  lemma FewSextets(ss: seq<Sextet>)
    requires |ss| < 2
    ensures EncodeBytes(DecodeSextets(ss)) == []
  {}

  lemma LongEncodeDecode(a: Sextet, b: Sextet, c: Sextet, d: Sextet, rest: seq<Sextet>)
    ensures EncodeBytes(DecodeSextets([a, b, c, d] + rest)) == [a, b, c, d] + EncodeBytes(DecodeSextets(rest))
  {
    DecodeGroup(a, b, c, d, rest);
    EncodeGroup(Byte1(a, b), Byte2(b, c), Byte3(c, d), DecodeSextets(rest));
    GroupEncodes(a, b, c, d);
  }

  /** Encoding undoes decoding exactly on the canonical texts. */
  lemma {:induction false} EncodeDecodeIff(ss: seq<Sextet>)
    ensures EncodeBytes(DecodeSextets(ss)) == ss <==> Canonical(ss)
    decreases |ss|
  {
    if |ss| >= 4 {
      EncodeDecodeIff(ss[4..]);
      CanonicalTail(ss);
      LongEncodeDecode(ss[0], ss[1], ss[2], ss[3], ss[4..]);
      var group := [ss[0], ss[1], ss[2], ss[3]];
      assert ss == group + ss[4..];
      SameTail(group, EncodeBytes(DecodeSextets(ss[4..])), ss[4..]);
    } else if |ss| == 3 {
      ThreeSextets(ss);
    } else if |ss| == 2 {
      TwoSextets(ss);
    } else {
      FewSextets(ss);
    }
  }

  lemma SameTail(group: seq<Sextet>, a: seq<Sextet>, b: seq<Sextet>)
    ensures group + a == group + b <==> a == b
  {
    assert (group + a)[|group|..] == a && (group + b)[|group|..] == b;
  }

  // ---- The store's checks. ----

  function Encode(bs: seq<Byte>): string { TextOf(EncodeBytes(bs)) }

  /** The decoder on any text; what it does with other characters does not matter. */
  function Decode(lenient: string -> seq<Byte>, t: string): seq<Byte> {
    if Alphabetic(t) then DecodeSextets(Sextets(t)) else lenient(t)
  }

  /** `requireCanonicalB64url`. */
  predicate CanonicalText(lenient: string -> seq<Byte>, t: string, min: nat, max: nat) {
    && min <= |t| <= max && t != "" && Alphabetic(t)
    && Decode(lenient, t) != [] && Encode(Decode(lenient, t)) == t
  }

  /** `parseCanonicalBase64Url`, for 16 or 32 bytes. */
  predicate ExactBytes(lenient: string -> seq<Byte>, t: string, byteLength: nat) {
    var expected := if byteLength == 16 then 22 else if byteLength == 32 then 43 else -1;
    && expected >= 0 && |t| == expected
    && |Decode(lenient, t)| == byteLength && Encode(Decode(lenient, t)) == t
    && Alphabetic(t)
  }

  /** The user-handle pattern: 42 alphabet characters, then one of sixteen. */
  predicate UserHandle(t: string) { |t| == 43 && Alphabetic(t[..42]) && t[42] in "AEIMQUYcgkosw048" }

  lemma DecodeOfEncode(lenient: string -> seq<Byte>, bs: seq<Byte>)
    ensures Alphabetic(Encode(bs)) && Decode(lenient, Encode(bs)) == bs && |Encode(bs)| == (4 * |bs| + 2) / 3
  {
    TextRoundTrip(EncodeBytes(bs), "");
    DecodeEncode(bs);
    EncodeLength(bs);
  }

  /** The alphabet of section 5 of RFC 4648, in order. */
  lemma AlphabetInOrder(n: int)
    ensures 0 <= n < 26 ==> "ABCDEFGHIJKLMNOPQRSTUVWXYZ"[n] == Letter(n)
    ensures 26 <= n < 52 ==> "abcdefghijklmnopqrstuvwxyz"[n - 26] == Letter(n)
    ensures 52 <= n < 62 ==> "0123456789"[n - 52] == Letter(n)
    ensures Letter(62) == '-' && Letter(63) == '_'
  {}

  /** Three bytes and their four characters are digits of one number: base 256 and base 64. */
  lemma EncodeIsRadix(x: Byte, y: Byte, z: Byte, rest: seq<Byte>)
    ensures var t := Encode([x, y, z] + rest);
      && |t| >= 4 && Alphabetic(t[..4]) && t[4..] == Encode(rest)
      && 64 * (64 * (64 * LetterNumber(t[0]) + LetterNumber(t[1])) + LetterNumber(t[2])) + LetterNumber(t[3])
           == 256 * (256 * ByteNumber(x) + ByteNumber(y)) + ByteNumber(z)
  {
    EncodeGroup(x, y, z, rest);
    var t := Encode([x, y, z] + rest);
    assert t[0] == Char(Sextet1(x)) && t[1] == Char(Sextet2(x, y)) && t[2] == Char(Sextet3(y, z)) && t[3] == Char(Sextet4(z));
    CharNumber(Sextet1(x));
    CharNumber(Sextet2(x, y));
    CharNumber(Sextet3(y, z));
    CharNumber(Sextet4(z));
    assert t[4..] == Encode(rest);
  }

  lemma CharNumber(v: Sextet)
    ensures InAlphabet(Char(v)) && LetterNumber(Char(v)) == 16 * v.a + 4 * v.b + v.c
  {
    LetterRoundTrip(Number(v), 'A');
  }

  /** Two bytes end in three characters and one byte in two, filled up with zero bits; there is no padding. */
  lemma EncodeEnds(x: Byte, y: Byte)
    ensures Encode([]) == ""
    ensures var t := Encode([x, y]);
      && |t| == 3 && Alphabetic(t)
      && 64 * (64 * LetterNumber(t[0]) + LetterNumber(t[1])) + LetterNumber(t[2]) == 4 * (256 * ByteNumber(x) + ByteNumber(y))
    ensures var t := Encode([x]);
      |t| == 2 && Alphabetic(t) && 64 * LetterNumber(t[0]) + LetterNumber(t[1]) == 16 * ByteNumber(x)
  {
    ShortGroups(x, y, Sextet1(x), Sextet1(x), Sextet1(x));
    CharNumber(Sextet1(x));
    CharNumber(Sextet2(x, y));
    CharNumber(Sextet3(y, ZERO));
    CharNumber(Sextet2(x, ZERO));
  }

  lemma EncodeOfDecodeIff(lenient: string -> seq<Byte>, t: string)
    ensures Encode(Decode(lenient, t)) == t <==> Alphabetic(t) && Canonical(Sextets(t))
  {
    TextRoundTrip(EncodeBytes(Decode(lenient, t)), t);
    if Alphabetic(t) {
      EncodeDecodeIff(Sextets(t));
      assert Encode(Decode(lenient, t)) == t ==> EncodeBytes(DecodeSextets(Sextets(t))) == Sextets(t);
    }
  }

  /** The accepted texts are exactly the encodings of nonempty byte strings, of the allowed text length. */
  lemma AcceptedAreEncodings(lenient: string -> seq<Byte>, t: string, min: nat, max: nat)
    ensures CanonicalText(lenient, t, min, max) <==>
      min <= |t| <= max && exists bs: seq<Byte> :: bs != [] && t == Encode(bs)
  {
    if CanonicalText(lenient, t, min, max) {
      assert t == Encode(Decode(lenient, t));
    } else if min <= |t| <= max && exists bs: seq<Byte> :: bs != [] && t == Encode(bs) {
      var bs: seq<Byte> :| bs != [] && t == Encode(bs);
      DecodeOfEncode(lenient, bs);
    }
  }

  lemma LastOfSixteen(n: int)
    requires 0 <= n < 64
    ensures Letter(n) in "AEIMQUYcgkosw048" <==> n % 4 == 0
  {}

  lemma LastOfFour(n: int)
    requires 0 <= n < 64
    ensures Letter(n) in "AQgw" <==> n % 16 == 0
  {}

  lemma LastDigits(c: char)
    requires InAlphabet(c)
    ensures c in "AEIMQUYcgkosw048" <==> SextetOf(c).c == 0
    ensures c in "AQgw" <==> SextetOf(c).b == 0 && SextetOf(c).c == 0
  {
    LetterRoundTrip(0, c);
    LastOfSixteen(LetterNumber(c));
    LastOfFour(LetterNumber(c));
  }

  /** For 43 characters of the alphabet the round trip holds exactly when the last is one of sixteen. */
  lemma FortyThree(lenient: string -> seq<Byte>, t: string)
    requires |t| == 43 && Alphabetic(t)
    ensures Encode(Decode(lenient, t)) == t <==> t[42] in "AEIMQUYcgkosw048"
  {
    EncodeOfDecodeIff(lenient, t);
    LastDigits(t[42]);
  }

  /** For 22 characters it holds exactly when the last is one of four. */
  lemma TwentyTwo(lenient: string -> seq<Byte>, t: string)
    requires |t| == 22 && Alphabetic(t)
    ensures Encode(Decode(lenient, t)) == t <==> t[21] in "AQgw"
  {
    EncodeOfDecodeIff(lenient, t);
    LastDigits(t[21]);
  }

  lemma HandleIsAlphabetic(t: string)
    requires UserHandle(t)
    ensures Alphabetic(t)
  {
    assert forall c :: c in "AEIMQUYcgkosw048" ==> InAlphabet(c);
    forall i | 0 <= i < |t| ensures InAlphabet(t[i]) { if i < 42 { assert t[i] == t[..42][i]; } }
  }

  /** User-handle pattern, 32-byte parser, and encodings of 32 bytes: one and the same set of texts. */
  lemma HandlesAreThirtyTwoBytes(lenient: string -> seq<Byte>, t: string)
    ensures UserHandle(t) <==> ExactBytes(lenient, t, 32)
    ensures UserHandle(t) <==> exists bs: seq<Byte> :: |bs| == 32 && t == Encode(bs)
  {
    if UserHandle(t) {
      HandleIsAlphabetic(t);
      FortyThree(lenient, t);
      DecodeLength(Sextets(t));
      assert |Decode(lenient, t)| == 32 && t == Encode(Decode(lenient, t));
    }
    if exists bs: seq<Byte> :: |bs| == 32 && t == Encode(bs) {
      var bs: seq<Byte> :| |bs| == 32 && t == Encode(bs);
      DecodeOfEncode(lenient, bs);
      assert ExactBytes(lenient, t, 32);
    }
    if ExactBytes(lenient, t, 32) {
      FortyThree(lenient, t);
      assert Alphabetic(t[..42]);
      assert |Decode(lenient, t)| == 32 && t == Encode(Decode(lenient, t));
    }
  }

  /** The 16-byte parser accepts exactly the encodings of 16 bytes, 22 characters ending in one of four. */
  lemma SaltsAreSixteenBytes(lenient: string -> seq<Byte>, t: string)
    ensures ExactBytes(lenient, t, 16) <==> |t| == 22 && Alphabetic(t) && t[21] in "AQgw"
    ensures ExactBytes(lenient, t, 16) <==> exists bs: seq<Byte> :: |bs| == 16 && t == Encode(bs)
  {
    if |t| == 22 && Alphabetic(t) {
      TwentyTwo(lenient, t);
      DecodeLength(Sextets(t));
      assert Encode(Decode(lenient, t)) == t ==> |Decode(lenient, t)| == 16 && t == Encode(Decode(lenient, t));
    }
    if exists bs: seq<Byte> :: |bs| == 16 && t == Encode(bs) {
      var bs: seq<Byte> :| |bs| == 16 && t == Encode(bs);
      DecodeOfEncode(lenient, bs);
    }
  }
}
