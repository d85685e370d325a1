/**
 * The text `JSON.stringify` makes of nested arrays and records of strings, numbers, booleans and
 * nulls, and a parser that undoes it (section 7 of RFC 8259; section 25.5.2.3 of ECMA-262).
 */
module Json {
  import opened Prelude
  import opened Utf16

  datatype Member = Member(key: Text, value: Value)

  datatype Value =
    | Null
    | Bool(b: bool)
    | Num(n: nat)
    | Str(t: Text)
    | Arr(items: seq<Value>)
    | Obj(members: seq<Member>)

  const QUOTE: Unit := 34
  const COMMA: Unit := 44
  const COLON: Unit := 58
  const LBRACKET: Unit := 91
  const BACKSLASH: Unit := 92
  const RBRACKET: Unit := 93
  const LBRACE: Unit := 123
  const RBRACE: Unit := 125
  const TRUE_TEXT: Text := [116, 114, 117, 101]
  const FALSE_TEXT: Text := [102, 97, 108, 115, 101]
  const NULL_TEXT: Text := [110, 117, 108, 108]

  // ---- Strings. ----

  function HexDigit(v: int): Unit
    requires 0 <= v < 16
  {
    if v < 10 then 48 + v else 87 + v
  }

  function HexValue(u: Unit): Option<int> {
    if 48 <= u < 58 then Some((u as int) - 48) else if 97 <= u < 103 then Some((u as int) - 87) else None
  }

  function UnicodeEscape(u: Unit): Text {
    [BACKSLASH, 117, HexDigit(u / 0x1000), HexDigit(u / 0x100 % 16), HexDigit(u / 16 % 16), HexDigit(u % 16)]
  }

  /** `QuoteJSONString` of one unit that does not start a pair; lone surrogates are escaped. */
  function EscapeUnit(u: Unit): Text {
    if u == 8 then [BACKSLASH, 98]
    else if u == 9 then [BACKSLASH, 116]
    else if u == 10 then [BACKSLASH, 110]
    else if u == 12 then [BACKSLASH, 102]
    else if u == 13 then [BACKSLASH, 114]
    else if u == QUOTE then [BACKSLASH, QUOTE]
    else if u == BACKSLASH then [BACKSLASH, BACKSLASH]
    else if u < 32 || Surrogate(u) then UnicodeEscape(u)
    else [u]
  }

  function Escape(t: Text): Text {
    if t == [] then []
    else if PairAhead(t) then [t[0], t[1]] + Escape(t[2..])
    else EscapeUnit(t[0]) + Escape(t[1..])
  }

  function Quote(t: Text): Text { [QUOTE] + Escape(t) + [QUOTE] }

  function SimpleEscape(u: Unit): Option<Unit> {
    if u == 98 then Some(8) else if u == 116 then Some(9) else if u == 110 then Some(10)
    else if u == 102 then Some(12) else if u == 114 then Some(13)
    else if u == QUOTE then Some(QUOTE) else if u == BACKSLASH then Some(BACKSLASH) else None
  }

  function FourHex(s: Text): Option<Unit>
    requires |s| >= 4
  {
    match (HexValue(s[0]), HexValue(s[1]), HexValue(s[2]), HexValue(s[3]))
    case (Some(a), Some(b), Some(c), Some(d)) =>
      if 0 <= a < 16 && 0 <= b < 16 && 0 <= c < 16 && 0 <= d < 16 then Some(a * 0x1000 + b * 0x100 + c * 16 + d) else None
    case _ => None
  }

  /** The next unit of a string body, and what follows it. */
  function ParseUnit(s: Text): Option<(Unit, Text)>
    ensures ParseUnit(s).Some? ==> |ParseUnit(s).value.1| < |s|
  {
    if s == [] then None
    else if s[0] != BACKSLASH then Some((s[0], s[1..]))
    else if |s| < 2 then None
    else if s[1] == 117 then
      (if |s| < 6 || FourHex(s[2..]).None? then None else Some((FourHex(s[2..]).value, s[6..])))
    else if SimpleEscape(s[1]).None? then None
    else Some((SimpleEscape(s[1]).value, s[2..]))
  }

  /** The rest of a string after its opening quote, and what follows its closing quote. */
  function ParseBody(s: Text): Option<(Text, Text)>
    ensures ParseBody(s).Some? ==> |ParseBody(s).value.1| < |s|
    decreases |s|
  {
    if s == [] then None
    else if s[0] == QUOTE then Some(([], s[1..]))
    else
      match ParseUnit(s)
      case None => None
      case Some((u, r)) =>
        match ParseBody(r)
        case None => None
        case Some((t, rest)) => Some(([u] + t, rest))
  }

  lemma HexInverse(v: int)
    requires 0 <= v < 16
    ensures HexValue(HexDigit(v)) == Some(v)
  {}

  lemma FourNibbles(u: Unit)
    ensures 0 <= u / 0x1000 < 16
    ensures u as int == u as int / 0x1000 * 0x1000 + u as int / 0x100 % 16 * 0x100 + u as int / 16 % 16 * 16 + u as int % 16
  {}

  lemma HexRoundTrip(u: Unit, rest: Text)
    ensures FourHex([HexDigit(u / 0x1000), HexDigit(u / 0x100 % 16), HexDigit(u / 16 % 16), HexDigit(u % 16)] + rest) == Some(u)
  {
    FourNibbles(u);
    HexInverse(u / 0x1000);
    HexInverse(u / 0x100 % 16);
    HexInverse(u / 16 % 16);
    HexInverse(u % 16);
  }

  lemma UnitParses(u: Unit, rest: Text)
    ensures |EscapeUnit(u)| > 0 && EscapeUnit(u)[0] != QUOTE
    ensures ParseUnit(EscapeUnit(u) + rest) == Some((u, rest))
  {
    var s := EscapeUnit(u) + rest;
    if EscapeUnit(u) == UnicodeEscape(u) {
      HexRoundTrip(u, rest);
      assert s[2..] == [HexDigit(u / 0x1000), HexDigit(u / 0x100 % 16), HexDigit(u / 16 % 16), HexDigit(u % 16)] + rest;
      assert s[6..] == rest;
    } else if |EscapeUnit(u)| == 2 {
      assert s[2..] == rest;
    } else {
      assert s[1..] == rest;
    }
  }

  lemma BodyStep(u: Unit, rest: Text)
    requires ParseBody(rest).Some?
    ensures ParseBody(EscapeUnit(u) + rest) == Some(([u] + ParseBody(rest).value.0, ParseBody(rest).value.1))
  {
    UnitParses(u, rest);
    assert (EscapeUnit(u) + rest)[0] == EscapeUnit(u)[0];
  }

  /** The seven short escapes. */
  lemma ShortEscapes()
    ensures Escape([8]) == Ascii("\\b") && Escape([9]) == Ascii("\\t") && Escape([10]) == Ascii("\\n")
    ensures Escape([12]) == Ascii("\\f") && Escape([13]) == Ascii("\\r")
    ensures Escape([34]) == Ascii("\\\"") && Escape([92]) == Ascii("\\\\")
  {
    EscapeOne(8);
    EscapeOne(9);
    EscapeOne(10);
    EscapeOne(12);
    EscapeOne(13);
    EscapeOne(34);
    EscapeOne(92);
  }

  /** Other controls and lone surrogates take four lower-case hexadecimal digits; everything else, pairs included, is raw. */
  lemma LongEscapes(u: Unit)
    ensures Escape([0x1F]) == Ascii("\\u001f") && Escape([0xD83D]) == Ascii("\\ud83d")
    ensures Escape([0xD83D, 0xDE00]) == [0xD83D, 0xDE00]
    ensures Escape([u]) == [u] <==> 32 <= u && u != 34 && u != 92 && !(0xD800 <= u < 0xE000)
  {
    EscapeOne(0x1F);
    EscapeOne(0xD83D);
    EscapeOne(u);
    var pair: Text := [0xD83D, 0xDE00];
    assert pair[2..] == [];
  }

  lemma EscapeOne(u: Unit)
    ensures Escape([u]) == EscapeUnit(u)
  {
    assert [u][1..] == [];
  }

  /** A unit that is written raw. */
  lemma RawStep(u: Unit, rest: Text)
    requires u != QUOTE && u != BACKSLASH && ParseBody(rest).Some?
    ensures ParseBody([u] + rest) == Some(([u] + ParseBody(rest).value.0, ParseBody(rest).value.1))
  {
    assert ([u] + rest)[1..] == rest;
  }

  lemma PairStep(h: Unit, l: Unit, rest: Text)
    requires High(h) && Low(l) && ParseBody(rest).Some?
    ensures ParseBody([h, l] + rest) == Some(([h, l] + ParseBody(rest).value.0, ParseBody(rest).value.1))
  {
    RawStep(l, rest);
    RawStep(h, [l] + rest);
    assert [h, l] + rest == [h] + ([l] + rest);
    assert [h] + ([l] + ParseBody(rest).value.0) == [h, l] + ParseBody(rest).value.0;
  }

  lemma BodyEnd(rest: Text)
    ensures ParseBody([QUOTE] + rest) == Some(([], rest))
  {
    assert ([QUOTE] + rest)[1..] == rest;
  }

  lemma Assoc(a: Text, b: Text, c: Text)
    ensures (a + b) + c == a + (b + c)
  {}

  lemma Uncons(t: Text)
    ensures t != [] ==> [t[0]] + t[1..] == t
    ensures |t| >= 2 ==> [t[0], t[1]] + t[2..] == t
  {}

  /** The body of a quoted string is read back, whatever follows the closing quote. */
  lemma {:induction false} BodyRoundTrip(t: Text, rest: Text)
    ensures ParseBody(Escape(t) + ([QUOTE] + rest)) == Some((t, rest))
    decreases |t|
  {
    var tail := [QUOTE] + rest;
    if t == [] {
      BodyEnd(rest);
      assert Escape(t) + tail == tail;
    } else if PairAhead(t) {
      Uncons(t);
      Assoc([t[0], t[1]], Escape(t[2..]), tail);
      BodyRoundTrip(t[2..], rest);
      PairStep(t[0], t[1], Escape(t[2..]) + tail);
    } else {
      Uncons(t);
      Assoc(EscapeUnit(t[0]), Escape(t[1..]), tail);
      BodyRoundTrip(t[1..], rest);
      BodyStep(t[0], Escape(t[1..]) + tail);
    }
  }

  // ---- Numbers. ----

  predicate IsDigit(u: int) { 48 <= u < 58 }

  function NumText(n: nat): Text {
    if n < 10 then [48 + n] else NumText(n / 10) + [48 + n % 10]
  }

  /** The value of a run of digits read so far, extended by the digits ahead. */
  function ParseDigits(acc: nat, s: Text): (nat, Text)
    ensures |ParseDigits(acc, s).1| <= |s|
    decreases |s|
  {
    if s == [] || !IsDigit(s[0]) then (acc, s) else ParseDigits(10 * acc + (s[0] as int - 48), s[1..])
  }

  lemma {:induction false} DigitsJoin(n: nat, rest: Text)
    ensures ParseDigits(0, NumText(n) + rest) == ParseDigits(n, rest)
    ensures |NumText(n)| > 0 && IsDigit(NumText(n)[0])
    decreases n
  {
    if n < 10 {
      assert (NumText(n) + rest)[1..] == rest;
    } else {
      var last: Unit := 48 + n % 10;
      DigitsJoin(n / 10, [last] + rest);
      assert NumText(n) + rest == NumText(n / 10) + ([last] + rest);
      assert ([last] + rest)[1..] == rest;
    }
  }

  // ---- Values. ----

  /** `JSON.stringify`, members in the order given. */
  function Stringify(v: Value): Text
    decreases v
  {
    match v
    case Null => NULL_TEXT
    case Bool(b) => if b then TRUE_TEXT else FALSE_TEXT
    case Num(n) => NumText(n)
    case Str(t) => Quote(t)
    case Arr(items) => if items == [] then [LBRACKET, RBRACKET] else [LBRACKET] + Items(items) + [RBRACKET]
    case Obj(members) => if members == [] then [LBRACE, RBRACE] else [LBRACE] + Members(members) + [RBRACE]
  }

  function Items(items: seq<Value>): Text
    requires items != []
    decreases items
  {
    if |items| == 1 then Stringify(items[0]) else Stringify(items[0]) + [COMMA] + Items(items[1..])
  }

  function MemberText(m: Member): Text
    decreases m
  {
    Quote(m.key) + [COLON] + Stringify(m.value)
  }

  function Members(members: seq<Member>): Text
    requires members != []
    decreases members
  {
    if |members| == 1 then MemberText(members[0]) else MemberText(members[0]) + [COMMA] + Members(members[1..])
  }

  /** The marks of two-element arrays and two-member records, and the literals. */
  lemma PrintedMarks(k: Text, v: Value, l: Text, w: Value)
    ensures Stringify(Arr([v, w])) == Ascii("[") + (Stringify(v) + Ascii(",") + Stringify(w)) + Ascii("]")
    ensures Stringify(Obj([Member(k, v), Member(l, w)]))
         == Ascii("{") + ((Quote(k) + Ascii(":") + Stringify(v)) + Ascii(",") + (Quote(l) + Ascii(":") + Stringify(w))) + Ascii("}")
    ensures Quote(k) == Ascii("\"") + Escape(k) + Ascii("\"")
  {
    Marks();
    TwoItems(v, w);
    TwoMembers(Member(k, v), Member(l, w));
  }

  lemma TwoItems(v: Value, w: Value)
    ensures Items([v, w]) == Stringify(v) + [COMMA] + Stringify(w)
  {
    assert [v, w][1..] == [w];
    assert Items([w]) == Stringify(w);
  }

  lemma TwoMembers(m: Member, n: Member)
    ensures Members([m, n]) == MemberText(m) + [COMMA] + MemberText(n)
  {
    assert [m, n][1..] == [n];
    assert Members([n]) == MemberText(n);
  }

  lemma Marks()
    ensures Ascii("[") == [LBRACKET] && Ascii("]") == [RBRACKET] && Ascii("{") == [LBRACE] && Ascii("}") == [RBRACE]
    ensures Ascii(",") == [COMMA] && Ascii(":") == [COLON] && Ascii("\"") == [QUOTE]
  {}

  lemma PrintedLiterals()
    ensures Stringify(Null) == Ascii("null") && Stringify(Bool(true)) == Ascii("true") && Stringify(Bool(false)) == Ascii("false")
    ensures Stringify(Arr([])) == Ascii("[]") && Stringify(Obj([])) == Ascii("{}") && Stringify(Str([])) == Ascii("\"\"")
    ensures Stringify(Num(0)) == Ascii("0") && Stringify(Num(1209)) == Ascii("1209")
  {
    TwoDigits();
    assert NumText(1209) == NumText(120) + [57];
    assert NumText(120) == NumText(12) + [48];
  }

  lemma TwoDigits()
    ensures NumText(12) == Ascii("12")
  {
    assert NumText(1) == [49];
  }

  predicate StartsWith(s: Text, p: Text) { |s| >= |p| && s[..|p|] == p }

  function ParseValue(s: Text): Option<(Value, Text)>
    ensures ParseValue(s).Some? ==> |ParseValue(s).value.1| < |s|
    decreases |s|, 0
  {
    if s == [] then None
    else if StartsWith(s, NULL_TEXT) then Some((Null, s[4..]))
    else if StartsWith(s, TRUE_TEXT) then Some((Bool(true), s[4..]))
    else if StartsWith(s, FALSE_TEXT) then Some((Bool(false), s[5..]))
    else if IsDigit(s[0]) then
      var (n, rest) := ParseDigits(s[0] as int - 48, s[1..]);
      Some((Num(n), rest))
    else if s[0] == QUOTE then
      (match ParseBody(s[1..]) case None => None case Some((t, rest)) => Some((Str(t), rest)))
    else if StartsWith(s, [LBRACKET, RBRACKET]) then Some((Arr([]), s[2..]))
    else if s[0] == LBRACKET then
      (match ParseItems(s[1..]) case None => None case Some((items, rest)) => Some((Arr(items), rest)))
    else if StartsWith(s, [LBRACE, RBRACE]) then Some((Obj([]), s[2..]))
    else if s[0] == LBRACE then
      (match ParseMembers(s[1..]) case None => None case Some((members, rest)) => Some((Obj(members), rest)))
    else None
  }

  function ParseItems(s: Text): Option<(seq<Value>, Text)>
    ensures ParseItems(s).Some? ==> |ParseItems(s).value.1| < |s|
    decreases |s|, 1
  {
    match ParseValue(s)
    case None => None
    case Some((v, rest)) =>
      if rest == [] then None
      else if rest[0] == RBRACKET then Some(([v], rest[1..]))
      else if rest[0] != COMMA then None
      else
        match ParseItems(rest[1..])
        case None => None
        case Some((vs, tail)) => Some(([v] + vs, tail))
  }

  function ParseMember(s: Text): Option<(Member, Text)>
    ensures ParseMember(s).Some? ==> |ParseMember(s).value.1| < |s|
    decreases |s|, 1
  {
    if s == [] || s[0] != QUOTE then None
    else
      match ParseBody(s[1..])
      case None => None
      case Some((key, rest)) =>
        if rest == [] || rest[0] != COLON then None
        else
          match ParseValue(rest[1..])
          case None => None
          case Some((v, tail)) => Some((Member(key, v), tail))
  }

  function ParseMembers(s: Text): Option<(seq<Member>, Text)>
    ensures ParseMembers(s).Some? ==> |ParseMembers(s).value.1| < |s|
    decreases |s|, 2
  {
    match ParseMember(s)
    case None => None
    case Some((m, rest)) =>
      if rest == [] then None
      else if rest[0] == RBRACE then Some(([m], rest[1..]))
      else if rest[0] != COMMA then None
      else
        match ParseMembers(rest[1..])
        case None => None
        case Some((ms, tail)) => Some(([m] + ms, tail))
  }

  /** What may follow a value: nothing, or a comma or a closing bracket. */
  predicate Delimited(rest: Text) { rest == [] || rest[0] == COMMA || rest[0] == RBRACKET || rest[0] == RBRACE }

  // ---- The parser undoes the printer. ----

  lemma QuoteParses(t: Text, rest: Text)
    ensures var s := Quote(t) + rest; s[0] == QUOTE && ParseBody(s[1..]) == Some((t, rest))
  {
    BodyRoundTrip(t, rest);
    assert (Quote(t) + rest)[1..] == Escape(t) + ([QUOTE] + rest);
  }

  lemma NoLiteral(s: Text)
    requires s != [] && s[0] != 110 && s[0] != 116 && s[0] != 102
    ensures !StartsWith(s, NULL_TEXT) && !StartsWith(s, TRUE_TEXT) && !StartsWith(s, FALSE_TEXT)
  {
    if |s| >= 4 { assert s[..4][0] == s[0]; }
    if |s| >= 5 { assert s[..5][0] == s[0]; }
  }

  lemma NoEmpty(s: Text, open: Unit, close: Unit)
    requires |s| >= 2 && s[1] != close
    ensures !StartsWith(s, [open, close])
  {
    assert s[..2][1] == s[1];
  }

  lemma NumParses(n: nat, rest: Text)
    requires Delimited(rest)
    ensures ParseValue(NumText(n) + rest) == Some((Num(n), rest))
  {
    DigitsJoin(n, rest);
    var s := NumText(n) + rest;
    assert IsDigit(s[0]);
    NoLiteral(s);
    assert ParseDigits(0, s) == ParseDigits(s[0] as int - 48, s[1..]);
  }

  /** The first unit of a printed value tells its kind, and is never a closing bracket. */
  lemma FirstUnit(v: Value)
    ensures |Stringify(v)| > 0 && Stringify(v)[0] != RBRACKET && Stringify(v)[0] != RBRACE
  {
    if v.Num? { DigitsJoin(v.n, []); }
  }

  lemma LiteralParses(v: Value, rest: Text)
    requires v.Null? || v.Bool?
    ensures ParseValue(Stringify(v) + rest) == Some((v, rest))
  {
    var lit := Stringify(v);
    var s := lit + rest;
    assert s[0] == lit[0] && s[..|lit|] == lit && s[|lit|..] == rest;
  }

  lemma StrParses(t: Text, rest: Text)
    ensures ParseValue(Quote(t) + rest) == Some((Str(t), rest))
  {
    QuoteParses(t, rest);
    NoLiteral(Quote(t) + rest);
  }

  lemma EmptyParses(rest: Text)
    ensures ParseValue([LBRACKET, RBRACKET] + rest) == Some((Arr([]), rest))
    ensures ParseValue([LBRACE, RBRACE] + rest) == Some((Obj([]), rest))
  {
    var s, t := [LBRACKET, RBRACKET] + rest, [LBRACE, RBRACE] + rest;
    assert s[0] == LBRACKET && s[..2] == [LBRACKET, RBRACKET] && s[2..] == rest;
    assert t[0] == LBRACE && t[..2] == [LBRACE, RBRACE] && t[2..] == rest;
  }

  lemma ArrOf(s: Text, items: seq<Value>, rest: Text)
    requires |s| >= 2 && s[0] == LBRACKET && s[1] != RBRACKET && ParseItems(s[1..]) == Some((items, rest))
    ensures ParseValue(s) == Some((Arr(items), rest))
  {
    NoLiteral(s);
    NoEmpty(s, LBRACKET, RBRACKET);
  }

  /** What follows the first character of a bracketed text. */
  lemma AfterBracket(open: Unit, body: Text, close: Unit, rest: Text)
    requires body != []
    ensures var s := ([open] + body + [close]) + rest;
      |s| >= 2 && s[0] == open && s[1] == body[0] && s[1..] == body + ([close] + rest)
  {}

  lemma ArrParses(body: Text, items: seq<Value>, rest: Text)
    requires body != [] && body[0] != RBRACKET && ParseItems(body + ([RBRACKET] + rest)) == Some((items, rest))
    ensures ParseValue(([LBRACKET] + body + [RBRACKET]) + rest) == Some((Arr(items), rest))
  {
    var s := ([LBRACKET] + body + [RBRACKET]) + rest;
    AfterBracket(LBRACKET, body, RBRACKET, rest);
    ArrOf(s, items, rest);
  }

  lemma ObjOf(s: Text, members: seq<Member>, rest: Text)
    requires |s| >= 2 && s[0] == LBRACE && s[1] != RBRACE && ParseMembers(s[1..]) == Some((members, rest))
    ensures ParseValue(s) == Some((Obj(members), rest))
  {
    NoLiteral(s);
    NoEmpty(s, LBRACE, RBRACE);
    assert !StartsWith(s, [LBRACKET, RBRACKET]);
  }

  lemma ObjParses(body: Text, members: seq<Member>, rest: Text)
    requires body != [] && body[0] != RBRACE && ParseMembers(body + ([RBRACE] + rest)) == Some((members, rest))
    ensures ParseValue(([LBRACE] + body + [RBRACE]) + rest) == Some((Obj(members), rest))
  {
    var s := ([LBRACE] + body + [RBRACE]) + rest;
    AfterBracket(LBRACE, body, RBRACE, rest);
    ObjOf(s, members, rest);
  }

  /** Parsing the text of a value followed by a delimiter gives the value and the rest. */
  lemma {:induction false} ValueRoundTrip(v: Value, rest: Text)
    requires Delimited(rest)
    ensures ParseValue(Stringify(v) + rest) == Some((v, rest))
    decreases v, 0
  {
    match v
    case Null => LiteralParses(v, rest);
    case Bool(_) => LiteralParses(v, rest);
    case Num(n) => NumParses(n, rest);
    case Str(t) => StrParses(t, rest);
    case Arr(items) =>
      EmptyParses(rest);
      if items != [] {
        ItemsRoundTrip(items, rest);
        ItemsStart(items);
        ArrParses(Items(items), items, rest);
      }
    case Obj(members) =>
      EmptyParses(rest);
      if members != [] {
        MembersRoundTrip(members, rest);
        MembersStart(members);
        ObjParses(Members(members), members, rest);
      }
  }

  lemma ItemsStart(items: seq<Value>)
    requires items != []
    ensures |Items(items)| > 0 && Items(items)[0] != RBRACKET
  {
    FirstUnit(items[0]);
  }

  lemma MembersStart(members: seq<Member>)
    requires members != []
    ensures |Members(members)| > 0 && Members(members)[0] == QUOTE
  {}

  lemma LastItem(s: Text, v: Value, rest: Text)
    requires ParseValue(s + ([RBRACKET] + rest)) == Some((v, [RBRACKET] + rest))
    ensures ParseItems(s + ([RBRACKET] + rest)) == Some(([v], rest))
  {
    assert ([RBRACKET] + rest)[1..] == rest;
  }

  lemma NextItem(s: Text, v: Value, more: Text, vs: seq<Value>, rest: Text)
    requires ParseValue(s + ([COMMA] + more)) == Some((v, [COMMA] + more)) && ParseItems(more) == Some((vs, rest))
    ensures ParseItems(s + ([COMMA] + more)) == Some(([v] + vs, rest))
  {
    assert ([COMMA] + more)[1..] == more;
  }

  lemma LastMember(s: Text, m: Member, rest: Text)
    requires ParseMember(s + ([RBRACE] + rest)) == Some((m, [RBRACE] + rest))
    ensures ParseMembers(s + ([RBRACE] + rest)) == Some(([m], rest))
  {
    assert ([RBRACE] + rest)[1..] == rest;
  }

  lemma NextMember(s: Text, m: Member, more: Text, ms: seq<Member>, rest: Text)
    requires ParseMember(s + ([COMMA] + more)) == Some((m, [COMMA] + more)) && ParseMembers(more) == Some((ms, rest))
    ensures ParseMembers(s + ([COMMA] + more)) == Some(([m] + ms, rest))
  {
    assert ([COMMA] + more)[1..] == more;
  }

  lemma Reassociate(a: Text, mark: Unit, b: Text, c: Text)
    ensures (a + [mark] + b) + c == a + ([mark] + (b + c))
  {}

  lemma {:induction false} ItemsRoundTrip(items: seq<Value>, rest: Text)
    requires items != []
    ensures ParseItems(Items(items) + ([RBRACKET] + rest)) == Some((items, rest))
    decreases items, 1
  {
    var close := [RBRACKET] + rest;
    if |items| == 1 {
      ValueRoundTrip(items[0], close);
      LastItem(Stringify(items[0]), items[0], rest);
      assert items == [items[0]];
    } else {
      var more := Items(items[1..]) + close;
      ValueRoundTrip(items[0], [COMMA] + more);
      ItemsRoundTrip(items[1..], rest);
      NextItem(Stringify(items[0]), items[0], more, items[1..], rest);
      Reassociate(Stringify(items[0]), COMMA, Items(items[1..]), close);
      assert items == [items[0]] + items[1..];
    }
  }

  lemma MemberParses(key: Text, text: Text, v: Value, rest: Text)
    requires ParseValue(text + rest) == Some((v, rest))
    ensures ParseMember(Quote(key) + ([COLON] + (text + rest))) == Some((Member(key, v), rest))
  {
    QuoteParses(key, [COLON] + (text + rest));
    assert ([COLON] + (text + rest))[1..] == text + rest;
  }

  lemma {:induction false} MemberRoundTrip(m: Member, rest: Text)
    requires Delimited(rest)
    ensures ParseMember(MemberText(m) + rest) == Some((m, rest))
    decreases m, 0
  {
    ValueRoundTrip(m.value, rest);
    MemberParses(m.key, Stringify(m.value), m.value, rest);
    Reassociate(Quote(m.key), COLON, Stringify(m.value), rest);
  }

  lemma {:induction false} MembersRoundTrip(members: seq<Member>, rest: Text)
    requires members != []
    ensures ParseMembers(Members(members) + ([RBRACE] + rest)) == Some((members, rest))
    decreases members, 1
  {
    var close := [RBRACE] + rest;
    if |members| == 1 {
      MemberRoundTrip(members[0], close);
      LastMember(MemberText(members[0]), members[0], rest);
      assert members == [members[0]];
    } else {
      var more := Members(members[1..]) + close;
      MemberRoundTrip(members[0], [COMMA] + more);
      MembersRoundTrip(members[1..], rest);
      NextMember(MemberText(members[0]), members[0], more, members[1..], rest);
      Reassociate(MemberText(members[0]), COMMA, Members(members[1..]), close);
      assert members == [members[0]] + members[1..];
    }
  }

  function Parse(s: Text): Option<Value> {
    match ParseValue(s) case Some((v, rest)) => (if rest == [] then Some(v) else None) case None => None
  }

  /** The parser is a left inverse of the printer. */
  lemma ParseStringify(v: Value)
    ensures Parse(Stringify(v)) == Some(v)
  {
    ValueRoundTrip(v, []);
    assert Stringify(v) + [] == Stringify(v);
  }

  // ---- Printed text is well formed, so its bytes determine the value too. ----

  lemma {:induction false} EscapeIsWellFormed(t: Text)
    ensures WellFormed(Escape(t))
    decreases |t|
  {
    if t == [] {
    } else if PairAhead(t) {
      EscapeIsWellFormed(t[2..]);
      assert (([t[0], t[1]] + Escape(t[2..]))[2..]) == Escape(t[2..]);
    } else {
      EscapeIsWellFormed(t[1..]);
      PlainIsWellFormed(EscapeUnit(t[0]));
      WellFormedConcat(EscapeUnit(t[0]), Escape(t[1..]));
    }
  }

  lemma QuoteIsWellFormed(t: Text)
    ensures WellFormed(Quote(t))
  {
    EscapeIsWellFormed(t);
    PlainIsWellFormed([QUOTE]);
    WellFormedConcat([QUOTE], Escape(t));
    WellFormedConcat([QUOTE] + Escape(t), [QUOTE]);
  }

  lemma {:induction false} NumIsPlain(n: nat)
    ensures forall i :: 0 <= i < |NumText(n)| ==> !Surrogate(NumText(n)[i])
    decreases n
  {
    if n >= 10 { NumIsPlain(n / 10); }
  }

  lemma Bracketed(open: Unit, body: Text, close: Unit)
    requires WellFormed(body) && !Surrogate(open) && !Surrogate(close)
    ensures WellFormed([open] + body + [close])
  {
    PlainIsWellFormed([open]);
    PlainIsWellFormed([close]);
    WellFormedConcat([open], body);
    WellFormedConcat([open] + body, [close]);
  }

  lemma Joined(a: Text, mark: Unit, b: Text)
    requires WellFormed(a) && WellFormed(b) && !Surrogate(mark)
    ensures WellFormed(a + [mark] + b)
  {
    PlainIsWellFormed([mark]);
    WellFormedConcat(a, [mark]);
    WellFormedConcat(a + [mark], b);
  }

  lemma {:induction false} StringifyIsWellFormed(v: Value)
    ensures WellFormed(Stringify(v))
    decreases v, 0
  {
    match v
    case Null => PlainIsWellFormed(NULL_TEXT);
    case Bool(b) => PlainIsWellFormed(if b then TRUE_TEXT else FALSE_TEXT);
    case Num(n) =>
      NumIsPlain(n);
      PlainIsWellFormed(NumText(n));
    case Str(t) => QuoteIsWellFormed(t);
    case Arr(items) =>
      if items == [] { PlainIsWellFormed([LBRACKET, RBRACKET]); }
      else {
        ItemsAreWellFormed(items);
        Bracketed(LBRACKET, Items(items), RBRACKET);
      }
    case Obj(members) =>
      if members == [] { PlainIsWellFormed([LBRACE, RBRACE]); }
      else {
        MembersAreWellFormed(members);
        Bracketed(LBRACE, Members(members), RBRACE);
      }
  }

  lemma {:induction false} ItemsAreWellFormed(items: seq<Value>)
    requires items != []
    ensures WellFormed(Items(items))
    decreases items, 1
  {
    StringifyIsWellFormed(items[0]);
    if |items| > 1 {
      ItemsAreWellFormed(items[1..]);
      Joined(Stringify(items[0]), COMMA, Items(items[1..]));
    }
  }

  lemma {:induction false} MembersAreWellFormed(members: seq<Member>)
    requires members != []
    ensures WellFormed(Members(members))
    decreases members, 1
  {
    QuoteIsWellFormed(members[0].key);
    StringifyIsWellFormed(members[0].value);
    Joined(Quote(members[0].key), COLON, Stringify(members[0].value));
    if |members| > 1 {
      MembersAreWellFormed(members[1..]);
      Joined(MemberText(members[0]), COMMA, Members(members[1..]));
    }
  }

  /** The bytes a digest is computed over determine the printed value. */
  lemma BytesDetermineValue(v: Value, w: Value)
    requires Utf8(Stringify(v)) == Utf8(Stringify(w))
    ensures v == w
  {
    StringifyIsWellFormed(v);
    StringifyIsWellFormed(w);
    WellFormedBytesAreInjective(Stringify(v), Stringify(w));
    ParseStringify(v);
    ParseStringify(w);
  }
}
