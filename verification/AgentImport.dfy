/**
 * Local parsing of an agent import: the bounded walk over an untrusted JSON tree, the exact order
 * of its timestamps, and the checks between the bytes and the accepted bundle.
 */
module JsonTree {
  import opened Prelude
  import opened Decimal

  datatype Json = Atom | Text(text: string) | List(items: seq<Json>) | Record(fields: seq<Entry>)

  datatype Entry = Entry(key: string, value: Json)

  datatype Failure =
    | ImportTooLarge | InvalidUtf8 | InvalidJson | InvalidImport
    | UnsupportedVersion | UnsupportedSignature | FutureCapture

  /** What a visit leaves: the number of nodes counted so far, or the error it stopped with. */
  datatype Outcome = Used(nodes: nat) | Rejected(code: Failure)

  const MAX_NODES: nat := 8192
  const MAX_DEPTH: nat := 16

  /** `Object.entries` of an object or array, whose keys are its indices; other values have none. */
  function Entries(v: Json): seq<Entry>
    ensures forall i :: 0 <= i < |Entries(v)| ==> Entries(v)[i].value < v
  {
    match v
    case List(items) => seq(|items|, i requires 0 <= i < |items| => Entry(Print(i), items[i]))
    case Record(fields) => fields
    case _ => []
  }

  predicate PartAt(s: string, part: string, i: int) { 0 <= i <= |s| - |part| && s[i..i + |part|] == part }

  predicate Contains(s: string, part: string) { exists i :: 0 <= i <= |s| && PartAt(s, part, i) }

  predicate Signature(e: Entry) {
    || e.key in ["signature", "signatures", "signatureProof", "signedPayload", "publicKey", "verificationKey"]
    || (e.key == "authentication" && (e.value == Text("signed") || e.value == Text("verified")))
    || (e.key == "schemaVersion" && e.value.Text? && Contains(e.value.text, "signed"))
  }

  predicate Reserved(e: Entry) { e.key in ["__proto__", "constructor", "prototype"] }

  function Bad(e: Entry): Option<Failure> {
    if Signature(e) then Some(UnsupportedSignature) else if Reserved(e) then Some(InvalidImport) else None
  }

  function FirstBad(es: seq<Entry>): Option<Failure> {
    if es == [] then None else if Bad(es[0]).Some? then Bad(es[0]) else FirstBad(es[1..])
  }

  // ---- The walk as a recursion: a node, then its entries from the last to the first. ----

  function Visit(v: Json, depth: nat, n: nat): Outcome
    decreases v, |Entries(v)| + 1
  {
    if n + 1 > MAX_NODES || depth > MAX_DEPTH then Rejected(InvalidImport)
    else
      match FirstBad(Entries(v))
      case Some(code) => Rejected(code)
      case None => VisitEntries(v, |Entries(v)|, depth + 1, n + 1)
  }

  function VisitEntries(v: Json, count: nat, depth: nat, n: nat): Outcome
    requires count <= |Entries(v)|
    decreases v, count
  {
    if count == 0 then Used(n)
    else
      match Visit(Entries(v)[count - 1].value, depth, n)
      case Rejected(code) => Rejected(code)
      case Used(m) => VisitEntries(v, count - 1, depth, m)
  }

  function FailureOf(o: Outcome): Option<Failure> { if o.Rejected? then Some(o.code) else None }

  // ---- The walk as the source runs it: an explicit stack. ----

  datatype Item = Item(value: Json, depth: nat)

  function Items(v: Json, count: nat, depth: nat): seq<Item>
    requires count <= |Entries(v)|
  {
    if count == 0 then [] else Items(v, count - 1, depth) + [Item(Entries(v)[count - 1].value, depth)]
  }

  /** What is left to do with this stack. */
  function VisitStack(stack: seq<Item>, n: nat): Outcome {
    if stack == [] then Used(n)
    else
      var top := stack[|stack| - 1];
      match Visit(top.value, top.depth, n)
      case Rejected(code) => Rejected(code)
      case Used(m) => VisitStack(stack[..|stack| - 1], m)
  }

  lemma {:induction false} PushedEntries(rest: seq<Item>, v: Json, count: nat, depth: nat, n: nat)
    requires count <= |Entries(v)|
    ensures VisitStack(rest + Items(v, count, depth), n) ==
      (match VisitEntries(v, count, depth, n)
       case Rejected(code) => Rejected(code)
       case Used(m) => VisitStack(rest, m))
  {
    if count == 0 {
      assert rest + Items(v, count, depth) == rest;
    } else {
      var top := Item(Entries(v)[count - 1].value, depth);
      var below := rest + Items(v, count - 1, depth);
      assert rest + Items(v, count, depth) == below + [top];
      assert (below + [top])[..|below|] == below;
      match Visit(top.value, depth, n)
      case Rejected(_) =>
      case Used(m) => PushedEntries(rest, v, count - 1, depth, m);
    }
  }

  lemma {:induction false} NoBad(es: seq<Entry>)
    ensures FirstBad(es).None? <==> forall i :: 0 <= i < |es| ==> Bad(es[i]).None?
  {
    if es != [] {
      NoBad(es[1..]);
      assert forall i :: 1 <= i < |es| ==> es[i] == es[1..][i - 1];
    }
  }

  lemma {:induction false} FirstBadAt(es: seq<Entry>, k: nat)
    requires k < |es| && Bad(es[k]).Some? && forall i :: 0 <= i < k ==> Bad(es[i]).None?
    ensures FirstBad(es) == Bad(es[k])
  {
    if k > 0 {
      assert forall i :: 1 <= i < |es| ==> es[i] == es[1..][i - 1];
      FirstBadAt(es[1..], k - 1);
    }
  }

  /** Popping the top item and pushing its entries leaves the same work. */
  lemma Descends(rest: seq<Item>, top: Item, n: nat)
    requires n + 1 <= MAX_NODES && top.depth <= MAX_DEPTH && FirstBad(Entries(top.value)).None?
    ensures VisitStack(rest + Items(top.value, |Entries(top.value)|, top.depth + 1), n + 1) == VisitStack(rest + [top], n)
  {
    assert (rest + [top])[..|rest|] == rest;
    PushedEntries(rest, top.value, |Entries(top.value)|, top.depth + 1, n + 1);
  }

  lemma Refuses(rest: seq<Item>, top: Item, n: nat)
    requires n + 1 > MAX_NODES || top.depth > MAX_DEPTH || FirstBad(Entries(top.value)).Some?
    ensures VisitStack(rest + [top], n) == Visit(top.value, top.depth, n)
  {}

  lemma PushedOne(rest: seq<Item>, v: Json, i: nat, depth: nat)
    requires i < |Entries(v)|
    ensures rest + Items(v, i, depth) + [Item(Entries(v)[i].value, depth)] == rest + Items(v, i + 1, depth)
  {}

  /** The inner loop: push every entry one level deeper, up to the first forbidden one. */
  method PushEntries(rest: seq<Item>, v: Json, depth: nat) returns (bad: Option<Failure>, stack: seq<Item>)
    ensures bad == FirstBad(Entries(v))
    ensures bad.None? ==> stack == rest + Items(v, |Entries(v)|, depth)
  {
    var entries := Entries(v);
    stack := rest;
    assert rest + Items(v, 0, depth) == rest;
    for i := 0 to |entries|
      invariant stack == rest + Items(v, i, depth)
      invariant forall j :: 0 <= j < i ==> Bad(entries[j]).None?
    {
      bad := Bad(entries[i]);
      if bad.Some? {
        FirstBadAt(entries, i);
        return;
      }
      PushedOne(rest, v, i, depth);
      stack := stack + [Item(entries[i].value, depth)];
    }
    NoBad(entries);
    bad := None;
  }

  /** `inspectJson`: the stack walk gives the recursion's answer, after at most one pop too many. */
  method InspectJson(root: Json) returns (failure: Option<Failure>, pops: nat)
    ensures failure == FailureOf(Visit(root, 0, 0))
    ensures pops <= MAX_NODES + 1
    ensures failure.None? ==> Visit(root, 0, 0) == Used(pops)
  {
    var stack := [Item(root, 0)];
    var nodes := 0;
    assert stack[..0] == [];
    while stack != []
      invariant nodes <= MAX_NODES
      invariant VisitStack(stack, nodes) == Visit(root, 0, 0)
      decreases MAX_NODES - nodes
    {
      var current := stack[|stack| - 1];
      ghost var rest := stack[..|stack| - 1];
      assert stack == rest + [current];
      stack := stack[..|stack| - 1];
      nodes := nodes + 1;
      if nodes > MAX_NODES || current.depth > MAX_DEPTH {
        Refuses(rest, current, nodes - 1);
        return Some(InvalidImport), nodes;
      }
      var bad;
      bad, stack := PushEntries(stack, current.value, current.depth + 1);
      if bad.Some? {
        Refuses(rest, current, nodes - 1);
        return bad, nodes;
      }
      Descends(rest, current, nodes - 1);
    }
    failure, pops := None, nodes;
  }

  // ---- What acceptance means. ----

  function Size(v: Json): nat
    decreases v, |Entries(v)| + 1
  {
    1 + SizeOfEntries(v, |Entries(v)|)
  }

  function SizeOfEntries(v: Json, count: nat): nat
    requires count <= |Entries(v)|
    decreases v, count
  {
    if count == 0 then 0 else Size(Entries(v)[count - 1].value) + SizeOfEntries(v, count - 1)
  }

  /** No value lies more than `depth` steps below this one. */
  predicate Within(v: Json, depth: int)
    decreases v, |Entries(v)| + 1
  {
    depth >= 0 && EntriesWithin(v, |Entries(v)|, depth - 1)
  }

  predicate EntriesWithin(v: Json, count: nat, depth: int)
    requires count <= |Entries(v)|
    decreases v, count
  {
    count == 0 || (Within(Entries(v)[count - 1].value, depth) && EntriesWithin(v, count - 1, depth))
  }

  predicate Own(es: seq<Entry>, p: Entry -> bool) { exists i :: 0 <= i < |es| && p(es[i]) }

  /** Some entry of the tree, at any depth, is of the kind `p`. */
  predicate Anywhere(v: Json, p: Entry -> bool)
    decreases v, |Entries(v)| + 1
  {
    Own(Entries(v), p) || Deeper(v, |Entries(v)|, p)
  }

  predicate Deeper(v: Json, count: nat, p: Entry -> bool)
    requires count <= |Entries(v)|
    decreases v, count
  {
    count > 0 && (Anywhere(Entries(v)[count - 1].value, p) || Deeper(v, count - 1, p))
  }

  predicate Fits(v: Json, depth: nat, n: nat) {
    n + Size(v) <= MAX_NODES && Within(v, MAX_DEPTH - depth) && !Anywhere(v, Signature) && !Anywhere(v, Reserved)
  }

  predicate EntriesFit(v: Json, count: nat, depth: nat, n: nat)
    requires count <= |Entries(v)|
  {
    && n + SizeOfEntries(v, count) <= MAX_NODES && EntriesWithin(v, count, MAX_DEPTH - depth)
    && !Deeper(v, count, Signature) && !Deeper(v, count, Reserved)
  }

  lemma OwnBad(es: seq<Entry>)
    ensures FirstBad(es).None? <==> !Own(es, Signature) && !Own(es, Reserved)
    ensures FirstBad(es) == Some(UnsupportedSignature) ==> Own(es, Signature)
    ensures FirstBad(es) == Some(InvalidImport) ==> Own(es, Reserved)
    ensures FirstBad(es).Some? ==> FirstBad(es).value == UnsupportedSignature || FirstBad(es).value == InvalidImport
  {
    NoBad(es);
    FirstBadCode(es);
  }

  lemma {:induction false} FirstBadCode(es: seq<Entry>)
    ensures FirstBad(es) == Some(UnsupportedSignature) ==> exists i :: 0 <= i < |es| && Signature(es[i])
    ensures FirstBad(es) == Some(InvalidImport) ==> exists i :: 0 <= i < |es| && Reserved(es[i])
    ensures FirstBad(es).Some? ==> FirstBad(es).value == UnsupportedSignature || FirstBad(es).value == InvalidImport
  {
    if es != [] && Bad(es[0]).None? {
      FirstBadCode(es[1..]);
      assert forall i :: 0 <= i < |es| - 1 ==> es[1..][i] == es[i + 1];
    }
  }

  lemma {:induction false} VisitMeaning(v: Json, depth: nat, n: nat)
    requires n <= MAX_NODES
    ensures Visit(v, depth, n).Used? <==> Fits(v, depth, n)
    ensures Visit(v, depth, n).Used? ==> Visit(v, depth, n) == Used(n + Size(v))
    decreases v, |Entries(v)| + 1
  {
    OwnBad(Entries(v));
    if n + 1 <= MAX_NODES {
      EntriesMeaning(v, |Entries(v)|, depth + 1, n + 1);
    }
  }

  lemma {:induction false} EntriesMeaning(v: Json, count: nat, depth: nat, n: nat)
    requires n <= MAX_NODES && count <= |Entries(v)|
    ensures VisitEntries(v, count, depth, n).Used? <==> EntriesFit(v, count, depth, n)
    ensures VisitEntries(v, count, depth, n).Used? ==> VisitEntries(v, count, depth, n) == Used(n + SizeOfEntries(v, count))
    decreases v, count
  {
    if count > 0 {
      var child := Entries(v)[count - 1].value;
      VisitMeaning(child, depth, n);
      if Visit(child, depth, n).Used? { EntriesMeaning(v, count - 1, depth, n + Size(child)); }
    }
  }

  // The forbidden entries, by their keys and texts.
  function KeyIn(keys: seq<string>): Entry -> bool { (e: Entry) => e.key in keys }
  function Says(key: string, texts: seq<string>): Entry -> bool {
    (e: Entry) => e.key == key && e.value.Text? && e.value.text in texts
  }
  function Mentions(key: string, part: string): Entry -> bool {
    (e: Entry) => e.key == key && e.value.Text? && Contains(e.value.text, part)
  }

  lemma OwnUnion(es: seq<Entry>, p: Entry -> bool, q: Entry -> bool, r: Entry -> bool)
    requires forall e :: p(e) <==> q(e) || r(e)
    ensures Own(es, p) <==> Own(es, q) || Own(es, r)
  {
    if i :| 0 <= i < |es| && q(es[i]) { assert p(es[i]); }
    if i :| 0 <= i < |es| && r(es[i]) { assert p(es[i]); }
  }

  lemma {:induction false} AnywhereUnion(v: Json, p: Entry -> bool, q: Entry -> bool, r: Entry -> bool)
    requires forall e :: p(e) <==> q(e) || r(e)
    ensures Anywhere(v, p) <==> Anywhere(v, q) || Anywhere(v, r)
    decreases v, |Entries(v)| + 1
  {
    OwnUnion(Entries(v), p, q, r);
    DeeperUnion(v, |Entries(v)|, p, q, r);
  }

  lemma {:induction false} DeeperUnion(v: Json, count: nat, p: Entry -> bool, q: Entry -> bool, r: Entry -> bool)
    requires (forall e :: p(e) <==> q(e) || r(e)) && count <= |Entries(v)|
    ensures Deeper(v, count, p) <==> Deeper(v, count, q) || Deeper(v, count, r)
    decreases v, count
  {
    if count > 0 {
      AnywhereUnion(Entries(v)[count - 1].value, p, q, r);
      DeeperUnion(v, count - 1, p, q, r);
    }
  }

  /** Anywhere in the tree an entry claims or carries a signature: by its key, or by what it says. */
  predicate Signed(root: Json) {
    || Anywhere(root, KeyIn(["signature", "signatures", "signatureProof", "signedPayload", "publicKey", "verificationKey"]))
    || Anywhere(root, Says("authentication", ["signed", "verified"])) || Anywhere(root, Mentions("schemaVersion", "signed"))
  }

  lemma SignedIff(root: Json)
    ensures Anywhere(root, Signature) <==> Signed(root)
    ensures Anywhere(root, Reserved) <==> Anywhere(root, KeyIn(["__proto__", "constructor", "prototype"]))
  {
    var keys := KeyIn(["signature", "signatures", "signatureProof", "signedPayload", "publicKey", "verificationKey"]);
    var says, mentions := Says("authentication", ["signed", "verified"]), Mentions("schemaVersion", "signed");
    var texts := (e: Entry) => says(e) || mentions(e);
    AnywhereUnion(root, Signature, keys, texts);
    AnywhereUnion(root, texts, says, mentions);
    var reserved := KeyIn(["__proto__", "constructor", "prototype"]);
    AnywhereUnion(root, Reserved, reserved, reserved);
  }

  /** The walk accepts exactly the trees of at most 8192 nodes, at most 16 deep, with no forbidden entry anywhere. */
  lemma InspectionIff(root: Json)
    ensures FailureOf(Visit(root, 0, 0)).None? <==>
      && Size(root) <= 8192 && Within(root, 16) && !Signed(root)
      && !Anywhere(root, KeyIn(["__proto__", "constructor", "prototype"]))
    ensures FailureOf(Visit(root, 0, 0)).None? ==> Visit(root, 0, 0) == Used(Size(root))
  {
    VisitMeaning(root, 0, 0);
    SignedIff(root);
  }

  predicate TooMuch(v: Json, depth: nat, n: nat) { n + Size(v) > MAX_NODES || !Within(v, MAX_DEPTH - depth) }

  lemma {:induction false} CodeOfVisit(v: Json, depth: nat, n: nat)
    requires n <= MAX_NODES
    ensures Visit(v, depth, n) == Rejected(UnsupportedSignature) ==> Anywhere(v, Signature)
    ensures Visit(v, depth, n) == Rejected(InvalidImport) ==> TooMuch(v, depth, n) || Anywhere(v, Reserved)
    ensures Visit(v, depth, n).Rejected? ==>
      Visit(v, depth, n).code == UnsupportedSignature || Visit(v, depth, n).code == InvalidImport
    decreases v, |Entries(v)| + 1
  {
    OwnBad(Entries(v));
    if n + 1 <= MAX_NODES { CodeOfEntries(v, |Entries(v)|, depth + 1, n + 1); }
  }

  lemma {:induction false} CodeOfEntries(v: Json, count: nat, depth: nat, n: nat)
    requires n <= MAX_NODES && count <= |Entries(v)|
    ensures VisitEntries(v, count, depth, n) == Rejected(UnsupportedSignature) ==> Deeper(v, count, Signature)
    ensures VisitEntries(v, count, depth, n) == Rejected(InvalidImport) ==>
      n + SizeOfEntries(v, count) > MAX_NODES || !EntriesWithin(v, count, MAX_DEPTH - depth) || Deeper(v, count, Reserved)
    ensures VisitEntries(v, count, depth, n).Rejected? ==>
      VisitEntries(v, count, depth, n).code == UnsupportedSignature || VisitEntries(v, count, depth, n).code == InvalidImport
    decreases v, count
  {
    if count > 0 {
      var child := Entries(v)[count - 1].value;
      CodeOfVisit(child, depth, n);
      VisitMeaning(child, depth, n);
      if Visit(child, depth, n).Used? { CodeOfEntries(v, count - 1, depth, n + Size(child)); }
    }
  }

  /** The two errors are told apart truthfully: each names a fault the tree has. */
  lemma RejectionIsTrue(root: Json)
    ensures FailureOf(Visit(root, 0, 0)) == Some(UnsupportedSignature) ==> Signed(root)
    ensures FailureOf(Visit(root, 0, 0)) == Some(InvalidImport) ==>
      Size(root) > 8192 || !Within(root, 16) || Anywhere(root, KeyIn(["__proto__", "constructor", "prototype"]))
    ensures FailureOf(Visit(root, 0, 0)).Some? ==>
      FailureOf(Visit(root, 0, 0)).value == UnsupportedSignature || FailureOf(Visit(root, 0, 0)).value == InvalidImport
  {
    CodeOfVisit(root, 0, 0);
    SignedIff(root);
  }
}

/** Comparing UTC timestamps with any number of fractional digits, exactly. */
module ImportTimes {
  import opened Prelude
  import opened Decimal
  import opened Calendar
  import Lex

  /** A matched text: the 19 characters to the second, and the fraction's digits. */
  datatype Stamp = Stamp(head: string, fraction: string)

  predicate Head(t: string) {
    && |t| == 19
    && Digits(t[0..4]) && t[4] == '-' && Digits(t[5..7]) && t[7] == '-' && Digits(t[8..10]) && t[10] == 'T'
    && Digits(t[11..13]) && t[13] == ':' && Digits(t[14..16]) && t[16] == ':' && Digits(t[17..19])
  }

  function Match(t: string): (s: Option<Stamp>)
    ensures s.Some? ==> Digits(s.value.fraction)
  {
    if |t| < 20 || !Head(t[..19]) || t[|t| - 1] != 'Z' then None
    else if |t| == 20 then Some(Stamp(t[..19], ""))
    else if |t| > 21 && t[19] == '.' && Digits(t[20..|t| - 1]) then Some(Stamp(t[..19], t[20..|t| - 1]))
    else None
  }

  /** `Date.parse`: seconds from the epoch for a Gregorian date and time; `other` decides about the rest. */
  function Seconds(other: string -> Option<int>, head: string): Option<int>
    requires Head(head)
  {
    var date := Date(Value(head[0..4]), Value(head[5..7]), Value(head[8..10]));
    var hour, minute, second := Value(head[11..13]), Value(head[14..16]), Value(head[17..19]);
    if ValidDate(date) && hour <= 23 && minute <= 59 && second <= 59
    then Some(DayOf(date) * 86_400 + hour * 3600 + minute * 60 + second)
    else other(head)
  }

  /** A readable text as whole seconds and fractional digits. */
  datatype Instant = Instant(seconds: int, fraction: string)

  function Read(other: string -> Option<int>, t: string): (i: Option<Instant>)
    ensures i.Some? ==> Digits(i.value.fraction)
  {
    match Match(t)
    case None => None
    case Some(stamp) =>
      match Seconds(other, stamp.head)
      case None => None
      case Some(seconds) => Some(Instant(seconds, stamp.fraction))
  }

  function Max(a: nat, b: nat): nat { if a < b then b else a }

  /** `padEnd(width, '0')`. */
  function PadEnd(s: string, width: nat): string
    decreases width
  {
    if width <= |s| then s else PadEnd(s, width - 1) + "0"
  }

  function CompareRead(a: Instant, b: Instant): int {
    if a.seconds != b.seconds then (if a.seconds < b.seconds then -1 else 1)
    else
      var precision := Max(|a.fraction|, |b.fraction|);
      var left, right := PadEnd(a.fraction, precision), PadEnd(b.fraction, precision);
      if left == right then 0 else if Lex.Less(left, right) then -1 else 1
  }

  /** `compareIsoTimestamps`; `None` is its exception. */
  function Compare(other: string -> Option<int>, left: string, right: string): Option<int> {
    var a, b := Read(other, left), Read(other, right);
    if a.Some? && b.Some? then Some(CompareRead(a.value, b.value)) else None
  }

  // ---- The order compared. ----

  /** The instant in units of a `k`-th decimal place of a second. */
  function Scaled(i: Instant, k: nat): int
    requires Digits(i.fraction) && |i.fraction| <= k
  {
    PadEndShape(i.fraction, k);
    i.seconds * Pow10(k) + Value(PadEnd(i.fraction, k))
  }

  lemma {:induction false} PadEndShape(s: string, width: nat)
    requires Digits(s)
    ensures Digits(PadEnd(s, width)) && |PadEnd(s, width)| == Max(|s|, width)
    decreases width
  {
    if width > |s| { PadEndShape(s, width - 1); }
  }

  /** One more decimal place multiplies by ten. */
  lemma Finer(i: Instant, k: nat)
    requires Digits(i.fraction) && |i.fraction| <= k
    ensures Scaled(i, k + 1) == 10 * Scaled(i, k)
  {
    PadEndShape(i.fraction, k);
    PadEndShape(i.fraction, k + 1);
    AddedZero(PadEnd(i.fraction, k));
    TimesTen(i.seconds, Pow10(k));
  }

  lemma AddedZero(p: string)
    requires Digits(p)
    ensures Digits(p + "0") && Value(p + "0") == 10 * Value(p)
  {
    assert (p + "0")[..|p|] == p;
  }

  lemma TimesTen(a: int, b: int)
    ensures a * (10 * b) == 10 * (a * b)
  {}

  lemma EarlierSecond(s: int, t: int, p: int, v: int, w: int)
    requires s < t && 0 <= v < p && 0 <= w
    ensures s * p + v < t * p + w
  {
    assert (s + 1) * p <= t * p;
  }

  lemma SameScale(a: Instant, b: Instant)
    requires Digits(a.fraction) && Digits(b.fraction)
    ensures var k := Max(|a.fraction|, |b.fraction|);
      && (CompareRead(a, b) < 0 <==> Scaled(a, k) < Scaled(b, k))
      && (CompareRead(a, b) == 0 <==> Scaled(a, k) == Scaled(b, k))
  {
    var k := Max(|a.fraction|, |b.fraction|);
    var left, right := PadEnd(a.fraction, k), PadEnd(b.fraction, k);
    PadEndShape(a.fraction, k);
    PadEndShape(b.fraction, k);
    ValuePad(left);
    ValuePad(right);
    PadOrder(Value(left), Value(right), k);
    if a.seconds < b.seconds { EarlierSecond(a.seconds, b.seconds, Pow10(k), Value(left), Value(right)); }
    if b.seconds < a.seconds { EarlierSecond(b.seconds, a.seconds, Pow10(k), Value(right), Value(left)); }
  }

  /** The comparison is that of the instants, at any precision that holds both. */
  lemma {:induction false} CompareIsExact(a: Instant, b: Instant, k: nat)
    requires Digits(a.fraction) && Digits(b.fraction) && Max(|a.fraction|, |b.fraction|) <= k
    ensures CompareRead(a, b) < 0 <==> Scaled(a, k) < Scaled(b, k)
    ensures CompareRead(a, b) == 0 <==> Scaled(a, k) == Scaled(b, k)
    ensures CompareRead(a, b) > 0 <==> Scaled(a, k) > Scaled(b, k)
    decreases k
  {
    if k == Max(|a.fraction|, |b.fraction|) {
      SameScale(a, b);
    } else {
      CompareIsExact(a, b, k - 1);
      Finer(a, k - 1);
      Finer(b, k - 1);
    }
  }

  /** "Not after" is transitive, whatever the precisions. */
  lemma NotAfterTransitive(a: Instant, b: Instant, c: Instant)
    requires Digits(a.fraction) && Digits(b.fraction) && Digits(c.fraction)
    requires CompareRead(a, b) <= 0 && CompareRead(b, c) <= 0
    ensures CompareRead(a, c) <= 0
  {
    var k := Max(|a.fraction|, Max(|b.fraction|, |c.fraction|));
    CompareIsExact(a, b, k);
    CompareIsExact(b, c, k);
    CompareIsExact(a, c, k);
  }
}

module AgentImport {
  import opened Prelude
  import opened JsonTree
  import opened ImportTimes
  import Decimal

  const MAX_BYTES: nat := 256 * 1024

  type Byte = n: int | 0 <= n < 256

  datatype Event = Event(eventId: string, occurredAt: string)
  datatype Bundle = Bundle(capturedAt: string, events: seq<Event>)

  /** The platform and the declared schemas: decoding, parsing, the timestamp schema and the strict object schema. */
  datatype Platform = Platform(
    utf8: seq<Byte> -> Option<string>,
    parse: string -> Option<Json>,
    isTimestamp: string -> bool,
    schema: Json -> Option<Bundle>,
    otherDates: string -> Option<int>)

  /** The object schema applies the timestamp schema to every time in the bundle. */
  ghost predicate ChecksTimes(p: Platform) {
    forall v :: p.schema(v).Some? ==>
      var b := p.schema(v).value;
      p.isTimestamp(b.capturedAt) && forall i :: 0 <= i < |b.events| ==> p.isTimestamp(b.events[i].occurredAt)
  }

  datatype Result = Imported(bundle: Bundle) | Failed(code: Failure) | Thrown

  predicate Compared(p: Platform, b: Bundle, i: nat)
    requires i < |b.events|
  {
    p.isTimestamp(b.capturedAt) && p.isTimestamp(b.events[i].occurredAt)
  }

  function CompareEvent(p: Platform, b: Bundle, i: nat): Option<int>
    requires i < |b.events|
  {
    Compare(p.otherDates, b.events[i].occurredAt, b.capturedAt)
  }

  predicate Unreadable(p: Platform, b: Bundle, i: nat)
    requires i < |b.events|
  {
    Compared(p, b, i) && CompareEvent(p, b, i).None?
  }

  predicate Late(p: Platform, b: Bundle, i: nat)
    requires i < |b.events|
  {
    Compared(p, b, i) && CompareEvent(p, b, i).Some? && CompareEvent(p, b, i).value > 0
  }

  /** The numbers below `n` that satisfy `q`, in order. */
  function Below(q: nat -> bool, n: nat): seq<nat> {
    if n == 0 then [] else Below(q, n - 1) + (if q(n - 1) then [n - 1] else [])
  }

  lemma {:induction false} BelowMember(q: nat -> bool, n: nat, i: nat)
    ensures i in Below(q, n) <==> i < n && q(i)
  {
    if n > 0 { BelowMember(q, n - 1, i); }
  }

  function LateAt(p: Platform, b: Bundle): nat -> bool { (i: nat) => i < |b.events| && Late(p, b, i) }

  function LateBefore(p: Platform, b: Bundle, n: nat): seq<nat> { Below(LateAt(p, b), n) }

  lemma LateNext(p: Platform, b: Bundle, n: nat)
    requires n < |b.events|
    ensures LateBefore(p, b, n + 1) == if Late(p, b, n) then LateBefore(p, b, n) + [n] else LateBefore(p, b, n)
  {}

  /** The refinement for one event: whether it is late, unless its comparison throws. */
  method CheckEvent(p: Platform, b: Bundle, n: nat) returns (late: Option<bool>)
    requires n < |b.events|
    ensures late.None? <==> Unreadable(p, b, n)
    ensures late.Some? ==> late.value == Late(p, b, n)
  {
    if !Compared(p, b, n) { return Some(false); }
    var order := CompareEvent(p, b, n);
    if order.None? { return None; }
    late := Some(order.value > 0);
  }

  /** The refinement's loop: the indices of events after the capture, in order; `None` is an exception. */
  method LateEvents(p: Platform, b: Bundle) returns (issues: Option<seq<nat>>)
    ensures issues.None? <==> exists i: nat :: i < |b.events| && Unreadable(p, b, i)
    ensures issues.Some? ==> issues.value == LateBefore(p, b, |b.events|)
  {
    var found: seq<nat> := [];
    for n := 0 to |b.events|
      invariant forall i: nat :: i < n ==> !Unreadable(p, b, i)
      invariant found == LateBefore(p, b, n)
    {
      LateNext(p, b, n);
      var late := CheckEvent(p, b, n);
      if late.None? { return None; }
      if late.value {
        found := found + [n];
      }
    }
    issues := Some(found);
  }

  function Field(fields: seq<Entry>, key: string): Option<Json> {
    if fields == [] then None else if fields[0].key == key then Some(fields[0].value) else Field(fields[1..], key)
  }

  predicate WrongVersion(v: Json) {
    v.Record? && Field(v.fields, "schemaVersion") != Some(Text("openarc.agent-import.v1"))
  }

  /** From the bundle the schema admits to the result. */
  ghost function Judge(p: Platform, b: Bundle, evaluatedAt: string): Result {
    if exists i: nat :: i < |b.events| && Unreadable(p, b, i) then Thrown
    else if exists i: nat :: i < |b.events| && Late(p, b, i) then Failed(InvalidImport)
    else
      match Compare(p.otherDates, b.capturedAt, evaluatedAt)
      case None => Thrown
      case Some(order) => if order > 0 then Failed(FutureCapture) else Imported(b)
  }

  ghost function FromTree(p: Platform, v: Json, evaluatedAt: string): Result {
    var inspected := FailureOf(Visit(v, 0, 0));
    if inspected.Some? then Failed(inspected.value)
    else if WrongVersion(v) then Failed(UnsupportedVersion)
    else if p.schema(v).None? then Failed(InvalidImport)
    else Judge(p, p.schema(v).value, evaluatedAt)
  }

  ghost function Import(p: Platform, bytes: seq<Byte>, evaluatedAt: string): Result {
    if !p.isTimestamp(evaluatedAt) then Failed(InvalidImport)
    else if |bytes| > MAX_BYTES then Failed(ImportTooLarge)
    else
      match p.utf8(bytes)
      case None => Failed(InvalidUtf8)
      case Some(text) =>
        match p.parse(text)
        case None => Failed(InvalidJson)
        case Some(v) => FromTree(p, v, evaluatedAt)
  }

  /** `parseAgentImport`. */
  method ParseAgentImport(p: Platform, bytes: seq<Byte>, evaluatedAt: string) returns (r: Result)
    ensures r == Import(p, bytes, evaluatedAt)
  {
    if !p.isTimestamp(evaluatedAt) { return Failed(InvalidImport); }
    if |bytes| > MAX_BYTES { return Failed(ImportTooLarge); }
    var text := p.utf8(bytes);
    if text.None? { return Failed(InvalidUtf8); }
    var value := p.parse(text.value);
    if value.None? { return Failed(InvalidJson); }
    var inspected, _ := InspectJson(value.value);
    if inspected.Some? { return Failed(inspected.value); }
    if WrongVersion(value.value) { return Failed(UnsupportedVersion); }
    var parsed := p.schema(value.value);
    if parsed.None? { return Failed(InvalidImport); }
    var issues := LateEvents(p, parsed.value);
    if issues.None? { return Thrown; }
    forall i: nat ensures i in issues.value <==> i < |parsed.value.events| && Late(p, parsed.value, i) {
      BelowMember(LateAt(p, parsed.value), |parsed.value.events|, i);
    }
    if issues.value != [] {
      assert issues.value[0] in issues.value;
      return Failed(InvalidImport);
    }
    var order := Compare(p.otherDates, parsed.value.capturedAt, evaluatedAt);
    if order.None? { return Thrown; }
    if order.value > 0 { return Failed(FutureCapture); }
    r := Imported(parsed.value);
  }

  /** Both texts are readable and the first instant is not after the second. */
  predicate NotAfter(p: Platform, a: string, b: string) {
    Compare(p.otherDates, a, b).Some? && Compare(p.otherDates, a, b).value <= 0
  }

  lemma NotAfterIff(p: Platform, b: Bundle, i: nat)
    requires i < |b.events| && Compared(p, b, i)
    ensures NotAfter(p, b.events[i].occurredAt, b.capturedAt) <==> !Unreadable(p, b, i) && !Late(p, b, i)
  {}

  lemma JudgedIff(p: Platform, b: Bundle, evaluatedAt: string)
    requires forall i: nat :: i < |b.events| ==> Compared(p, b, i)
    ensures Judge(p, b, evaluatedAt) == Imported(b) <==>
      && (forall i: nat :: i < |b.events| ==> NotAfter(p, b.events[i].occurredAt, b.capturedAt))
      && NotAfter(p, b.capturedAt, evaluatedAt)
    ensures Judge(p, b, evaluatedAt).Imported? ==> Judge(p, b, evaluatedAt).bundle == b
  {
    forall i: nat | i < |b.events|
      ensures NotAfter(p, b.events[i].occurredAt, b.capturedAt) <==> !Unreadable(p, b, i) && !Late(p, b, i)
    {
      NotAfterIff(p, b, i);
    }
  }

  /** Of at most 8192 nodes, at most 16 deep, with no forbidden entry, and of the one version if it is an object. */
  predicate Admitted(v: Json) {
    && Size(v) <= 8192 && Within(v, 16) && !Signed(v) && !Anywhere(v, KeyIn(["__proto__", "constructor", "prototype"]))
    && (v.Record? ==> Field(v.fields, "schemaVersion") == Some(Text("openarc.agent-import.v1")))
  }

  /** A tree becomes an import exactly when it is small, shallow and clean, of the version and shape, and in time order. */
  lemma ImportedIff(p: Platform, v: Json, b: Bundle, evaluatedAt: string)
    requires ChecksTimes(p)
    ensures FromTree(p, v, evaluatedAt) == Imported(b) <==>
      && Admitted(v) && p.schema(v) == Some(b)
      && (forall i: nat :: i < |b.events| ==> NotAfter(p, b.events[i].occurredAt, b.capturedAt))
      && NotAfter(p, b.capturedAt, evaluatedAt)
  {
    InspectionIff(v);
    if p.schema(v).Some? {
      JudgedIff(p, p.schema(v).value, evaluatedAt);
    }
  }

  predicate Readable(p: Platform, t: string) { Read(p.otherDates, t).Some? }

  /** A time of the bundle that is compared cannot be read. */
  ghost predicate Stumbles(p: Platform, b: Bundle, evaluatedAt: string) {
    || !Readable(p, b.capturedAt)
    || (exists i: nat :: i < |b.events| && !Readable(p, b.events[i].occurredAt))
    || (!Readable(p, evaluatedAt) && forall i: nat :: i < |b.events| ==> NotAfter(p, b.events[i].occurredAt, b.capturedAt))
  }

  lemma UnreadableIff(p: Platform, b: Bundle, i: nat)
    requires i < |b.events| && Compared(p, b, i)
    ensures Unreadable(p, b, i) <==> !Readable(p, b.events[i].occurredAt) || !Readable(p, b.capturedAt)
  {}

  lemma JudgeThrowsIff(p: Platform, b: Bundle, evaluatedAt: string)
    requires forall i: nat :: i < |b.events| ==> Compared(p, b, i)
    ensures Judge(p, b, evaluatedAt).Thrown? <==> Stumbles(p, b, evaluatedAt)
  {
    forall i: nat | i < |b.events|
      ensures Unreadable(p, b, i) <==> !Readable(p, b.events[i].occurredAt) || !Readable(p, b.capturedAt)
      ensures NotAfter(p, b.events[i].occurredAt, b.capturedAt) <==> !Unreadable(p, b, i) && !Late(p, b, i)
    {
      UnreadableIff(p, b, i);
      NotAfterIff(p, b, i);
    }
    if b.events != [] { assert Compared(p, b, 0); }
  }

  /** The tree behind the bytes. */
  function Tree(p: Platform, bytes: seq<Byte>): Option<Json> {
    var text := p.utf8(bytes);
    if text.None? then None else p.parse(text.value)
  }

  /**
   * An error that is none of the import's codes escapes exactly when the bundle is admitted and the
   * capture time, an event's time or, with no event late, the evaluation time cannot be read.
   */
  lemma ThrownIff(p: Platform, bytes: seq<Byte>, evaluatedAt: string)
    requires ChecksTimes(p)
    ensures Import(p, bytes, evaluatedAt).Thrown? <==>
      && p.isTimestamp(evaluatedAt) && |bytes| <= 262_144 && Tree(p, bytes).Some?
      && var v := Tree(p, bytes).value;
         && Admitted(v) && p.schema(v).Some? && Stumbles(p, p.schema(v).value, evaluatedAt)
  {
    if Tree(p, bytes).Some? {
      var v := Tree(p, bytes).value;
      InspectionIff(v);
      if p.schema(v).Some? { JudgeThrowsIff(p, p.schema(v).value, evaluatedAt); }
    }
  }

  /** What each error code of an import says about its input. */
  lemma ImportRefusals(p: Platform, bytes: seq<Byte>, evaluatedAt: string)
    ensures var r, sized := Import(p, bytes, evaluatedAt), p.isTimestamp(evaluatedAt) && |bytes| <= 262_144;
      && (r == Failed(ImportTooLarge) <==> p.isTimestamp(evaluatedAt) && |bytes| > 262_144)
      && (r == Failed(InvalidUtf8) <==> sized && p.utf8(bytes) == None)
      && (r == Failed(InvalidJson) <==> sized && p.utf8(bytes) != None && Tree(p, bytes) == None)
      && (r == Failed(UnsupportedSignature) ==> sized && Tree(p, bytes) != None && Signed(Tree(p, bytes).value))
      && (r == Failed(UnsupportedVersion) ==>
            sized && Tree(p, bytes) != None && Tree(p, bytes).value.Record? && !Admitted(Tree(p, bytes).value))
      && (r == Failed(FutureCapture) ==>
            sized && Tree(p, bytes) != None && Admitted(Tree(p, bytes).value) && p.schema(Tree(p, bytes).value).Some?
            && !NotAfter(p, p.schema(Tree(p, bytes).value).value.capturedAt, evaluatedAt))
  {
    if Tree(p, bytes).Some? {
      InspectionIff(Tree(p, bytes).value);
      RejectionIsTrue(Tree(p, bytes).value);
    }
  }

  /** A wrong version is told as such, if nothing else is wrong with the tree. */
  lemma VersionIsTold(p: Platform, bytes: seq<Byte>, evaluatedAt: string)
    requires p.isTimestamp(evaluatedAt) && |bytes| <= 262_144 && Tree(p, bytes).Some?
    requires FailureOf(Visit(Tree(p, bytes).value, 0, 0)).None? && !Admitted(Tree(p, bytes).value)
    ensures Import(p, bytes, evaluatedAt) == Failed(UnsupportedVersion)
  {
    InspectionIff(Tree(p, bytes).value);
  }

  /** In an accepted import every event is no later than the capture, and the capture no later than the evaluation. */
  lemma AcceptedIsOrdered(p: Platform, bytes: seq<Byte>, evaluatedAt: string, i: nat)
    requires ChecksTimes(p)
    requires Import(p, bytes, evaluatedAt).Imported? && i < |Import(p, bytes, evaluatedAt).bundle.events|
    ensures var b := Import(p, bytes, evaluatedAt).bundle;
      && NotAfter(p, b.events[i].occurredAt, b.capturedAt) && NotAfter(p, b.capturedAt, evaluatedAt)
      && NotAfter(p, b.events[i].occurredAt, evaluatedAt)
  {
    var v := p.parse(p.utf8(bytes).value).value;
    var b := Import(p, bytes, evaluatedAt).bundle;
    ImportedIff(p, v, b, evaluatedAt);
    assert NotAfter(p, b.events[i].occurredAt, b.capturedAt);
    NotAfterTransitive(Read(p.otherDates, b.events[i].occurredAt).value, Read(p.otherDates, b.capturedAt).value,
                       Read(p.otherDates, evaluatedAt).value);
  }
}
