/** Small shared vocabulary: optional values and the lexicographic order of identifiers. */
module Prelude {

  datatype Option<+T> = None | Some(value: T)

  function Min(a: int, b: int): int { if a <= b then a else b }

  function Elements<T(==)>(s: seq<T>): set<T> { set x | x in s }

  /** A strict total order on `T`, given as a function value. */
  ghost predicate StrictTotal<T(!new)>(less: (T, T) -> bool) {
    && (forall a :: !less(a, a))
    && (forall a, b, c :: less(a, b) && less(b, c) ==> less(a, c))
    && (forall a, b :: a != b ==> less(a, b) || less(b, a))
  }
}

/** The code-unit order of strings: JavaScript's `<` and the default `Array.prototype.sort`. */
module Lex {
  import opened Prelude

  predicate Less(a: string, b: string) {
    b != [] && (a == [] || a[0] < b[0] || (a[0] == b[0] && Less(a[1..], b[1..])))
  }

  lemma {:induction false} Irreflexive(a: string)
    ensures !Less(a, a)
  {
    if a != [] { Irreflexive(a[1..]); }
  }

  lemma {:induction false} Transitive(a: string, b: string, c: string)
    requires Less(a, b) && Less(b, c)
    ensures Less(a, c)
  {
    if a != [] && a[0] == b[0] && b[0] == c[0] { Transitive(a[1..], b[1..], c[1..]); }
  }

  lemma {:induction false} Connected(a: string, b: string)
    ensures a == b || Less(a, b) || Less(b, a)
  {
    if a != [] && b != [] && a[0] == b[0] {
      Connected(a[1..], b[1..]);
      assert a == [a[0]] + a[1..] && b == [b[0]] + b[1..];
    }
  }

  lemma IsStrictTotal()
    ensures StrictTotal(Less)
  {
    forall a ensures !Less(a, a) { Irreflexive(a); }
    forall a, b, c | Less(a, b) && Less(b, c) ensures Less(a, c) { Transitive(a, b, c); }
    forall a, b | a != b ensures Less(a, b) || Less(b, a) { Connected(a, b); }
  }

  ghost predicate Ascending(s: seq<string>) {
    forall i, j :: 0 <= i < j < |s| ==> Less(s[i], s[j])
  }

  /** An ascending list is determined by its elements: sorting has one result. */
  lemma {:induction false} AscendingIsUnique(s: seq<string>, t: seq<string>)
    requires Ascending(s) && Ascending(t) && Elements(s) == Elements(t)
    ensures s == t
  {
    IsStrictTotal();
    assert t != [] ==> t[0] in Elements(t);
    if s != [] {
      assert s[0] in Elements(t) && (t != [] ==> t[0] in Elements(s));
      assert s == [s[0]] + s[1..] && t == [t[0]] + t[1..];
      assert s[0] == t[0] && s[0] !in s[1..] && t[0] !in t[1..];
      assert Elements(s[1..]) == Elements(s) - {s[0]} && Elements(t[1..]) == Elements(t) - {t[0]};
      AscendingIsUnique(s[1..], t[1..]);
    }
  }

  /** A list is ascending when each element is below the next. */
  lemma {:induction false} AscendingFromNeighbours(s: seq<string>)
    requires forall i :: 0 <= i < |s| - 1 ==> Less(s[i], s[i + 1])
    ensures Ascending(s)
  {
    if s != [] {
      var front := s[..|s| - 1];
      AscendingFromNeighbours(front);
      forall i, j | 0 <= i < j < |s| ensures Less(s[i], s[j]) {
        if j == |s| - 1 && i < j - 1 {
          assert Less(front[i], front[j - 1]);
          Transitive(s[i], s[j - 1], s[j]);
        } else if j < |s| - 1 {
          assert Less(front[i], front[j]);
        }
      }
    }
  }
}
