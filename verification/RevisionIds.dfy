/**
 * Policy revisions as text: which revisions the store appends, which ids the database mints for
 * them, and which resource ids the worker recognises.
 */
module RevisionIds {
  import opened Prelude
  import opened Decimal

  const MAX_REVISION: nat := 999_999_999

  /** `[1-9][0-9]{0,8}`, and at most the maximum. */
  predicate RevisionNumber(t: string) {
    1 <= |t| <= 9 && Digits(t) && t[0] != '0' && Value(t) <= MAX_REVISION
  }

  /** `parsePolicyAppendRevision`: a revision that still has a successor. */
  predicate AppendRevision(t: string) { RevisionNumber(t) && Value(t) <= 999_999_998 }

  predicate LowerHex(c: char) { '0' <= c <= '9' || 'a' <= c <= 'f' }

  const POLICY_PREFIX := "openarc:policy:"

  /** The character class at each place of a canonical UUID. */
  predicate UuidChar(i: nat, c: char) {
    if i == 8 || i == 13 || i == 18 || i == 23 then c == '-'
    else if i == 14 then '1' <= c <= '8'
    else if i == 19 then c == '8' || c == '9' || c == 'a' || c == 'b'
    else LowerHex(c)
  }

  predicate PolicyId(t: string) {
    && |t| == 51 && t[..15] == POLICY_PREFIX
    && forall i :: 15 <= i < 51 ==> UuidChar(i - 15, t[i])
  }

  /** A text fits a template: `X` stands for a lower-case hex digit, `V` for 1 to 8, `N` for 8, 9, a or b. */
  predicate Fits(t: string, template: string) {
    |t| == |template| && forall i :: 0 <= i < |t| ==> FitsAt(t[i], template[i])
  }

  predicate FitsAt(c: char, place: char) {
    match place
    case 'X' => '0' <= c <= '9' || 'a' <= c <= 'f'
    case 'V' => '1' <= c <= '8'
    case 'N' => c in "89ab"
    case _ => c == place
  }

  /** A policy id is the fixed prefix and a lower-case UUID of a known version and variant. */
  lemma PolicyIdIff(t: string)
    ensures PolicyId(t) <==>
      |t| == 51 && Fits(t[..15], "openarc:policy:") && Fits(t[15..], "XXXXXXXX-XXXX-VXXX-NXXX-XXXXXXXXXXXX")
  {
    if |t| == 51 {
      var front, back := t[..15], t[15..];
      forall i | 0 <= i < 15 ensures FitsAt(front[i], "openarc:policy:"[i]) <==> t[i] == POLICY_PREFIX[i] { PrefixPlace(i, t[i]); }
      forall i | 0 <= i < 36 ensures FitsAt(back[i], "XXXXXXXX-XXXX-VXXX-NXXX-XXXXXXXXXXXX"[i]) <==> UuidChar(i, t[i + 15]) {
        UuidPlace(i, t[i + 15]);
      }
      assert front == POLICY_PREFIX <==> forall i :: 0 <= i < 15 ==> front[i] == POLICY_PREFIX[i];
      assert (forall i :: 15 <= i < 51 ==> UuidChar(i - 15, t[i])) <==> forall i :: 0 <= i < 36 ==> UuidChar(i, back[i]);
    }
  }

  lemma PrefixPlace(i: nat, c: char)
    requires i < 15
    ensures FitsAt(c, "openarc:policy:"[i]) <==> c == POLICY_PREFIX[i]
  {}

  lemma UuidPlace(i: nat, c: char)
    requires i < 36
    ensures FitsAt(c, "XXXXXXXX-XXXX-VXXX-NXXX-XXXXXXXXXXXX"[i]) <==> UuidChar(i, c)
  {}

  /** `policyRevisionResourceId`; `None` is the input error. */
  function ResourceId(policy: string, revision: string): Option<string> {
    if PolicyId(policy) && RevisionNumber(revision) then Some(policy + "@" + revision) else None
  }

  /** The worker's `[2-9][0-9]{0,8}|1[0-9]{1,8}`, to the absolute end. */
  predicate WorkerRevision(t: string) {
    || (1 <= |t| <= 9 && '2' <= t[0] <= '9' && Digits(t[1..]))
    || (2 <= |t| <= 9 && t[0] == '1' && Digits(t[1..]))
  }

  /** `isPolicyRevisionResource`. */
  predicate Recognised(value: string) {
    |value| <= 160 && |value| > 51 && PolicyId(value[..51]) && value[51] == '@' && WorkerRevision(value[52..])
  }

  lemma NineDigits()
    ensures Pow10(9) == MAX_REVISION + 1
  {
    assert Pow10(3) == 1000;
    assert Pow10(5) == 100_000;
    assert Pow10(7) == 10_000_000;
  }

  /** A revision text is the decimal text of a number from 1 to the maximum, and no other text is one. */
  lemma RevisionNumberIff(t: string)
    ensures RevisionNumber(t) <==> exists n: nat :: 1 <= n <= 999_999_999 && t == Print(n)
    ensures RevisionNumber(t) ==> Print(Value(t)) == t && Value(t) > 0
  {
    NineDigits();
    if RevisionNumber(t) {
      PrintValue(t);
    }
    if n: nat :| 1 <= n <= MAX_REVISION && t == Print(n) {
      PrintShape(n);
      PrintLength(n, 9);
    }
  }

  lemma SplitDigits(t: string)
    requires t != ""
    ensures Digits(t) <==> IsDigit(t[0]) && Digits(t[1..])
  {
    assert forall i :: 1 <= i < |t| ==> t[i] == t[1..][i - 1];
  }

  /** The text of one is one character. */
  lemma OneIffText(t: string)
    requires RevisionNumber(t)
    ensures Value(t) == 1 <==> t == "1"
  {
    RevisionNumberIff(t);
    assert Print(1) == "1";
    PrintShape(1);
  }

  /** The worker's pattern accepts exactly the decimal texts of 2 to 999999999. */
  lemma WorkerRevisionIff(t: string)
    ensures WorkerRevision(t) <==> RevisionNumber(t) && t != "1"
    ensures WorkerRevision(t) <==> exists n: nat :: 2 <= n <= 999_999_999 && t == Print(n)
  {
    RevisionNumberIff(t);
    if t != "" {
      SplitDigits(t);
      if WorkerRevision(t) {
        NineDigits();
        PrintValue(t);
        PrintLength(Value(t), 9);
      }
      if RevisionNumber(t) {
        assert t[0] == '1' && |t| == 1 ==> t == "1";
        OneIffText(t);
      }
    }
    if n: nat :| 2 <= n <= MAX_REVISION && t == Print(n) {
      PrintShape(n);
    }
  }

  lemma ResourceParts(policy: string, revision: string)
    requires PolicyId(policy)
    ensures var id := policy + "@" + revision; id[..51] == policy && id[51] == '@' && id[52..] == revision
  {}

  /** The worker recognises exactly the ids of a policy and a revision from 2 on. */
  lemma RecognisedIff(value: string)
    ensures Recognised(value) <==>
      exists policy, n: nat :: PolicyId(policy) && 2 <= n <= 999_999_999 && value == policy + "@" + Print(n)
  {
    if Recognised(value) {
      WorkerRevisionIff(value[52..]);
      var n: nat :| 2 <= n <= MAX_REVISION && value[52..] == Print(n);
      assert value == value[..51] + "@" + Print(n);
    }
    if policy, n: nat :| PolicyId(policy) && 2 <= n <= MAX_REVISION && value == policy + "@" + Print(n) {
      ResourceParts(policy, Print(n));
      WorkerRevisionIff(Print(n));
    }
  }

  /** An id names one policy and one revision. */
  lemma ResourceIdIsUnique(policy: string, revision: string, policy': string, revision': string)
    requires ResourceId(policy, revision).Some? && ResourceId(policy, revision) == ResourceId(policy', revision')
    ensures policy == policy' && revision == revision'
  {
    ResourceParts(policy, revision);
    ResourceParts(policy', revision');
  }

  /** The printing side also admits revision one, which the worker refuses: they agree on every other revision. */
  lemma PrintedIsRecognisedIff(policy: string, revision: string)
    requires ResourceId(policy, revision).Some?
    ensures Recognised(ResourceId(policy, revision).value) <==> revision != "1"
  {
    ResourceParts(policy, revision);
    WorkerRevisionIff(revision);
  }

  // ---- Appending revisions. ----

  /** `(BigInt(expected) + 1n).toString()`, the receipt's revision, and the database's next revision text. */
  function Next(revision: string): string
    requires Digits(revision)
  {
    Print(Value(revision) + 1)
  }

  /** Every revision the append parser lets through has a successor from 2 to the maximum, and its id is recognised. */
  lemma AppendIsRecognised(policy: string, expected: string)
    requires PolicyId(policy)
    ensures AppendRevision(expected) <==> RevisionNumber(expected) && expected != Print(MAX_REVISION)
    ensures AppendRevision(expected) ==>
      && RevisionNumber(Next(expected)) && Value(Next(expected)) == Value(expected) + 1 && Next(expected) != "1"
      && ResourceId(policy, Next(expected)).Some? && Recognised(ResourceId(policy, Next(expected)).value)
  {
    RevisionNumberIff(expected);
    PrintShape(MAX_REVISION);
    if AppendRevision(expected) {
      PrintShape(Value(expected) + 1);
      RevisionNumberIff(Next(expected));
      OneIffText(Next(expected));
      PrintedIsRecognisedIff(policy, Next(expected));
    }
  }

  /** A policy root: its current revision, and every revision of it ever stored, oldest first. */
  datatype Root = Root(policy: string, current: string, versions: seq<string>)

  /** What an append presents; `admitted` stands for the session, content, expiry and timestamp checks. */
  datatype Attempt = Attempt(expected: string, admitted: bool)

  datatype AppendResult = InputInvalid | Refused | Exhausted | Conflict | Appended(resourceId: string)

  /** The store's parser, then the database's checks in its order. */
  function Append(root: Root, a: Attempt): (Root, AppendResult)
    requires Digits(root.current)
  {
    if !AppendRevision(a.expected) then (root, InputInvalid)
    else if !a.admitted then (root, Refused)
    else if Value(root.current) >= MAX_REVISION then (root, Exhausted)
    else if root.current != a.expected then (root, Conflict)
    else
      var next := Next(root.current);
      (Root(root.policy, next, root.versions + [next]), Appended(root.policy + "@" + next))
  }

  /** The versions are 1, 2, 3, … up to the current one, each stored once. */
  predicate Consecutive(root: Root) {
    && 1 <= |root.versions| <= MAX_REVISION && root.current == Print(|root.versions|)
    && forall i :: 0 <= i < |root.versions| ==> root.versions[i] == Print(i + 1)
  }

  lemma VersionAdded(root: Root, next: string)
    requires Consecutive(root) && |root.versions| < MAX_REVISION && next == Print(|root.versions| + 1)
    ensures Consecutive(Root(root.policy, next, root.versions + [next]))
  {}

  lemma NextOfCurrent(root: Root)
    requires Consecutive(root)
    ensures Digits(root.current) && Value(root.current) == |root.versions| && Next(root.current) == Print(|root.versions| + 1)
  {
    PrintShape(|root.versions|);
  }

  lemma AppendKeepsConsecutive(root: Root, a: Attempt)
    requires Consecutive(root)
    ensures Digits(root.current) && Consecutive(Append(root, a).0) && Append(root, a).0.policy == root.policy
  {
    NextOfCurrent(root);
    if Append(root, a).1.Appended? {
      var next := Next(root.current);
      assert Append(root, a).0 == Root(root.policy, next, root.versions + [next]);
      VersionAdded(root, next);
    } else {
      assert Append(root, a).0 == root;
    }
  }

  /** An append succeeds exactly when it is admitted and expects the current revision, below the maximum; else its one refusal. */
  lemma AppendIff(root: Root, a: Attempt)
    requires Digits(root.current)
    ensures var parsed := 1 <= |a.expected| <= 9 && Digits(a.expected) && a.expected[0] != '0' && Value(a.expected) < 999_999_999;
      var r := Append(root, a).1;
      && (r.Appended? <==> parsed && a.admitted && Value(root.current) < 999_999_999 && a.expected == root.current)
      && (r == InputInvalid <==> !parsed)
      && (r == Refused <==> parsed && !a.admitted)
      && (r == Exhausted <==> parsed && a.admitted && Value(root.current) >= 999_999_999)
      && (r == Conflict <==> parsed && a.admitted && Value(root.current) < 999_999_999 && a.expected != root.current)
  {}

  /** An append stores the next version, or changes nothing. */
  lemma AppendAddsNext(root: Root, a: Attempt)
    requires Consecutive(root) && Digits(root.current)
    ensures Append(root, a).1.Appended? ==> Append(root, a).0.versions == root.versions + [Print(|root.versions| + 1)]
    ensures !Append(root, a).1.Appended? ==> Append(root, a).0 == root
  {
    NextOfCurrent(root);
  }

  /** The id the database mints is the one the receipt expects. */
  lemma AppendedId(root: Root, a: Attempt)
    requires Consecutive(root) && PolicyId(root.policy) && Digits(root.current) && Append(root, a).1.Appended?
    ensures Append(root, a).1.resourceId == root.policy + "@" + Print(|root.versions| + 1)
    ensures Some(Append(root, a).1.resourceId) == ResourceId(root.policy, Next(a.expected))
  {
    NextOfCurrent(root);
    AppendIsRecognised(root.policy, a.expected);
  }

  /** The worker recognises every id the database mints. */
  lemma AppendedIsRecognised(root: Root, a: Attempt)
    requires Consecutive(root) && PolicyId(root.policy) && Digits(root.current) && Append(root, a).1.Appended?
    ensures Recognised(Append(root, a).1.resourceId)
  {
    AppendedId(root, a);
    AppendIsRecognised(root.policy, a.expected);
  }

  /** The resource ids minted by a run of attempts, in order. */
  function Minted(root: Root, run: seq<Attempt>): seq<string>
    requires Consecutive(root) && PolicyId(root.policy)
    decreases |run|
  {
    if run == [] then []
    else
      AppendKeepsConsecutive(root, run[0]);
      var (after, result) := Append(root, run[0]);
      (if result.Appended? then [result.resourceId] else []) + Minted(after, run[1..])
  }

  /** Any run of attempts mints consecutive revisions, so no id twice, and the worker recognises every one. */
  lemma {:induction false} MintedAreConsecutive(root: Root, run: seq<Attempt>, k: nat)
    requires Consecutive(root) && PolicyId(root.policy) && k < |Minted(root, run)|
    ensures Minted(root, run)[k] == root.policy + "@" + Print(|root.versions| + 1 + k)
    ensures Recognised(Minted(root, run)[k])
    decreases |run|
  {
    AppendKeepsConsecutive(root, run[0]);
    AppendAddsNext(root, run[0]);
    var (after, result) := Append(root, run[0]);
    if !result.Appended? {
      MintedAreConsecutive(after, run[1..], k);
    } else if k > 0 {
      MintedAreConsecutive(after, run[1..], k - 1);
    } else {
      AppendedId(root, run[0]);
      AppendedIsRecognised(root, run[0]);
    }
  }

  lemma MintedAreDistinct(root: Root, run: seq<Attempt>, j: nat, k: nat)
    requires Consecutive(root) && PolicyId(root.policy) && j < k < |Minted(root, run)|
    ensures Minted(root, run)[j] != Minted(root, run)[k]
  {
    MintedAreConsecutive(root, run, j);
    MintedAreConsecutive(root, run, k);
    ResourceParts(root.policy, Print(|root.versions| + 1 + j));
    ResourceParts(root.policy, Print(|root.versions| + 1 + k));
    PrintShape(|root.versions| + 1 + j);
    PrintShape(|root.versions| + 1 + k);
  }
}
