/** The texts that are hashed for policies, requests, payment bindings and endpoint reviews. */
module DigestPreimages {
  import opened Prelude
  import opened Utf16
  import opened Json
  import Lex

  function Nullable(t: Option<Text>): Value { match t case Some(u) => Str(u) case None => Null }

  function Texts(ids: seq<Text>): seq<Value> { seq(|ids|, i requires 0 <= i < |ids| => Str(ids[i])) }

  lemma TextsAreDetermined(a: seq<Text>, b: seq<Text>)
    requires Texts(a) == Texts(b)
    ensures a == b
  {
    assert |a| == |Texts(a)| == |b|;
    forall i | 0 <= i < |a| ensures a[i] == b[i] { assert Texts(a)[i] == Texts(b)[i]; }
  }

  // ---- Policy content. ----

  datatype Approval = Approval(mode: Text, threshold: Option<Text>, separateApprover: bool)

  datatype PolicyContent = PolicyContent(
    organizationId: Text, subjectAgentId: Text, networkId: Text, asset: Text, representation: Text, decimals: nat,
    perActionLimit: Option<Text>, rollingLimit: Option<Text>, rollingWindowSeconds: Option<Text>, feeLimit: Text,
    allowedProviderIds: seq<Text>, allowedListingIds: seq<Text>, approval: Approval, expiresAt: Option<Text>)

  function IdentityFields(c: PolicyContent): seq<Value> {
    [Str(c.organizationId), Str(c.subjectAgentId), Str(c.networkId), Str(c.asset), Str(c.representation), Num(c.decimals)]
  }

  function LimitFields(c: PolicyContent): seq<Value> {
    [Nullable(c.perActionLimit), Nullable(c.rollingLimit), Nullable(c.rollingWindowSeconds), Str(c.feeLimit)]
  }

  function RuleFields(c: PolicyContent): seq<Value> {
    [Arr(Texts(c.allowedProviderIds)), Arr(Texts(c.allowedListingIds)),
     Str(c.approval.mode), Nullable(c.approval.threshold), Bool(c.approval.separateApprover), Nullable(c.expiresAt)]
  }

  /** `canonicalPolicyContent`, behind its domain. */
  function ContentArray(c: PolicyContent): Value {
    Arr([Str(Ascii("openarc.control.policy.content.v1"))] + (IdentityFields(c) + (LimitFields(c) + RuleFields(c))))
  }

  /** The seventeen positions, in the order they are hashed. */
  lemma ContentPositions(c: PolicyContent)
    ensures ContentArray(c) == Arr([
      Str(Ascii("openarc.control.policy.content.v1")),
      Str(c.organizationId), Str(c.subjectAgentId), Str(c.networkId), Str(c.asset), Str(c.representation), Num(c.decimals),
      Nullable(c.perActionLimit), Nullable(c.rollingLimit), Nullable(c.rollingWindowSeconds), Str(c.feeLimit),
      Arr(Texts(c.allowedProviderIds)), Arr(Texts(c.allowedListingIds)),
      Str(c.approval.mode), Nullable(c.approval.threshold), Bool(c.approval.separateApprover), Nullable(c.expiresAt)])
  {
    var parts := [Str(Ascii("openarc.control.policy.content.v1"))] + (IdentityFields(c) + (LimitFields(c) + RuleFields(c)));
    assert |parts| == 17;
  }

  lemma SameParts<T>(a: seq<T>, x: seq<T>, b: seq<T>, y: seq<T>)
    requires |a| == |b| && a + x == b + y
    ensures a == b && x == y
  {
    assert (a + x)[..|a|] == a && (b + y)[..|b|] == b;
    assert (a + x)[|a|..] == x && (b + y)[|b|..] == y;
  }

  lemma IdentityIsDetermined(c: PolicyContent, d: PolicyContent)
    requires IdentityFields(c) == IdentityFields(d)
    ensures c.organizationId == d.organizationId && c.subjectAgentId == d.subjectAgentId && c.networkId == d.networkId
    ensures c.asset == d.asset && c.representation == d.representation && c.decimals == d.decimals
  {
    var a, b := IdentityFields(c), IdentityFields(d);
    assert a[0] == b[0] && a[1] == b[1] && a[2] == b[2] && a[3] == b[3] && a[4] == b[4] && a[5] == b[5];
  }

  lemma LimitsAreDetermined(c: PolicyContent, d: PolicyContent)
    requires LimitFields(c) == LimitFields(d)
    ensures c.perActionLimit == d.perActionLimit && c.rollingLimit == d.rollingLimit
    ensures c.rollingWindowSeconds == d.rollingWindowSeconds && c.feeLimit == d.feeLimit
  {
    var a, b := LimitFields(c), LimitFields(d);
    assert a[0] == b[0] && a[1] == b[1] && a[2] == b[2] && a[3] == b[3];
  }

  lemma RulesAreDetermined(c: PolicyContent, d: PolicyContent)
    requires RuleFields(c) == RuleFields(d)
    ensures c.allowedProviderIds == d.allowedProviderIds && c.allowedListingIds == d.allowedListingIds
    ensures c.approval == d.approval && c.expiresAt == d.expiresAt
  {
    var a, b := RuleFields(c), RuleFields(d);
    assert a[0] == b[0] && a[1] == b[1] && a[2] == b[2] && a[3] == b[3] && a[4] == b[4] && a[5] == b[5];
    TextsAreDetermined(c.allowedProviderIds, d.allowedProviderIds);
    TextsAreDetermined(c.allowedListingIds, d.allowedListingIds);
  }

  /** Two policy contents hash the same bytes only if every field, list order included, is the same. */
  lemma ContentIsDetermined(c: PolicyContent, d: PolicyContent)
    requires Utf8(Stringify(ContentArray(c))) == Utf8(Stringify(ContentArray(d)))
    ensures c == d
  {
    BytesDetermineValue(ContentArray(c), ContentArray(d));
    var domain := [Str(Ascii("openarc.control.policy.content.v1"))];
    SameParts(domain, IdentityFields(c) + (LimitFields(c) + RuleFields(c)), domain, IdentityFields(d) + (LimitFields(d) + RuleFields(d)));
    SameParts(IdentityFields(c), LimitFields(c) + RuleFields(c), IdentityFields(d), LimitFields(d) + RuleFields(d));
    SameParts(LimitFields(c), RuleFields(c), LimitFields(d), RuleFields(d));
    IdentityIsDetermined(c, d);
    LimitsAreDetermined(c, d);
    RulesAreDetermined(c, d);
  }

  // ---- Requests. ----

  /** The array every replay digest is computed over: a versioned domain, the network, and the bound fields. */
  function Envelope(domain: Text, network: Text, fields: seq<Value>): Value { Arr([Str(domain), Str(network)] + fields) }

  /** The bytes of a request determine its domain, its network and every field. */
  lemma EnvelopeIsDetermined(d: Text, n: Text, fs: seq<Value>, d': Text, n': Text, fs': seq<Value>)
    requires Utf8(Stringify(Envelope(d, n, fs))) == Utf8(Stringify(Envelope(d', n', fs')))
    ensures d == d' && n == n' && fs == fs'
  {
    BytesDetermineValue(Envelope(d, n, fs), Envelope(d', n', fs'));
    var a, b := Envelope(d, n, fs).items, Envelope(d', n', fs').items;
    assert a[0] == Str(d) && b[0] == Str(d') && a[1] == Str(n) && b[1] == Str(n');
    assert a[2..] == fs && b[2..] == fs';
  }

  datatype PolicyOperation = Create | CreateRevision | Pause | Resume | Revoke

  function PolicyDomain(op: PolicyOperation): string {
    match op
    case Create => "control.policy.create.v1"
    case CreateRevision => "control.policy.revision.create.v1"
    case Pause => "control.policy.pause.v1"
    case Resume => "control.policy.resume.v1"
    case Revoke => "control.policy.revoke.v1"
  }

  datatype Context = Context(
    organizationId: Text, actorAccountId: Text, actorRole: Text, sessionContextDigest: Text, mutationId: Text)

  /** What an operation binds beyond its context: the root it acts on, the expected revision and time, the content digest. */
  datatype PolicyRequest =
    | CreateRequest(context: Context, contentDigest: Text)
    | RevisionRequest(context: Context, policyId: Text, expectedRevision: Text, expectedUpdatedAt: Text, contentDigest: Text)
    | TransitionRequest(op: PolicyOperation, context: Context, policyId: Text, expectedRevision: Text, expectedUpdatedAt: Text)

  function OperationOf(r: PolicyRequest): PolicyOperation {
    match r
    case CreateRequest(_, _) => Create
    case RevisionRequest(_, _, _, _, _) => CreateRevision
    case TransitionRequest(op, _, _, _, _) => op
  }

  function Target(r: PolicyRequest): seq<Value> {
    match r
    case CreateRequest(_, content) => [Str(content)]
    case RevisionRequest(_, policy, revision, updatedAt, content) => [Str(policy), Str(revision), Str(updatedAt), Str(content)]
    case TransitionRequest(_, _, policy, revision, updatedAt) => [Str(policy), Str(revision), Str(updatedAt)]
  }

  function ContextFields(c: Context): seq<Value> {
    [Str(c.organizationId), Str(c.actorAccountId), Str(c.actorRole), Str(c.sessionContextDigest), Str(c.mutationId)]
  }

  /** `digestPolicyRequest`, before hashing. */
  function RequestArray(r: PolicyRequest): Value {
    Envelope(Ascii(PolicyDomain(OperationOf(r))), Ascii("eip155:5042002"), ContextFields(r.context) + Target(r))
  }

  /** What a creation hashes, position by position. */
  lemma CreatePositions(c: Context, content: Text)
    ensures RequestArray(CreateRequest(c, content)) == Arr([
      Str(Ascii("control.policy.create.v1")), Str(Ascii("eip155:5042002")), Str(c.organizationId), Str(c.actorAccountId),
      Str(c.actorRole), Str(c.sessionContextDigest), Str(c.mutationId), Str(content)])
  {}

  /** A new revision also binds the root, the expected revision and time, then the content. */
  lemma RevisionPositions(c: Context, policy: Text, revision: Text, updatedAt: Text, content: Text)
    ensures RequestArray(RevisionRequest(c, policy, revision, updatedAt, content)) == Arr([
      Str(Ascii("control.policy.revision.create.v1")), Str(Ascii("eip155:5042002")), Str(c.organizationId), Str(c.actorAccountId),
      Str(c.actorRole), Str(c.sessionContextDigest), Str(c.mutationId), Str(policy), Str(revision), Str(updatedAt), Str(content)])
  {}

  /** A pause, resume or revocation binds the same without content, under a domain of its own. */
  lemma TransitionPositions(op: PolicyOperation, domain: string, c: Context, policy: Text, revision: Text, updatedAt: Text)
    requires (op, domain) == (Pause, "control.policy.pause.v1") || (op, domain) == (Resume, "control.policy.resume.v1")
      || (op, domain) == (Revoke, "control.policy.revoke.v1")
    ensures RequestArray(TransitionRequest(op, c, policy, revision, updatedAt)) == Arr([
        Str(Ascii(domain)), Str(Ascii("eip155:5042002")), Str(c.organizationId), Str(c.actorAccountId),
        Str(c.actorRole), Str(c.sessionContextDigest), Str(c.mutationId), Str(policy), Str(revision), Str(updatedAt)])
  {}

  /** One position tells the five domains apart, with a second one for the three that share it. */
  lemma DomainsDiffer(a: PolicyOperation, b: PolicyOperation)
    requires Ascii(PolicyDomain(a)) == Ascii(PolicyDomain(b))
    ensures a == b
  {
    var s, t := PolicyDomain(a), PolicyDomain(b);
    assert |s| == |t|;
    assert Ascii(s)[15] == Ascii(t)[15] && Ascii(s)[17] == Ascii(t)[17];
  }

  /** Two policy requests hash the same bytes only if they are the same operation with every field the same. */
  lemma RequestIsDetermined(r: PolicyRequest, q: PolicyRequest)
    requires Utf8(Stringify(RequestArray(r))) == Utf8(Stringify(RequestArray(q)))
    ensures r == q
  {
    var fs, gs := ContextFields(r.context) + Target(r), ContextFields(q.context) + Target(q);
    EnvelopeIsDetermined(Ascii(PolicyDomain(OperationOf(r))), Ascii("eip155:5042002"), fs,
                         Ascii(PolicyDomain(OperationOf(q))), Ascii("eip155:5042002"), gs);
    DomainsDiffer(OperationOf(r), OperationOf(q));
    assert fs[0] == gs[0] && fs[1] == gs[1] && fs[2] == gs[2] && fs[3] == gs[3] && fs[4] == gs[4];
    assert Target(r) == fs[5..] == gs[5..] == Target(q);
    assert Target(r)[0] == Target(q)[0];
    if !r.CreateRequest? { assert Target(r)[1] == Target(q)[1] && Target(r)[2] == Target(q)[2]; }
    if r.RevisionRequest? { assert Target(r)[3] == Target(q)[3]; }
  }

  // ---- Payment bindings. ----

  const BINDING_KEYS: seq<string> := [
    "actionId", "asset", "attemptId", "from", "grantId", "grantRequirementDigest",
    "laneRequirementDigest", "network", "nonce", "role", "schemaVersion", "to",
    "validAfter", "validBefore", "value", "verifyingContract"]

  /** A record of texts, its members in the order of the given keys. */
  function RecordObject(keys: seq<string>, record: map<string, Text>): Value
    requires forall k :: k in keys ==> k in record
  {
    Obj(seq(|keys|, i requires 0 <= i < |keys| => Member(Ascii(keys[i]), Str(record[keys[i]]))))
  }

  /** The text behind a binding digest determines the value of every key. */
  lemma BindingIsDetermined(r: map<string, Text>, q: map<string, Text>)
    requires r.Keys == q.Keys == Elements(BINDING_KEYS)
    requires Utf8(Stringify(RecordObject(BINDING_KEYS, r))) == Utf8(Stringify(RecordObject(BINDING_KEYS, q)))
    ensures r == q
  {
    BytesDetermineValue(RecordObject(BINDING_KEYS, r), RecordObject(BINDING_KEYS, q));
    var a, b := RecordObject(BINDING_KEYS, r).members, RecordObject(BINDING_KEYS, q).members;
    forall k | k in r.Keys ensures r[k] == q[k] {
      var i :| 0 <= i < |BINDING_KEYS| && BINDING_KEYS[i] == k;
      assert a[i] == b[i];
    }
  }

  /** Two keys are ordered by the first place where they differ. */
  lemma {:induction false} FirstDifference(a: string, b: string, k: nat)
    requires k < |a| && k < |b| && a[..k] == b[..k] && a[k] < b[k]
    ensures Lex.Less(a, b)
    decreases k
  {
    if k > 0 {
      assert a[..k][0] == b[..k][0] && a[1..][..k - 1] == a[..k][1..] && b[1..][..k - 1] == b[..k][1..];
      FirstDifference(a[1..], b[1..], k - 1);
    }
  }

  lemma KeysAscend0()
    ensures Lex.Less(BINDING_KEYS[0], BINDING_KEYS[1])
    ensures Lex.Less(BINDING_KEYS[1], BINDING_KEYS[2])
    ensures Lex.Less(BINDING_KEYS[2], BINDING_KEYS[3])
  {
    FirstDifference("actionId", "asset", 1);
    FirstDifference("asset", "attemptId", 1);
    FirstDifference("attemptId", "from", 0);
  }

  lemma KeysAscend3()
    ensures Lex.Less(BINDING_KEYS[3], BINDING_KEYS[4])
    ensures Lex.Less(BINDING_KEYS[4], BINDING_KEYS[5])
    ensures Lex.Less(BINDING_KEYS[5], BINDING_KEYS[6])
  {
    FirstDifference("from", "grantId", 0);
    FirstDifference("grantId", "grantRequirementDigest", 5);
    FirstDifference("grantRequirementDigest", "laneRequirementDigest", 0);
  }

  lemma KeysAscend6()
    ensures Lex.Less(BINDING_KEYS[6], BINDING_KEYS[7])
    ensures Lex.Less(BINDING_KEYS[7], BINDING_KEYS[8])
    ensures Lex.Less(BINDING_KEYS[8], BINDING_KEYS[9])
  {
    FirstDifference("laneRequirementDigest", "network", 0);
    FirstDifference("network", "nonce", 1);
    FirstDifference("nonce", "role", 0);
  }

  lemma KeysAscend9()
    ensures Lex.Less(BINDING_KEYS[9], BINDING_KEYS[10])
    ensures Lex.Less(BINDING_KEYS[10], BINDING_KEYS[11])
    ensures Lex.Less(BINDING_KEYS[11], BINDING_KEYS[12])
  {
    FirstDifference("role", "schemaVersion", 0);
    FirstDifference("schemaVersion", "to", 0);
    FirstDifference("to", "validAfter", 0);
  }

  lemma KeysAscend12()
    ensures Lex.Less(BINDING_KEYS[12], BINDING_KEYS[13])
    ensures Lex.Less(BINDING_KEYS[13], BINDING_KEYS[14])
    ensures Lex.Less(BINDING_KEYS[14], BINDING_KEYS[15])
  {
    FirstDifference("validAfter", "validBefore", 5);
    FirstDifference("validBefore", "value", 3);
    FirstDifference("value", "verifyingContract", 1);
  }

  lemma BindingKeysAscend()
    ensures Lex.Ascending(BINDING_KEYS)
  {
    KeysAscend0();
    KeysAscend3();
    KeysAscend6();
    KeysAscend9();
    KeysAscend12();
    Lex.AscendingFromNeighbours(BINDING_KEYS);
  }

  /** However the record was built, sorting its keys gives this order, so equal records hash equal texts. */
  lemma SortedKeysAreBindingKeys(sorted: seq<string>)
    requires Lex.Ascending(sorted) && Elements(sorted) == Elements(BINDING_KEYS)
    ensures sorted == BINDING_KEYS
  {
    BindingKeysAscend();
    Lex.AscendingIsUnique(sorted, BINDING_KEYS);
  }

  // ---- Endpoint reviews. ----

  const LF: int := 10
  const CR: int := 13

  /** `requireNoLineFeed`, and the length check of origin and path. */
  predicate Line(t: Text) { LF !in t && CR !in t }

  datatype Endpoint = Endpoint(listingId: Text, version: Text, origin: Text, path: Text)

  predicate Reviewable(e: Endpoint) {
    Line(e.listingId) && Line(e.version) && Line(e.origin) && Line(e.path) && e.origin != [] && e.path != []
  }

  /** The line-feed-joined text of `reviewedEndpointDigest`. */
  function EndpointText(e: Endpoint): Text {
    Ascii("openarc.market.endpoint-review.v1") + ([LF] + (e.listingId + ([LF] + (e.version + ([LF] + (e.origin + ([LF] + e.path)))))))
  }

  /** The first line of a joined text ends at the first line feed. */
  lemma {:induction false} SplitAtLineFeed(a: seq<int>, x: seq<int>, b: seq<int>, y: seq<int>)
    requires LF !in a && LF !in b && a + ([LF] + x) == b + ([LF] + y)
    ensures a == b && x == y
  {
    var s, t := a + ([LF] + x), b + ([LF] + y);
    assert s[|a|] == LF && t[|b|] == LF;
    assert forall i :: 0 <= i < |a| ==> s[i] != LF;
    assert forall i :: 0 <= i < |b| ==> t[i] != LF;
    SameParts(a, [LF] + x, b, [LF] + y);
    SameParts([LF], x, [LF], y);
  }

  lemma {:induction false} NoNewLineFeed(t: Text)
    requires LF !in t
    ensures LF !in Scalars(t)
  {
    if t != [] {
      if PairAhead(t) {
        assert forall u :: u in t[2..] ==> u in t;
        NoNewLineFeed(t[2..]);
      } else {
        assert t[0] in t && forall u :: u in t[1..] ==> u in t;
        NoNewLineFeed(t[1..]);
      }
    }
  }

  lemma LineScalars(a: Text, rest: Text)
    ensures Scalars(a + ([LF] + rest)) == Scalars(a) + ([LF] + Scalars(rest))
  {
    ScalarsConcat(a, [LF] + rest);
    assert ([LF] + rest)[1..] == rest;
  }

  function EndpointScalars(e: Endpoint): seq<int> {
    Scalars(Ascii("openarc.market.endpoint-review.v1")) + ([LF] + (Scalars(e.listingId) + ([LF] + (Scalars(e.version)
      + ([LF] + (Scalars(e.origin) + ([LF] + Scalars(e.path))))))))
  }

  lemma EndpointScalarsOf(e: Endpoint)
    ensures Scalars(EndpointText(e)) == EndpointScalars(e)
  {
    var l4 := e.path;
    var l3 := e.origin + ([LF] + l4);
    var l2 := e.version + ([LF] + l3);
    var l1 := e.listingId + ([LF] + l2);
    LineScalars(e.origin, l4);
    LineScalars(e.version, l3);
    LineScalars(e.listingId, l2);
    LineScalars(Ascii("openarc.market.endpoint-review.v1"), l1);
  }

  /** The joined text determines every field. */
  lemma EndpointTextIsDetermined(e: Endpoint, f: Endpoint)
    requires Reviewable(e) && Reviewable(f) && EndpointText(e) == EndpointText(f)
    ensures e == f
  {
    var prefix := Ascii("openarc.market.endpoint-review.v1");
    SameParts(prefix, [LF] + (e.listingId + ([LF] + (e.version + ([LF] + (e.origin + ([LF] + e.path)))))),
              prefix, [LF] + (f.listingId + ([LF] + (f.version + ([LF] + (f.origin + ([LF] + f.path)))))));
    SameParts([LF], e.listingId + ([LF] + (e.version + ([LF] + (e.origin + ([LF] + e.path))))),
              [LF], f.listingId + ([LF] + (f.version + ([LF] + (f.origin + ([LF] + f.path))))));
    SplitAtLineFeed(e.listingId, e.version + ([LF] + (e.origin + ([LF] + e.path))), f.listingId, f.version + ([LF] + (f.origin + ([LF] + f.path))));
    SplitAtLineFeed(e.version, e.origin + ([LF] + e.path), f.version, f.origin + ([LF] + f.path));
    SplitAtLineFeed(e.origin, e.path, f.origin, f.path);
  }

  /** Two endpoints hash the same bytes exactly when their fields agree up to lone surrogates. */
  lemma EndpointBytesIff(e: Endpoint, f: Endpoint)
    requires Reviewable(e) && Reviewable(f)
    ensures Utf8(EndpointText(e)) == Utf8(EndpointText(f)) <==>
      && Scalars(e.listingId) == Scalars(f.listingId) && Scalars(e.version) == Scalars(f.version)
      && Scalars(e.origin) == Scalars(f.origin) && Scalars(e.path) == Scalars(f.path)
  {
    SameBytesIff(EndpointText(e), EndpointText(f));
    EndpointScalarsOf(e);
    EndpointScalarsOf(f);
    if EndpointScalars(e) == EndpointScalars(f) { ScalarLinesAgree(e, f); }
  }

  lemma ScalarLinesAgree(e: Endpoint, f: Endpoint)
    requires Reviewable(e) && Reviewable(f) && EndpointScalars(e) == EndpointScalars(f)
    ensures Scalars(e.listingId) == Scalars(f.listingId) && Scalars(e.version) == Scalars(f.version)
    ensures Scalars(e.origin) == Scalars(f.origin) && Scalars(e.path) == Scalars(f.path)
  {
    NoNewLineFeed(e.listingId);
    NoNewLineFeed(f.listingId);
    NoNewLineFeed(e.version);
    NoNewLineFeed(f.version);
    NoNewLineFeed(e.origin);
    NoNewLineFeed(f.origin);
    var prefix: seq<int> := Scalars(Ascii("openarc.market.endpoint-review.v1"));
    var l, v, o, p: seq<int> := Scalars(e.listingId), Scalars(e.version), Scalars(e.origin), Scalars(e.path);
    var l', v', o', p': seq<int> := Scalars(f.listingId), Scalars(f.version), Scalars(f.origin), Scalars(f.path);
    SameParts(prefix, [LF] + (l + ([LF] + (v + ([LF] + (o + ([LF] + p)))))), prefix, [LF] + (l' + ([LF] + (v' + ([LF] + (o' + ([LF] + p')))))));
    SameParts([LF], l + ([LF] + (v + ([LF] + (o + ([LF] + p))))), [LF], l' + ([LF] + (v' + ([LF] + (o' + ([LF] + p'))))));
    SplitAtLineFeed(l, v + ([LF] + (o + ([LF] + p))), l', v' + ([LF] + (o' + ([LF] + p'))));
    SplitAtLineFeed(v, o + ([LF] + p), v', o' + ([LF] + p'));
    SplitAtLineFeed(o, p, o', p');
  }

  /** On well-formed fields the bytes determine the endpoint. */
  lemma WellFormedEndpointIsDetermined(e: Endpoint, f: Endpoint)
    requires Reviewable(e) && Reviewable(f) && Utf8(EndpointText(e)) == Utf8(EndpointText(f))
    requires WellFormed(e.listingId) && WellFormed(e.version) && WellFormed(e.origin) && WellFormed(e.path)
    requires WellFormed(f.listingId) && WellFormed(f.version) && WellFormed(f.origin) && WellFormed(f.path)
    ensures e == f
  {
    EndpointBytesIff(e, f);
    ScalarsRoundTrip(e.listingId);
    ScalarsRoundTrip(f.listingId);
    ScalarsRoundTrip(e.version);
    ScalarsRoundTrip(f.version);
    ScalarsRoundTrip(e.origin);
    ScalarsRoundTrip(f.origin);
    ScalarsRoundTrip(e.path);
    ScalarsRoundTrip(f.path);
  }

  /** Two accepted endpoints that differ in a lone surrogate hash the same bytes. */
  lemma LoneSurrogatesCollide(e: Endpoint) returns (f: Endpoint, g: Endpoint)
    requires Reviewable(e)
    ensures Reviewable(f) && Reviewable(g) && f != g && Utf8(EndpointText(f)) == Utf8(EndpointText(g))
  {
    f, g := e.(origin := [0xD800]), e.(origin := [0xD801]);
    assert Scalars([0xD800]) == [0xFFFD] + Scalars([0xD800][1..]);
    assert Scalars([0xD801]) == [0xFFFD] + Scalars([0xD801][1..]);
    assert f.origin[0] != g.origin[0];
    EndpointBytesIff(f, g);
  }
}
