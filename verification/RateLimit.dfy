/**
 * Fixed-window rate limiting with purging. Instants are microseconds since the epoch; a row counts
 * the attempts of one key in one aligned window, and the purge deletes rows a day old.
 */
module RateLimit {
  import opened Prelude
  import opened AuthTables

  const MAX_RATE_LIMIT := 1_000_000
  const MAX_WINDOW_SECONDS := 86_400
  const MAX_PURGE_LIMIT := 10_000
  const RATE_RETENTION_SECONDS := 86_400
  const MAX_INT4: nat := 0x7FFF_FFFF

  datatype Slot = Slot(key: Hash, start: int)
  type Count = n: nat | n <= MAX_INT4
  type Rows = map<Slot, Count>

  predicate ValidCall(limit: int, window: int) {
    1 <= limit <= MAX_RATE_LIMIT && 1 <= window <= MAX_WINDOW_SECONDS
  }

  function Seconds(at: nat): nat { at / 1_000_000 }

  /** `floor(epoch / window) * window`. */
  function SlotOf(key: Hash, window: int, at: nat): Slot
    requires window >= 1
  {
    Slot(key, at / (1_000_000 * window) * window)
  }

  function Attempts(rows: Rows, slot: Slot): Count { if slot in rows then rows[slot] else 0 }

  /** Rows the purge may delete at an instant. */
  predicate Stale(slot: Slot, at: nat) { slot.start < Seconds(at) - RATE_RETENTION_SECONDS }

  function StaleRows(rows: Rows, at: nat): set<Slot> { set s | s in rows && Stale(s, at) }

  /** `gone` is what `ORDER BY window_start LIMIT limit` selects among the stale rows, in some order of ties. */
  ghost predicate Oldest(rows: Rows, limit: nat, at: nat, gone: set<Slot>) {
    && gone <= StaleRows(rows, at) && |gone| == Min(limit, |StaleRows(rows, at)|)
    && forall s, t :: s in gone && t in StaleRows(rows, at) - gone ==> s.start <= t.start
  }

  /** The table, as the two statements change it in place. */
  class RateLimits {
    var rows: Rows

    constructor ()
      ensures rows == map[]
    {
      rows := map[];
    }

    /** The upsert: a new row starts at one, an existing row grows by one until its column overflows. */
    method Consume(key: Hash, limit: int, window: int, at: nat) returns (allowed: Result<bool>)
      modifies this
      ensures allowed == Answer(old(rows), Call(key, limit, window, at))
      ensures rows == After(old(rows), Call(key, limit, window, at))
    {
      if !(1 <= limit <= MAX_RATE_LIMIT) { return Err(InputInvalid); }
      if !(1 <= window <= MAX_WINDOW_SECONDS) { return Err(InputInvalid); }
      var slot := SlotOf(key, window, at);
      if slot in rows {
        if rows[slot] == MAX_INT4 { return Err(InputInvalid); }
        rows := rows[slot := rows[slot] + 1];
      } else {
        rows := rows[slot := 1];
      }
      return Ok(rows[slot] <= limit);
    }

    /** The bounded purge: delete an oldest stale row until none is left or the limit is reached. */
    method Purge(limit: int, at: nat) returns (deleted: Result<nat>, ghost gone: set<Slot>)
      modifies this
      ensures deleted.Err? <==> !(1 <= limit <= 10_000)
      ensures deleted.Err? ==> rows == old(rows) && gone == {}
      ensures forall s :: s in gone ==> s.start < at / 1_000_000 - 86_400
      ensures deleted.Ok? && deleted.value < limit ==> forall s :: s in rows ==> s.start >= at / 1_000_000 - 86_400
      ensures deleted.Ok? ==>
        Oldest(old(rows), limit, at, gone) && deleted.value == |gone| && rows == old(rows) - gone
    {
      gone := {};
      if !(1 <= limit <= MAX_PURGE_LIMIT) { return Err(InputInvalid), {}; }
      var stale := StaleRows(rows, at);
      var n := 0;
      while n < limit && stale != {}
        invariant 0 <= n <= limit && n == |gone| && gone !! stale
        invariant gone + stale == StaleRows(old(rows), at)
        invariant rows == old(rows) - gone
        invariant forall s, t :: s in gone && t in stale ==> s.start <= t.start
        decreases stale
      {
        var s := OldestOf(stale);
        rows := rows - {s};
        gone := gone + {s};
        stale := stale - {s};
        n := n + 1;
      }
      assert StaleRows(old(rows), at) - gone == stale;
      assert |StaleRows(old(rows), at)| == |gone| + |stale|;
      forall s | n < limit && s in rows ensures !Stale(s, at) {
        assert s in StaleRows(old(rows), at) <==> s in gone + stale;
      }
      return Ok(n), gone;
    }

    static method OldestOf(slots: set<Slot>) returns (s: Slot)
      requires slots != {}
      ensures s in slots && forall t :: t in slots ==> s.start <= t.start
    {
      s :| s in slots;
      var rest := slots - {s};
      while rest != {}
        invariant rest <= slots && s in slots && forall t :: t in slots - rest ==> s.start <= t.start
        decreases rest
      {
        var t :| t in rest;
        if t.start < s.start { s := t; }
        rest := rest - {t};
      }
    }
  }

  // ---- Runs of calls and purges. ----

  datatype Event =
    | Call(key: Hash, limit: int, window: int, at: nat)
    | Sweep(gone: set<Slot>, at: nat)

  predicate Counts(e: Event) { e.Call? && ValidCall(e.limit, e.window) }

  predicate Hits(e: Event, slot: Slot) { Counts(e) && SlotOf(e.key, e.window, e.at) == slot }

  function After(rows: Rows, e: Event): Rows {
    match e
    case Call(key, limit, window, at) =>
      if !ValidCall(limit, window) then rows
      else
        var slot := SlotOf(key, window, at);
        if Attempts(rows, slot) == MAX_INT4 then rows else rows[slot := Attempts(rows, slot) + 1]
    case Sweep(gone, _) => rows - gone
  }

  function Answer(rows: Rows, e: Event): Result<bool>
    requires e.Call?
  {
    if !ValidCall(e.limit, e.window) then Err(InputInvalid)
    else
      var n := Attempts(rows, SlotOf(e.key, e.window, e.at));
      if n == MAX_INT4 then Err(InputInvalid) else Ok(n + 1 <= e.limit)
  }

  /** Events in commit order: the clock never runs backwards and a sweep takes only stale rows. */
  ghost predicate Run(trace: seq<Event>) {
    && (forall i, j :: 0 <= i < j < |trace| ==> trace[i].at <= trace[j].at)
    && (forall i :: 0 <= i < |trace| && trace[i].Sweep? ==> forall s :: s in trace[i].gone ==> Stale(s, trace[i].at))
  }

  function RowsAt(trace: seq<Event>, n: nat): Rows
    requires n <= |trace|
  {
    if n == 0 then map[] else After(RowsAt(trace, n - 1), trace[n - 1])
  }

  predicate Allowed(trace: seq<Event>, n: nat)
    requires n < |trace| && trace[n].Call?
  {
    Answer(RowsAt(trace, n), trace[n]) == Ok(true)
  }

  /** How many of the first `n` events counted against a slot. */
  function HitCount(trace: seq<Event>, n: nat, slot: Slot): nat
    requires n <= |trace|
  {
    if n == 0 then 0 else HitCount(trace, n - 1, slot) + (if Hits(trace[n - 1], slot) then 1 else 0)
  }

  lemma SlotBounds(key: Hash, window: int, at: nat)
    requires window >= 1
    ensures SlotOf(key, window, at).start <= Seconds(at) < SlotOf(key, window, at).start + window
    ensures 1_000_000 * SlotOf(key, window, at).start <= at < 1_000_000 * (SlotOf(key, window, at).start + window)
  {
    var w := 1_000_000 * window;
    var q := at / w;
    assert at == q * w + at % w;
    assert q * w == 1_000_000 * (q * window);
  }

  /** A call is refused exactly out of range or on a full column, and a refused call stores nothing. */
  lemma RefusedIff(rows: Rows, key: Hash, limit: int, window: int, at: nat)
    ensures var e := Call(key, limit, window, at);
      Answer(rows, e) == Err(InputInvalid) <==>
        || !(1 <= limit <= 1_000_000) || !(1 <= window <= 86_400)
        || exists s :: s in rows && s.key == key && Holds(s, window, at) && rows[s] == 2_147_483_647
    ensures Answer(rows, Call(key, limit, window, at)).Err? ==> After(rows, Call(key, limit, window, at)) == rows
  {
    if window >= 1 { OneSlotHolds(key, window, at); }
  }

  /** The slot's window is aligned on its own length and holds the instant, in seconds since the epoch. */
  predicate Holds(s: Slot, window: int, at: nat)
    requires window >= 1
  {
    s.start % window == 0 && s.start <= at / 1_000_000 < s.start + window
  }

  /** A counted call adds one hit to the row of the window that holds it, and is allowed within its limit. */
  lemma CallCounts(rows: Rows, key: Hash, limit: int, window: int, at: nat, s: Slot)
    requires 1 <= limit <= 1_000_000 && 1 <= window <= 86_400 && s.key == key && Holds(s, window, at)
    requires s in rows ==> rows[s] < 2_147_483_647
    ensures var before := if s in rows then rows[s] else 0;
      && Answer(rows, Call(key, limit, window, at)) == Ok(before < limit)
      && After(rows, Call(key, limit, window, at)) == rows[s := before + 1]
  {
    OneSlotHolds(key, window, at);
    SameMultiple(s.start, SlotOf(key, window, at).start, window, at / 1_000_000);
  }

  lemma OneSlotHolds(key: Hash, window: int, at: nat)
    requires window >= 1
    ensures Holds(SlotOf(key, window, at), window, at)
    ensures forall s: Slot :: s.key == key && Holds(s, window, at) ==> s == SlotOf(key, window, at)
  {
    SlotBounds(key, window, at);
    MultipleOf(at / (1_000_000 * window), window);
    forall s: Slot | s.key == key && Holds(s, window, at) ensures s == SlotOf(key, window, at) {
      SameMultiple(s.start, SlotOf(key, window, at).start, window, at / 1_000_000);
    }
  }

  lemma MultipleOf(q: nat, w: int)
    requires w >= 1
    ensures q * w % w == 0
  {
    QuotientRest(q * w, w, q);
  }

  lemma QuotientRest(a: int, w: int, q: int)
    requires w >= 1 && a == q * w
    ensures a % w == 0
  {
    QuotientStep(q, a / w, w, 0, a % w);
    NextMultiple(q, w);
  }

  lemma SameMultiple(a: int, b: int, w: int, x: int)
    requires w >= 1 && a % w == 0 && b % w == 0 && a <= x < a + w && b <= x < b + w
    ensures a == b
  {
    assert a == a / w * w && b == b / w * w;
    if a < b { QuotientStep(a / w, b / w, w, 0, 0); NextMultiple(a / w, w); }
    if b < a { QuotientStep(b / w, a / w, w, 0, 0); NextMultiple(b / w, w); }
  }

  /** A slot that may still be called into is never stale, so its row counts every hit so far. */
  lemma {:induction false} LiveRowsCountHits(trace: seq<Event>, n: nat, at: nat, slot: Slot)
    requires Run(trace) && n <= |trace| && (n > 0 ==> trace[n - 1].at <= at) && !Stale(slot, at)
    ensures Attempts(RowsAt(trace, n), slot) == Min(HitCount(trace, n, slot), MAX_INT4)
    decreases n
  {
    if n > 0 {
      LiveRowsCountHits(trace, n - 1, at, slot);
    }
  }

  /** A call is allowed exactly when fewer than its limit counted against its slot before it, purges or not. */
  lemma AllowedIff(trace: seq<Event>, n: nat)
    requires Run(trace) && n < |trace| && Counts(trace[n])
    ensures Allowed(trace, n) <==>
      HitCount(trace, n, SlotOf(trace[n].key, trace[n].window, trace[n].at)) < trace[n].limit
  {
    var e := trace[n];
    SlotBounds(e.key, e.window, e.at);
    LiveRowsCountHits(trace, n, e.at, SlotOf(e.key, e.window, e.at));
  }

  /** One caller's allowed calls: key, window length and limit fixed, start of the aligned window given. */
  predicate AllowedInWindow(trace: seq<Event>, n: nat, key: Hash, window: int, limit: int, start: int)
    requires n < |trace|
  {
    && Counts(trace[n]) && trace[n].key == key && trace[n].window == window && trace[n].limit == limit
    && SlotOf(key, window, trace[n].at).start == start && Allowed(trace, n)
  }

  function WindowTotal(trace: seq<Event>, n: nat, key: Hash, window: int, limit: int, start: int): nat
    requires n <= |trace|
  {
    if n == 0 then 0
    else
      WindowTotal(trace, n - 1, key, window, limit, start)
      + (if AllowedInWindow(trace, n - 1, key, window, limit, start) then 1 else 0)
  }

  /** At most `limit` calls are allowed in one aligned window. */
  lemma {:induction false} WindowBound(trace: seq<Event>, n: nat, key: Hash, window: int, limit: nat, start: int)
    requires Run(trace) && n <= |trace|
    ensures WindowTotal(trace, n, key, window, limit, start) <= limit
    ensures WindowTotal(trace, n, key, window, limit, start) <= HitCount(trace, n, Slot(key, start))
  {
    if n > 0 {
      WindowBound(trace, n - 1, key, window, limit, start);
      if AllowedInWindow(trace, n - 1, key, window, limit, start) { AllowedIff(trace, n - 1); }
    }
  }

  /** Allowed calls of one caller whose instants lie in a closed interval as long as the window. */
  predicate AllowedBetween(trace: seq<Event>, n: nat, key: Hash, window: int, limit: int, from: nat)
    requires n < |trace|
  {
    && Counts(trace[n]) && trace[n].key == key && trace[n].window == window && trace[n].limit == limit
    && from <= trace[n].at <= from + 1_000_000 * window && Allowed(trace, n)
  }

  function IntervalTotal(trace: seq<Event>, n: nat, key: Hash, window: int, limit: int, from: nat): nat
    requires n <= |trace|
  {
    if n == 0 then 0
    else
      IntervalTotal(trace, n - 1, key, window, limit, from)
      + (if AllowedBetween(trace, n - 1, key, window, limit, from) then 1 else 0)
  }

  lemma QuotientStep(p: int, q: int, w: int, r: int, t: int)
    requires 0 <= r < w && 0 <= t < w && p * w + r <= q * w + t <= p * w + r + w
    ensures p <= q <= p + 1
  {
    assert (q - p) * w == q * w - p * w;
    assert q - p >= 2 ==> (q - p) * w >= 2 * w;
    assert q - p <= -1 ==> (q - p) * w <= (-1) * w;
  }

  lemma TwoWindows(key: Hash, window: int, from: nat, at: nat)
    requires window >= 1 && from <= at <= from + 1_000_000 * window
    ensures SlotOf(key, window, at).start == SlotOf(key, window, from).start
      || SlotOf(key, window, at).start == SlotOf(key, window, from).start + window
  {
    var w := 1_000_000 * window;
    Division(from, w);
    Division(at, w);
    QuotientStep(from / w, at / w, w, from % w, at % w);
    NextMultiple(from / w, window);
  }

  lemma Division(a: nat, w: nat)
    requires w > 0
    ensures a == a / w * w + a % w && 0 <= a % w < w
  {}

  lemma NextMultiple(p: int, window: int)
    ensures (p + 1) * window == p * window + window
  {}

  lemma {:induction false} IntervalSplits(trace: seq<Event>, n: nat, key: Hash, window: int, limit: nat, from: nat)
    requires n <= |trace| && window >= 1
    ensures var s := SlotOf(key, window, from).start;
      IntervalTotal(trace, n, key, window, limit, from)
        <= WindowTotal(trace, n, key, window, limit, s) + WindowTotal(trace, n, key, window, limit, s + window)
  {
    if n > 0 {
      IntervalSplits(trace, n - 1, key, window, limit, from);
      if AllowedBetween(trace, n - 1, key, window, limit, from) { TwoWindows(key, window, from, trace[n - 1].at); }
    }
  }

  /** At most twice the limit is allowed in any interval of the window's length, however it is aligned. */
  lemma IntervalBound(trace: seq<Event>, key: Hash, window: int, limit: nat, from: nat)
    requires Run(trace) && window >= 1
    ensures IntervalTotal(trace, |trace|, key, window, limit, from) <= 2 * limit
  {
    IntervalSplits(trace, |trace|, key, window, limit, from);
    var s := SlotOf(key, window, from).start;
    WindowBound(trace, |trace|, key, window, limit, s);
    WindowBound(trace, |trace|, key, window, limit, s + window);
  }

  // ---- The bound is reached: a burst on each side of a boundary. ----

  function Burst(key: Hash, window: int, limit: nat, at: nat): seq<Event> {
    seq(limit, _ => Call(key, limit, window, at))
  }

  function Straddle(key: Hash, window: int, limit: nat): seq<Event>
    requires window >= 1
  {
    Burst(key, window, limit, 1_000_000 * window - 1) + Burst(key, window, limit, 1_000_000 * window)
  }

  lemma StraddleSlots(key: Hash, window: int, limit: nat, n: nat)
    requires window >= 1 && n < 2 * limit
    ensures SlotOf(key, window, Straddle(key, window, limit)[n].at).start == if n < limit then 0 else window
  {
    FirstTwoSlots(key, window);
  }

  lemma FirstTwoSlots(key: Hash, window: int)
    requires window >= 1
    ensures SlotOf(key, window, 1_000_000 * window - 1).start == 0
    ensures SlotOf(key, window, 1_000_000 * window).start == window
  {
    var w := 1_000_000 * window;
    QuotientIs(w - 1, w, 0);
    QuotientIs(w, w, 1);
  }

  lemma QuotientIs(a: nat, w: nat, q: nat)
    requires w > 0 && q * w <= a < q * w + w
    ensures a / w == q
  {
    Division(a, w);
    QuotientStep(q, a / w, w, 0, a % w);
    NextMultiple(q, w);
  }

  lemma StraddleCall(key: Hash, window: int, limit: nat, n: nat)
    requires window >= 1 && n < 2 * limit
    ensures Straddle(key, window, limit)[n]
         == Call(key, limit, window, if n < limit then 1_000_000 * window - 1 else 1_000_000 * window)
  {}

  lemma StraddleRuns(key: Hash, window: int, limit: nat)
    requires ValidCall(limit, window)
    ensures Run(Straddle(key, window, limit))
  {
    var t := Straddle(key, window, limit);
    forall i, j | 0 <= i < j < |t| ensures t[i].at <= t[j].at {
      StraddleCall(key, window, limit, i);
      StraddleCall(key, window, limit, j);
    }
  }

  /** The first burst falls in the window from 0, the second in the next one. */
  lemma {:induction false} StraddleHits(key: Hash, window: int, limit: nat, n: nat)
    requires ValidCall(limit, window) && n <= 2 * limit
    ensures HitCount(Straddle(key, window, limit), n, Slot(key, 0)) == Min(n, limit)
    ensures HitCount(Straddle(key, window, limit), n, Slot(key, window)) == n - Min(n, limit)
  {
    if n > 0 {
      StraddleHits(key, window, limit, n - 1);
      StraddleSlots(key, window, limit, n - 1);
      StraddleCall(key, window, limit, n - 1);
    }
  }

  lemma {:induction false} StraddleTotals(key: Hash, window: int, limit: nat, n: nat)
    requires ValidCall(limit, window) && n <= 2 * limit
    ensures IntervalTotal(Straddle(key, window, limit), n, key, window, limit, 1_000_000 * window - 1) == n
  {
    if n > 0 {
      StraddleTotals(key, window, limit, n - 1);
      StraddleHits(key, window, limit, n - 1);
      StraddleSlots(key, window, limit, n - 1);
      StraddleCall(key, window, limit, n - 1);
      StraddleRuns(key, window, limit);
      AllowedIff(Straddle(key, window, limit), n - 1);
    }
  }

  /** For every limit and window some run is allowed twice the limit within one window length. */
  lemma IntervalBoundIsReached(key: Hash, window: int, limit: nat) returns (trace: seq<Event>, from: nat)
    requires ValidCall(limit, window)
    ensures Run(trace) && IntervalTotal(trace, |trace|, key, window, limit, from) == 2 * limit
  {
    trace, from := Straddle(key, window, limit), 1_000_000 * window - 1;
    StraddleRuns(key, window, limit);
    StraddleTotals(key, window, limit, 2 * limit);
  }
}
