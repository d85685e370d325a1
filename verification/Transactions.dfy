/**
 * The transaction wrapper around every store operation, against a connection that can fail at any
 * command, lose a reply after the server acted, or throw when released. Three variants exist: most
 * stores guard the release, the grant and payment stores do not, and the account store also puts
 * COMMIT under the handler that rolls back.
 */
module Transactions {
  import opened Prelude

  datatype Style = Guarded | Bare | Joint

  /** What the server holds for this connection. An aborted transaction has nothing left to commit. */
  datatype Tx<D> = NoTx | Open(pending: D) | Aborted

  /** A command is answered, or fails; `took` says whether the server carried it out all the same. */
  datatype Reply = Done | Failed(took: bool)

  predicate Took(r: Reply) { r.Done? || r.took }

  /** What the work leaves: whether it returned, and the transaction it leaves open or aborted. */
  datatype Work<D> = Work(returned: bool, tx: Tx<D>)

  /** One call's surroundings: every reply, and whether the release throws. */
  datatype Script<!D> = Script(
    connected: bool, begin: Reply, timeouts: seq<Reply>, work: D -> Work<D>,
    rollback: Reply, commit: Reply, releaseThrows: bool)

  datatype Outcome = Returned | Unavailable | OutcomeUnknown | Normalized | ReleaseThrew

  /** The database, the connection, and what became of the client. */
  datatype World<D> = World(db: D, tx: Tx<D>, releases: nat, reused: bool, reusedOpen: bool)

  function AfterBegin<D>(w: World<D>, r: Reply): World<D> { if Took(r) then w.(tx := Open(w.db)) else w }

  function AfterRollback<D>(w: World<D>, r: Reply): World<D> { if Took(r) then w.(tx := NoTx) else w }

  /** COMMIT of an aborted transaction is answered and commits nothing. */
  function AfterCommit<D>(w: World<D>, r: Reply): World<D> {
    if !Took(r) then w
    else if w.tx.Open? then w.(db := w.tx.pending, tx := NoTx)
    else w.(tx := NoTx)
  }

  /** A destroyed connection loses its transaction; a kept one goes back to the pool as it is. */
  function AfterRelease<D>(w: World<D>, destroy: bool): World<D> {
    if destroy then w.(releases := w.releases + 1, tx := NoTx)
    else w.(releases := w.releases + 1, reused := true, reusedOpen := w.tx != NoTx)
  }

  /** The error the caller sees after a release: the guarded stores swallow what the release throws. */
  function Seen<D>(style: Style, s: Script<D>, outcome: Outcome): Outcome {
    if style != Guarded && s.releaseThrows then ReleaseThrew else outcome
  }

  /** The transaction is set up: BEGIN, and in the guarded stores the two timeouts. */
  predicate SetUp<D>(style: Style, s: Script<D>) {
    s.begin.Done? && (style == Guarded ==> forall i :: 0 <= i < |s.timeouts| ==> s.timeouts[i].Done?)
  }

  function Rollback<D>(style: Style, s: Script<D>, w: World<D>): (World<D>, Outcome) {
    (AfterRelease(AfterRollback(w, s.rollback), !s.rollback.Done?), Seen(style, s, Normalized))
  }

  function AtWork<D>(style: Style, s: Script<D>, w: World<D>): (World<D>, Outcome) {
    var work := s.work(w.db);
    var worked := w.(tx := work.tx);
    var committed := AfterCommit(worked, s.commit);
    if !work.returned then Rollback(style, s, worked)
    else if s.commit.Done? then (AfterRelease(committed, false), Seen(style, s, Returned))
    else if style == Joint then Rollback(style, s, committed)
    else (AfterRelease(committed, true), Seen(style, s, OutcomeUnknown))
  }

  /** The whole call, from a clean connection. */
  function Run<D>(style: Style, s: Script<D>, db: D): (World<D>, Outcome) {
    var start := World(db, NoTx, 0, false, false);
    var begun := AfterBegin(start, s.begin);
    if !s.connected then (start, Unavailable)
    else if SetUp(style, s) then AtWork(style, s, begun)
    else if style == Joint then Rollback(style, s, begun)
    else (AfterRelease(begun, true), Seen(style, s, Unavailable))
  }

  /** The wrapper as the stores run it, on a client's fields. */
  class Client<D> {
    var world: World<D>

    constructor (db: D)
      ensures world == World(db, NoTx, 0, false, false)
    {
      world := World(db, NoTx, 0, false, false);
    }

    /** `#release`: `true` when the exception of the release reaches the caller. */
    method Release(style: Style, s: Script<D>, destroy: bool) returns (threw: bool)
      modifies this
      ensures world == AfterRelease(old(world), destroy)
      ensures threw <==> style != Guarded && s.releaseThrows
    {
      world := AfterRelease(world, destroy);
      threw := s.releaseThrows && style != Guarded;
    }

    method Begin(style: Style, s: Script<D>) returns (ok: bool)
      modifies this
      ensures world == AfterBegin(old(world), s.begin)
      ensures ok <==> SetUp(style, s)
    {
      world := AfterBegin(world, s.begin);
      if s.begin.Failed? { return false; }
      if style == Guarded {
        for i := 0 to |s.timeouts|
          invariant forall j :: 0 <= j < i ==> s.timeouts[j].Done?
        {
          if s.timeouts[i].Failed? { return false; }
        }
      }
      ok := true;
    }

    /** The handler that rolls back: the client is kept only after a confirmed ROLLBACK. */
    method RollBack(style: Style, s: Script<D>) returns (outcome: Outcome)
      modifies this
      ensures (world, outcome) == Rollback(style, s, old(world))
    {
      world := AfterRollback(world, s.rollback);
      var rolledBack := s.rollback.Done?;
      var threw := Release(style, s, !rolledBack);
      outcome := if threw then ReleaseThrew else Normalized;
    }

    method WithTransaction(style: Style, s: Script<D>) returns (outcome: Outcome)
      requires world.tx == NoTx && world.releases == 0 && !world.reused && !world.reusedOpen
      modifies this
      ensures (world, outcome) == Run(style, s, old(world.db))
    {
      if !s.connected { return Unavailable; }
      var ok := Begin(style, s);
      if !ok {
        if style == Joint {
          outcome := RollBack(style, s);
          return;
        }
        var threw := Release(style, s, true);
        return if threw then ReleaseThrew else Unavailable;
      }
      var work := s.work(world.db);
      world := world.(tx := work.tx);
      if !work.returned {
        outcome := RollBack(style, s);
        return;
      }
      world := AfterCommit(world, s.commit);
      if s.commit.Failed? {
        if style == Joint {
          outcome := RollBack(style, s);
          return;
        }
        var threw := Release(style, s, true);
        return if threw then ReleaseThrew else OutcomeUnknown;
      }
      var threw := Release(style, s, false);
      outcome := if threw then ReleaseThrew else Returned;
    }
  }

  // ---- What every call guarantees. ----

  /** The server committed this call. */
  predicate Applied<D(==)>(style: Style, s: Script<D>, db: D) {
    Reached(style, s, db) && Took(s.commit) && s.work(db).tx.Open?
  }

  // ---- The outcome and the fate of the client, read off the script. ----

  /** BEGIN was answered, and in the guarded stores so were both timeouts. */
  predicate Began<D>(style: Style, s: Script<D>) {
    s.connected && s.begin == Done && (style == Guarded ==> forall r :: r in s.timeouts ==> r == Done)
  }

  /** The work ran on this database and returned. */
  predicate Reached<D>(style: Style, s: Script<D>, db: D) { Began(style, s) && s.work(db).returned }

  /** The handler that rolls back runs: the work failed, or, in the account store, BEGIN or COMMIT did. */
  predicate RollsBack<D>(style: Style, s: Script<D>, db: D) {
    || (Began(style, s) && !s.work(db).returned)
    || (style == Joint && s.connected && !(Began(style, s) && s.commit == Done))
  }

  /** The release reaches the caller: only the guarded stores swallow its exception. */
  predicate ReleaseShows<D>(style: Style, s: Script<D>) { style != Guarded && s.releaseThrows }

  lemma SetUpIff<D>(style: Style, s: Script<D>)
    ensures s.connected && SetUp(style, s) <==> Began(style, s)
  {
    assert forall i :: 0 <= i < |s.timeouts| ==> s.timeouts[i] in s.timeouts;
  }

  /** A result is returned exactly when the work returned, its COMMIT was answered and no release error shows. */
  lemma ReturnedIff<D>(style: Style, s: Script<D>, db: D)
    ensures Run(style, s, db).1 == Returned <==> Reached(style, s, db) && s.commit == Done && !ReleaseShows(style, s)
  {
    SetUpIff(style, s);
  }

  /** The outcome is unknown exactly when the COMMIT of returned work was not answered, outside the account store. */
  lemma UnknownIff<D>(style: Style, s: Script<D>, db: D)
    ensures Run(style, s, db).1 == OutcomeUnknown <==>
      Reached(style, s, db) && s.commit != Done && style != Joint && !ReleaseShows(style, s)
  {
    SetUpIff(style, s);
  }

  /** The store is unavailable exactly without a connection or, outside the account store, without a begun transaction. */
  lemma UnavailableIff<D>(style: Style, s: Script<D>, db: D)
    ensures Run(style, s, db).1 == Unavailable <==>
      !s.connected || (style != Joint && !Began(style, s) && !ReleaseShows(style, s))
  {
    SetUpIff(style, s);
  }

  /** The caller sees the handler's error exactly when it ran, and the release's exactly when it shows. */
  lemma ErrorsIff<D>(style: Style, s: Script<D>, db: D)
    ensures Run(style, s, db).1 == Normalized <==> RollsBack(style, s, db) && !ReleaseShows(style, s)
    ensures Run(style, s, db).1 == ReleaseThrew <==> s.connected && ReleaseShows(style, s)
  {
    SetUpIff(style, s);
  }

  /** The client goes back to the pool exactly after an answered COMMIT of returned work, or an answered ROLLBACK. */
  lemma ReusedIff<D>(style: Style, s: Script<D>, db: D)
    ensures Run(style, s, db).0.reused <==>
      (Reached(style, s, db) && s.commit == Done) || (RollsBack(style, s, db) && s.rollback == Done)
  {
    SetUpIff(style, s);
  }

  /** A connected client is released exactly once, and goes back to the pool only without a transaction. */
  lemma ReleasedOnce<D>(style: Style, s: Script<D>, db: D)
    ensures Run(style, s, db).0.releases == if s.connected then 1 else 0
    ensures Run(style, s, db).0.tx == NoTx && !Run(style, s, db).0.reusedOpen
    ensures Run(style, s, db).0.reused ==> s.commit.Done? || s.rollback.Done?
  {}

  /** The database changes in one way only: to what the work left pending, when the server committed it. */
  lemma DatabaseIff<D>(style: Style, s: Script<D>, db: D)
    ensures Run(style, s, db).0.db == if Applied(style, s, db) then s.work(db).tx.pending else db
  {
    SetUpIff(style, s);
  }

  /** A returned result has a confirmed COMMIT behind it, and its work is in the database unless it had been aborted. */
  lemma SuccessIsConfirmed<D>(style: Style, s: Script<D>, db: D)
    requires Run(style, s, db).1 == Returned
    ensures s.commit.Done? && Reached(style, s, db)
    ensures Applied(style, s, db) <==> s.work(db).tx.Open?
  {
    SetUpIff(style, s);
  }

  /** The caller sees a definite error, although the server committed the call. */
  predicate Misreported<D(==)>(style: Style, s: Script<D>, db: D) {
    Run(style, s, db).1 != Returned && Run(style, s, db).1 != OutcomeUnknown && Applied(style, s, db)
  }

  /** An error that is not misreported leaves the database as it was. */
  lemma HonestErrorsChangeNothing<D>(style: Style, s: Script<D>, db: D)
    requires Run(style, s, db).1 != Returned && Run(style, s, db).1 != OutcomeUnknown && !Misreported(style, s, db)
    ensures Run(style, s, db).0.db == db
  {
    DatabaseIff(style, s, db);
  }

  /** The guarded stores never misreport, so their definite errors mean an untouched database. */
  lemma GuardedErrorsAreHonest<D>(s: Script<D>, db: D)
    ensures !Misreported(Guarded, s, db)
    ensures Run(Guarded, s, db).1 in {Unavailable, Normalized} ==> Run(Guarded, s, db).0.db == db
    ensures Run(Guarded, s, db).1 in {Returned, OutcomeUnknown, Unavailable, Normalized}
  {
    SetUpIff(Guarded, s);
    DatabaseIff(Guarded, s, db);
  }

  /** The stores with an unguarded release misreport exactly the committed calls whose release throws. */
  lemma BareErrorsAreHonestIff<D>(s: Script<D>, db: D)
    ensures Misreported(Bare, s, db) <==> Applied(Bare, s, db) && s.releaseThrows
  {
    SetUpIff(Bare, s);
  }

  /**
   * The account store misreports exactly two kinds of calls whose work was left to commit: those whose
   * COMMIT took but whose reply was lost, and those whose confirmed COMMIT was followed by a throwing release.
   */
  lemma JointErrorsAreHonestIff<D>(s: Script<D>, db: D)
    ensures Misreported(Joint, s, db) <==>
      && Reached(Joint, s, db) && s.work(db).tx.Open?
      && (s.commit == Failed(true) || (s.commit == Done && s.releaseThrows))
    ensures Run(Joint, s, db).1 != OutcomeUnknown
  {
    SetUpIff(Joint, s);
  }

  /** Two runs the caller of the account store cannot tell apart: one committed, one did not. */
  lemma LostCommitLooksLikeRollback(db: int)
    ensures exists lost: Script<int>, refused: Script<int> ::
      && Run(Joint, lost, db).1 == Normalized && Run(Joint, refused, db).1 == Normalized
      && Run(Joint, lost, db).0.db == db + 1 && Run(Joint, refused, db).0.db == db
  {
    var work := (d: int) => Work(true, Open(d + 1));
    var lost := Script(true, Done, [], work, Done, Failed(true), false);
    var refused := lost.(commit := Failed(false));
    assert Run(Joint, lost, db).1 == Normalized && Run(Joint, lost, db).0.db == db + 1;
    assert Run(Joint, refused, db).1 == Normalized && Run(Joint, refused, db).0.db == db;
  }

  // ---- Any sequence of calls. ----

  function RunAll<D>(style: Style, scripts: seq<Script<D>>, db: D): (D, seq<Outcome>) {
    if scripts == [] then (db, [])
    else
      var (world, outcome) := Run(style, scripts[0], db);
      var (last, outcomes) := RunAll(style, scripts[1..], world.db);
      (last, [outcome] + outcomes)
  }

  /** Replaying the chosen calls' work, in order. */
  function Replay<D>(scripts: seq<Script<D>>, chosen: seq<bool>, db: D): D
    requires |scripts| == |chosen|
  {
    if scripts == [] then db
    else
      var next := if chosen[0] && scripts[0].work(db).tx.Open? then scripts[0].work(db).tx.pending else db;
      Replay(scripts[1..], chosen[1..], next)
  }

  /** No work returns normally from an aborted transaction. */
  ghost predicate Strict<D(!new)>(s: Script<D>) { forall d :: s.work(d).returned ==> s.work(d).tx.Open? }

  /**
   * Over any sequence of guarded calls the database is the replay of a choice of them: every call that
   * returned, none that failed with a definite error, and of the unknown ones some.
   */
  lemma {:induction false} HonestHistory<D(!new)>(scripts: seq<Script<D>>, db: D) returns (chosen: seq<bool>)
    requires forall i :: 0 <= i < |scripts| ==> Strict(scripts[i])
    ensures |chosen| == |scripts| == |RunAll(Guarded, scripts, db).1|
    ensures RunAll(Guarded, scripts, db).0 == Replay(scripts, chosen, db)
    ensures forall i :: 0 <= i < |scripts| ==>
      var outcome := RunAll(Guarded, scripts, db).1[i];
      (outcome == Returned ==> chosen[i]) && (outcome in {Unavailable, Normalized} ==> !chosen[i])
      && outcome in {Returned, OutcomeUnknown, Unavailable, Normalized}
  {
    chosen := [];
    if scripts != [] {
      var s := scripts[0];
      var (world, outcome) := Run(Guarded, s, db);
      var rest := HonestHistory(scripts[1..], world.db);
      chosen := [Applied(Guarded, s, db)] + rest;
      SetUpIff(Guarded, s);
      DatabaseIff(Guarded, s, db);
      assert chosen[1..] == rest && Strict(s);
    }
  }
}
