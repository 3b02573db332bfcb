/** How the server creates a database, with rivals creating the same one: a name
    check, then an entry in the unique index on names, then the commit. Which
    refusals say that the database is there follows from that. */
module Catalogue {
  import opened Buckets
  import opened Database

  /** Why the server gives up on a create for a reason of its own: a SQLSTATE
      other than those below, or a clash on the catalogue's other index. */
  datatype Fault = Gave(code: string) | OidClash

  function FaultError(fault: Fault): SqlxError {
    match fault
    case Gave(code) => Database(OtherState(code), None)
    case OidClash => Database(UniqueViolation, Some("pg_database_oid_index"))
  }

  const NAME_TAKEN: SqlxError := Database(DuplicateDatabase, None)
  const ENTRY_TAKEN: SqlxError := Database(UniqueViolation, Some("pg_database_datname_index"))

  /** One `CREATE DATABASE`, from being sent to its answer. */
  datatype Create = Sent | Checked | Inserted | Made | Failed(error: SqlxError)

  datatype Catalog = Catalog(present: bool, creates: seq<Create>)

  datatype CatalogMove =
    | Send
    | CheckName(c: nat)
    | Insert(c: nat)
    | Commit(c: nat)
    | Abort(c: nat, fault: Fault)

  predicate Finished(create: Create) {
    create.Made? || create.Failed?
  }

  predicate EntryHeld(cat: Catalog) {
    exists c :: 0 <= c < |cat.creates| && cat.creates[c] == Inserted
  }

  /** An insert waits for as long as a rival's uncommitted entry stands. */
  predicate CanMove(cat: Catalog, move: CatalogMove) {
    match move
    case Send => true
    case CheckName(c) => c < |cat.creates| && cat.creates[c] == Sent
    case Insert(c) => c < |cat.creates| && cat.creates[c] == Checked && !EntryHeld(cat)
    case Commit(c) => c < |cat.creates| && cat.creates[c] == Inserted
    case Abort(c, _) => c < |cat.creates| && !Finished(cat.creates[c])
  }

  function Moved(cat: Catalog, move: CatalogMove): Catalog
    requires CanMove(cat, move)
  {
    match move
    case Send => cat.(creates := cat.creates + [Sent])
    case CheckName(c) =>
      cat.(creates := cat.creates[c := if cat.present then Failed(NAME_TAKEN) else Checked])
    case Insert(c) =>
      cat.(creates := cat.creates[c := if cat.present then Failed(ENTRY_TAKEN) else Inserted])
    case Commit(c) => Catalog(true, cat.creates[c := Made])
    case Abort(c, fault) => cat.(creates := cat.creates[c := Failed(FaultError(fault))])
  }

  ghost predicate IsRun(cats: seq<Catalog>, moves: seq<CatalogMove>) {
    && |cats| == |moves| + 1 && cats[0].creates == []
    && forall n {:trigger moves[n]} :: 0 <= n < |moves| ==>
         CanMove(cats[n], moves[n]) && cats[n + 1] == Moved(cats[n], moves[n])
  }

  // ------------------------------------------------------------------
  // What every move keeps
  // ------------------------------------------------------------------

  ghost predicate AtMostOne(creates: seq<Create>, phase: Create) {
    forall c, d :: 0 <= c < |creates| && 0 <= d < |creates| && creates[c] == creates[d] == phase ==> c == d
  }

  /** A refusal is a rival's doing, who made the database, or a fault. */
  ghost predicate Understood(error: SqlxError, present: bool) {
    || (present && (error == NAME_TAKEN || error == ENTRY_TAKEN))
    || exists fault :: error == FaultError(fault)
  }

  /** An uncommitted entry stands for a database that is not there; a database
      some create made, or was refused over, is. */
  ghost predicate CatalogOk(cat: Catalog) {
    && AtMostOne(cat.creates, Inserted) && AtMostOne(cat.creates, Made)
    && forall c :: 0 <= c < |cat.creates| ==>
         && (cat.creates[c] == Inserted ==> !cat.present)
         && (cat.creates[c] == Made ==> cat.present)
         && (cat.creates[c].Failed? ==> Understood(cat.creates[c].error, cat.present))
  }

  lemma FaultsSayNothing(fault: Fault)
    ensures !IsDatabaseExists(FaultError(fault))
  {
    assert "pg_database_oid_index"[12] != "pg_database_datname_index"[12];
  }

  lemma SwallowedIsTaken(error: SqlxError, present: bool)
    requires Understood(error, present) && IsDatabaseExists(error)
    ensures present && (error == NAME_TAKEN || error == ENTRY_TAKEN)
  {
    forall fault
      ensures !IsDatabaseExists(FaultError(fault))
    {
      FaultsSayNothing(fault);
    }
  }

  lemma MoveKeepsCatalog(cat: Catalog, move: CatalogMove)
    requires CatalogOk(cat) && CanMove(cat, move)
    ensures CatalogOk(Moved(cat, move)) && (cat.present ==> Moved(cat, move).present)
  {
    var after := Moved(cat, move);
    forall c | 0 <= c < |after.creates| && after.creates[c].Failed?
      ensures Understood(after.creates[c].error, after.present)
    {
      if c < |cat.creates| && cat.creates[c].Failed? {
        assert Understood(cat.creates[c].error, cat.present);
      }
    }
  }

  lemma {:induction false} RunKeepsCatalog(cats: seq<Catalog>, moves: seq<CatalogMove>, n: nat)
    requires IsRun(cats, moves) && n < |cats|
    ensures CatalogOk(cats[n])
  {
    if n > 0 {
      RunKeepsCatalog(cats, moves, n - 1);
      assert CanMove(cats[n - 1], moves[n - 1]);
      MoveKeepsCatalog(cats[n - 1], moves[n - 1]);
    }
  }

  lemma {:induction false} StaysPresent(cats: seq<Catalog>, moves: seq<CatalogMove>, m: nat, n: nat)
    requires IsRun(cats, moves) && m <= n < |cats| && cats[m].present
    ensures cats[n].present
  {
    if m < n {
      StaysPresent(cats, moves, m, n - 1);
      assert CanMove(cats[n - 1], moves[n - 1]);
    }
  }

  // ------------------------------------------------------------------
  // What a refusal says
  // ------------------------------------------------------------------

  ghost predicate Swallows(guard: SqlxError -> bool, cat: Catalog, c: nat) {
    c < |cat.creates| && cat.creates[c].Failed? && guard(cat.creates[c].error)
  }

  /** Swallowing by this guard never hides a missing database: in every run, a
      create whose refusal it takes for "already there" has its database. */
  ghost predicate HidesNothing(guard: SqlxError -> bool) {
    forall cats: seq<Catalog>, moves: seq<CatalogMove>, n: nat, c: nat ::
      IsRun(cats, moves) && n < |cats| && Swallows(guard, cats[n], c) ==> cats[n].present
  }

  /** It adopts whatever a rival made: in every run, a create that lost to a
      rival, at its name check or at its index entry, is not an error. */
  ghost predicate AdoptsAll(guard: SqlxError -> bool) {
    forall cats: seq<Catalog>, moves: seq<CatalogMove>, n: nat, c: nat ::
      IsRun(cats, moves) && n < |moves| && Loses(cats[n], moves[n], c) ==> Swallows(guard, cats[n + 1], c)
  }

  ghost predicate Loses(cat: Catalog, move: CatalogMove, c: nat) {
    cat.present && CanMove(cat, move) && (move == CheckName(c) || move == Insert(c))
  }

  /** A guard hides nothing if and only if it swallows none of the faults. */
  lemma HidesNothingIff(guard: SqlxError -> bool)
    ensures HidesNothing(guard) <==> forall fault :: !guard(FaultError(fault))
  {
    if HidesNothing(guard) {
      forall fault
        ensures !guard(FaultError(fault))
      {
        var cats, moves := FaultRun(fault);
        assert Swallows(guard, cats[2], 0) <==> guard(FaultError(fault));
      }
    }
    if forall fault :: !guard(FaultError(fault)) {
      forall cats: seq<Catalog>, moves: seq<CatalogMove>, n: nat, c: nat |
        IsRun(cats, moves) && n < |cats| && Swallows(guard, cats[n], c)
        ensures cats[n].present
      {
        RunKeepsCatalog(cats, moves, n);
        assert Understood(cats[n].creates[c].error, cats[n].present);
      }
    }
  }

  /** A create the server gives up on, with no database to show for it. */
  lemma FaultRun(fault: Fault) returns (cats: seq<Catalog>, moves: seq<CatalogMove>)
    ensures IsRun(cats, moves) && |cats| == 3
    ensures cats[2] == Catalog(false, [Failed(FaultError(fault))])
  {
    moves := [Send, Abort(0, fault)];
    cats := [Catalog(false, []), Catalog(false, [Sent]), Catalog(false, [Failed(FaultError(fault))])];
  }

  /** A guard adopts every database a rival made if and only if it swallows
      both refusals, the name check's and the index entry's. */
  lemma AdoptsAllIff(guard: SqlxError -> bool)
    ensures AdoptsAll(guard) <==> guard(NAME_TAKEN) && guard(ENTRY_TAKEN)
  {
    if AdoptsAll(guard) {
      var cats, moves := RaceRun();
      assert Loses(cats[7], moves[7], 2);
      assert Loses(cats[8], moves[8], 1);
    }
  }

  /** Two creates pass the name check on an absent database and race for the
      index entry; a third is checked after the first has committed. */
  lemma RaceRun() returns (cats: seq<Catalog>, moves: seq<CatalogMove>)
    ensures IsRun(cats, moves) && |cats| == 10
    ensures moves[7] == CheckName(2) && moves[8] == Insert(1) && cats[7].present && cats[8].present
    ensures cats[9] == Catalog(true, [Made, Failed(ENTRY_TAKEN), Failed(NAME_TAKEN)])
  {
    moves := [Send, Send, CheckName(0), CheckName(1), Insert(0), Commit(0), Send, CheckName(2), Insert(1)];
    cats := [
      Catalog(false, []),
      Catalog(false, [Sent]),
      Catalog(false, [Sent, Sent]),
      Catalog(false, [Checked, Sent]),
      Catalog(false, [Checked, Checked]),
      Catalog(false, [Inserted, Checked]),
      Catalog(true, [Made, Checked]),
      Catalog(true, [Made, Checked, Sent]),
      Catalog(true, [Made, Checked, Failed(NAME_TAKEN)]),
      Catalog(true, [Made, Failed(ENTRY_TAKEN), Failed(NAME_TAKEN)])
    ];
  }

  /** The code's guard does both. */
  lemma GuardIsRight()
    ensures HidesNothing(IsDatabaseExists) && AdoptsAll(IsDatabaseExists)
  {
    forall fault
      ensures !IsDatabaseExists(FaultError(fault))
    {
      FaultsSayNothing(fault);
    }
    HidesNothingIff(IsDatabaseExists);
    AdoptsAllIff(IsDatabaseExists);
  }

  /** A guard on `42P04` alone hides nothing but fails a boot that lost the
      race for the entry; one on every `23505` takes a clash on the other
      index for a database that is not there. */
  lemma NarrowerAndWiderFail()
    ensures var narrow := (e: SqlxError) => HasState(e, DuplicateDatabase);
            HidesNothing(narrow) && !AdoptsAll(narrow)
    ensures var wide := (e: SqlxError) => HasState(e, DuplicateDatabase) || HasState(e, UniqueViolation);
            AdoptsAll(wide) && !HidesNothing(wide)
  {
    var narrow := (e: SqlxError) => HasState(e, DuplicateDatabase);
    var wide := (e: SqlxError) => HasState(e, DuplicateDatabase) || HasState(e, UniqueViolation);
    HidesNothingIff(narrow);
    AdoptsAllIff(narrow);
    HidesNothingIff(wide);
    AdoptsAllIff(wide);
    assert wide(FaultError(OidClash));
  }

  /** Of any number of racing creates at most one makes the database, and none
      if it was there. */
  lemma OneMakesIt(cats: seq<Catalog>, moves: seq<CatalogMove>, n: nat, c: nat, d: nat)
    requires IsRun(cats, moves) && n < |cats| && c < |cats[n].creates| && d < |cats[n].creates|
    requires cats[n].creates[c] == Made
    ensures cats[n].present && !cats[0].present
    ensures cats[n].creates[d] == Made ==> c == d
  {
    RunKeepsCatalog(cats, moves, n);
    if cats[0].present {
      NothingToMake(cats, moves, n);
    }
  }

  lemma {:induction false} NothingToMake(cats: seq<Catalog>, moves: seq<CatalogMove>, n: nat)
    requires IsRun(cats, moves) && n < |cats| && cats[0].present
    ensures forall c :: 0 <= c < |cats[n].creates| ==> cats[n].creates[c] != Made && cats[n].creates[c] != Inserted
  {
    if n > 0 {
      NothingToMake(cats, moves, n - 1);
      StaysPresent(cats, moves, 0, n - 1);
      assert CanMove(cats[n - 1], moves[n - 1]);
    }
  }

  // ------------------------------------------------------------------
  // The server, as one client sees it
  // ------------------------------------------------------------------

  /** What the server makes of a schedule until create `me` is answered;
      moves that are not possible when their turn comes are passed over. */
  function Served(cat: Catalog, schedule: seq<CatalogMove>, me: nat): (after: Catalog)
    requires me < |cat.creates|
    ensures |after.creates| >= |cat.creates|
    decreases |schedule|
  {
    if schedule == [] || Finished(cat.creates[me]) then cat
    else if CanMove(cat, schedule[0]) then Served(Moved(cat, schedule[0]), schedule[1..], me)
    else Served(cat, schedule[1..], me)
  }

  lemma {:induction false} ServedKeepsCatalog(cat: Catalog, schedule: seq<CatalogMove>, me: nat)
    requires CatalogOk(cat) && me < |cat.creates|
    ensures CatalogOk(Served(cat, schedule, me)) && (cat.present ==> Served(cat, schedule, me).present)
    decreases |schedule|
  {
    if schedule != [] && !Finished(cat.creates[me]) {
      if CanMove(cat, schedule[0]) {
        MoveKeepsCatalog(cat, schedule[0]);
        ServedKeepsCatalog(Moved(cat, schedule[0]), schedule[1..], me);
      } else {
        ServedKeepsCatalog(cat, schedule[1..], me);
      }
    }
  }

  class Server {
    var catalog: Catalog

    ghost predicate Valid()
      reads this
    {
      CatalogOk(catalog)
    }

    constructor (present: bool)
      ensures Valid() && catalog == Catalog(present, [])
    {
      catalog := Catalog(present, []);
    }

    /** Send one create and wait for its answer, the server and its other
        clients going on meanwhile. A schedule that ends first is a connection
        that died. */
    method Create(schedule: seq<CatalogMove>) returns (answer: Result<(), SqlxError>)
      requires Valid()
      modifies this
      ensures Valid() && (old(catalog).present ==> catalog.present)
      ensures catalog == Served(Moved(old(catalog), Send), schedule, |old(catalog).creates|)
      ensures answer == Reply(catalog.creates[|old(catalog).creates|])
    {
      var me := |catalog.creates|;
      MoveKeepsCatalog(catalog, Send);
      catalog := Moved(catalog, Send);
      ghost var sent := catalog;
      ServedKeepsCatalog(sent, schedule, me);
      var rest := schedule;
      while rest != [] && !Finished(catalog.creates[me])
        invariant me < |catalog.creates|
        invariant Served(catalog, rest, me) == Served(sent, schedule, me)
        decreases |rest|
      {
        if CanMove(catalog, rest[0]) {
          catalog := Moved(catalog, rest[0]);
        }
        rest := rest[1..];
      }
      answer := Reply(catalog.creates[me]);
    }
  }

  function Reply(create: Create): Result<(), SqlxError> {
    match create
    case Made => Ok(())
    case Failed(error) => Err(error)
    case _ => Err(Io)
  }

  /** Make sure that the server has the database. `Ok` is never a
      database that is missing, whatever rivals do and whichever refusal was
      swallowed. It fails if and only if the probe does, or the database was
      not there at the probe and the create met a fault or lost its connection. */
  method EnsureDatabase(server: Server, probe: Option<SqlxError>, schedule: seq<CatalogMove>)
    returns (r: Result<(), SqlxError>)
    requires server.Valid()
    modifies server
    ensures server.Valid() && (old(server.catalog).present ==> server.catalog.present)
    ensures r.Ok? ==> server.catalog.present
    ensures probe.Some? ==> r == Err(probe.value) && server.catalog == old(server.catalog)
    ensures probe == None && old(server.catalog).present ==> r == Ok(()) && server.catalog == old(server.catalog)
    ensures probe == None && !old(server.catalog).present ==>
              var mine := |old(server.catalog).creates|;
              && server.catalog == Served(Moved(old(server.catalog), Send), schedule, mine)
              && var answer := Reply(server.catalog.creates[mine]);
                 r == if answer == Err(NAME_TAKEN) || answer == Err(ENTRY_TAKEN) then Ok(()) else answer
  {
    if probe.Some? {
      return Err(probe.value);
    }
    if server.catalog.present {
      return Ok(());
    }
    ghost var mine := |server.catalog.creates|;
    var answer := server.Create(schedule);
    if answer.Err? && IsDatabaseExists(answer.error) {
      assert Understood(answer.error, server.catalog.present);
      SwallowedIsTaken(answer.error, server.catalog.present);
      return Ok(());
    }
    return answer;
  }
}
