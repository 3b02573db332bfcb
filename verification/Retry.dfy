/** The guarded-transaction retry loop, against a store that rivals write to
    between its rounds. */
module Retry {
  import opened Buckets
  import opened Database

  const CAP_WRITE_TRIES: nat := 8
  const CAP_WRITE_BACKOFF_MS: nat := 2

  type Write = string

  /** The writes one transaction made durable, and which round of this call it
      was, if it was one. */
  datatype Batch = Batch(round: Option<nat>, writes: seq<Write>)

  datatype Run<T> = Value(value: T) | Fails(error: AppError)

  /** One statement of the closure: its write applies, or it fails. The server
      then aborts the transaction, whatever the closure makes of the error. */
  datatype Statement = Applies(write: Write) | Refused

  /** How COMMIT ends. A failed one may still have taken effect. */
  datatype Commit = Committed | CommitFails(error: SqlxError, landed: bool)

  /** All that one round meets: what rivals commit before it, whether BEGIN
      works, what the closure sends and answers, and how COMMIT ends. */
  datatype Attempt<T> = Attempt(
    rivals: seq<Write>,
    begin: Option<SqlxError>,
    statements: seq<Statement>,
    run: Run<T>,
    commit: Commit)

  /** A statement failed, so the server will not commit this transaction. */
  predicate Aborted(statements: seq<Statement>) {
    exists i :: 0 <= i < |statements| && statements[i].Refused?
  }

  /** What the statements wrote inside the transaction, up to a failure. */
  function Written(statements: seq<Statement>): seq<Write> {
    if statements == [] || statements[0].Refused? then []
    else [statements[0].write] + Written(statements[1..])
  }

  // ------------------------------------------------------------------
  // What the loop is for
  // ------------------------------------------------------------------

  /** The round was contended: the server told it to take turns. */
  predicate Contended<T>(a: Attempt<T>, cascade: bool) {
    a.begin == None &&
    match a.run
    case Value(_) => a.commit.CommitFails? && IsRetryable(a.commit.error, cascade)
    case Fails(e) => e.Db? && IsRetryable(e.err, cascade)
  }

  function Contention<T>(a: Attempt<T>, cascade: bool): SqlxError
    requires Contended(a, cascade)
  {
    match a.run
    case Value(_) => a.commit.error
    case Fails(e) => e.err
  }

  /** What a round that was not contended answers. */
  function Verdict<T>(a: Attempt<T>): Result<T, AppError> {
    if a.begin.Some? then Err(FromSqlx(a.begin.value))
    else match a.run
      case Fails(e) => Err(e)
      case Value(v) => if a.commit.Committed? then Ok(v) else Err(FromSqlx(a.commit.error))
  }

  /** What a round makes durable. COMMIT ends an aborted transaction without an
      error, and without its writes. */
  function Landed<T>(a: Attempt<T>): seq<Write> {
    if a.begin == None && a.run.Value? && !Aborted(a.statements) && (a.commit.Committed? || a.commit.landed)
    then Written(a.statements) else []
  }

  /** A verdict of the server at COMMIT is an abort, and a commit that never got
      a connection did nothing. Only a connection that died under it can leave
      the outcome open. */
  ghost predicate Honest<T>(a: Attempt<T>) {
    a.commit.CommitFails? && a.commit.landed ==> a.commit.error == Io
  }

  /** What each round the budget allows would meet. */
  ghost predicate IsScript<T>(script: seq<Attempt<T>>) {
    |script| == CAP_WRITE_TRIES
  }

  ghost predicate AllHonest<T>(script: seq<Attempt<T>>) {
    forall i :: 0 <= i < |script| ==> Honest(script[i])
  }

  /** `n` is the last round that is run: the first that is not contended, or
      the last the budget allows. */
  ghost predicate IsLast<T>(script: seq<Attempt<T>>, cascade: bool, n: nat)
    requires IsScript(script)
  {
    && n < CAP_WRITE_TRIES
    && (forall j :: 0 <= j < n ==> Contended(script[j], cascade))
    && (Contended(script[n], cascade) ==> n == CAP_WRITE_TRIES - 1)
  }

  /** What a call answers whose last round is `a`. */
  ghost function Answer<T>(a: Attempt<T>, cascade: bool): Result<T, AppError> {
    if Contended(a, cascade) then Err(Db(Contention(a, cascade))) else Verdict(a)
  }

  /** What the store gains while rounds `0 .. n` run: before each what the
      rivals commit, and then what the round lands. */
  ghost function Gained<T>(script: seq<Attempt<T>>, n: nat): (gained: seq<Batch>)
    requires n <= |script|
    ensures |gained| == 2 * n
  {
    if n == 0 then []
    else Gained(script, n - 1) + [Batch(None, script[n - 1].rivals), Batch(Some(n - 1), Landed(script[n - 1]))]
  }

  // ------------------------------------------------------------------
  // Waiting
  // ------------------------------------------------------------------

  function Shift(n: nat, bits: nat): nat {
    if bits == 0 then n else 2 * Shift(n, bits - 1)
  }

  /** How long to wait before a round, in milliseconds. */
  function Backoff(attempt: nat, clock: int): (ms: nat)
    ensures attempt == 0 ==> ms == 0
    ensures attempt > 0 ==> Shift(CAP_WRITE_BACKOFF_MS, attempt - 1) <= ms < 2 * Shift(CAP_WRITE_BACKOFF_MS, attempt - 1)
  {
    if attempt == 0 then 0
    else
      var step := Shift(CAP_WRITE_BACKOFF_MS, attempt - 1);
      ShiftPositive(CAP_WRITE_BACKOFF_MS, attempt - 1);
      step + (if clock < 0 then -clock else clock) % (if step < 1 then 1 else step)
  }

  lemma {:induction false} ShiftPositive(n: nat, bits: nat)
    requires n > 0
    ensures Shift(n, bits) > 0
  {
    if bits > 0 { ShiftPositive(n, bits - 1); }
  }

  // ------------------------------------------------------------------
  // The loop
  // ------------------------------------------------------------------

  class Store {
    var durable: seq<Batch>

    constructor ()
      ensures durable == []
    {
      durable := [];
    }

    method Append(round: Option<nat>, writes: seq<Write>)
      modifies this
      ensures durable == old(durable) + [Batch(round, writes)]
    {
      durable := durable + [Batch(round, writes)];
    }
  }

  /** A transaction as the server has it. */
  class Transaction {
    var writes: seq<Write>
    var aborted: bool

    constructor ()
      ensures writes == [] && !aborted
    {
      writes, aborted := [], false;
    }

    method Execute(statement: Statement)
      modifies this
      ensures aborted == (old(aborted) || statement.Refused?)
      ensures writes == if aborted then old(writes) else old(writes) + [statement.write]
    {
      if statement.Refused? {
        aborted := true;
      } else if !aborted {
        writes := writes + [statement.write];
      }
    }
  }

  lemma {:induction false} WrittenStep(statements: seq<Statement>, s: Statement)
    ensures Written(statements + [s]) ==
            if Aborted(statements) || s.Refused? then Written(statements) else Written(statements) + [s.write]
    ensures Aborted(statements + [s]) <==> Aborted(statements) || s.Refused?
  {
    var all := statements + [s];
    assert all[|statements|] == s;
    if i :| 0 <= i < |statements| && statements[i].Refused? {
      assert all[i].Refused?;
    }
    if statements != [] {
      assert all[1..] == statements[1..] + [s];
      if statements[0].Applies? {
        WrittenStep(statements[1..], s);
        AbortedTail(statements);
      }
    }
  }

  lemma AbortedTail(statements: seq<Statement>)
    requires statements != [] && statements[0].Applies?
    ensures Aborted(statements) <==> Aborted(statements[1..])
  {
    if Aborted(statements) {
      var i :| 0 <= i < |statements| && statements[i].Refused?;
      assert statements[1..][i - 1].Refused?;
    }
  }

  /** The closure's statements, run one by one. */
  method RunStatements(statements: seq<Statement>) returns (tx: Transaction)
    ensures fresh(tx) && tx.aborted == Aborted(statements) && tx.writes == Written(statements)
  {
    tx := new Transaction();
    for i := 0 to |statements|
      invariant fresh(tx) && tx.aborted == Aborted(statements[..i]) && tx.writes == Written(statements[..i])
    {
      WrittenStep(statements[..i], statements[i]);
      assert statements[..i + 1] == statements[..i] + [statements[i]];
      tx.Execute(statements[i]);
    }
    assert statements[..|statements|] == statements;
  }

  datatype Round<T> = Done(result: Result<T, AppError>) | Again(last: SqlxError)

  /** One round: BEGIN, the closure, and COMMIT or rollback. */
  method RunRound<T>(store: Store, cascade: bool, a: Attempt<T>, attempt: nat) returns (round: Round<T>)
    modifies store
    ensures round == if Contended(a, cascade) then Again(Contention(a, cascade)) else Done(Verdict(a))
    ensures store.durable == old(store.durable) + [Batch(None, a.rivals), Batch(Some(attempt), Landed(a))]
  {
    store.Append(None, a.rivals);
    if a.begin.Some? {
      store.Append(Some(attempt), []);
      return Done(Err(FromSqlx(a.begin.value)));
    }
    var tx := RunStatements(a.statements);
    match a.run {
      case Value(value) =>
        store.Append(Some(attempt), if !tx.aborted && (a.commit.Committed? || a.commit.landed) then tx.writes else []);
        if a.commit.Committed? {
          return Done(Ok(value));
        } else if IsRetryable(a.commit.error, cascade) {
          return Again(a.commit.error);
        } else {
          return Done(Err(FromSqlx(a.commit.error)));
        }
      case Fails(e) =>
        store.Append(Some(attempt), []);
        if e.Db? && IsRetryable(e.err, cascade) {
          return Again(e.err);
        } else {
          return Done(Err(e));
        }
    }
  }

  /** The least time `rounds` rounds wait between them; with jitter it can be
      almost twice as long. */
  function LeastWait(rounds: nat): nat
    requires rounds > 0
  {
    ShiftGrows(CAP_WRITE_BACKOFF_MS, rounds - 1);
    Shift(CAP_WRITE_BACKOFF_MS, rounds - 1) - CAP_WRITE_BACKOFF_MS
  }

  lemma {:induction false} ShiftGrows(n: nat, bits: nat)
    ensures Shift(n, bits) >= n
  {
    if bits > 0 { ShiftGrows(n, bits - 1); }
  }

  /** Time waited over the first `n` rounds. */
  function Waited(clock: seq<int>, n: nat): nat
    requires n <= |clock|
  {
    if n == 0 then 0 else Waited(clock, n - 1) + Backoff(n - 1, clock[n - 1])
  }

  lemma {:induction false} WaitBounds(clock: seq<int>, rounds: nat)
    requires 0 < rounds <= |clock|
    ensures LeastWait(rounds) <= Waited(clock, rounds) <= 2 * LeastWait(rounds)
  {
    if rounds > 1 {
      WaitBounds(clock, rounds - 1);
    }
  }

  /** Round after round, until one is decided or the budget is gone. */
  method TxWithRetry<T>(store: Store, cascade: bool, script: seq<Attempt<T>>, clock: seq<int>)
    returns (result: Result<T, AppError>, rounds: nat, waitedMs: nat)
    requires IsScript(script) && |clock| == CAP_WRITE_TRIES
    modifies store
    ensures 0 < rounds && IsLast(script, cascade, rounds - 1)
    ensures result == Answer(script[rounds - 1], cascade)
    ensures store.durable == old(store.durable) + Gained(script, rounds)
    ensures waitedMs == Waited(clock, rounds)
  {
    var last: Option<SqlxError> := None;
    ghost var start, gained := store.durable, [];
    waitedMs := 0;
    rounds := 0;
    while rounds < CAP_WRITE_TRIES
      invariant rounds <= CAP_WRITE_TRIES
      invariant waitedMs == Waited(clock, rounds)
      invariant rounds > 0 ==>
                  Contended(script[rounds - 1], cascade) && last == Some(Contention(script[rounds - 1], cascade))
      invariant forall j :: 0 <= j < rounds ==> Contended(script[j], cascade)
      invariant gained == Gained(script, rounds) && store.durable == start + gained
    {
      var attempt := rounds;
      waitedMs := waitedMs + Backoff(attempt, clock[attempt]);
      rounds := rounds + 1;
      var round := RunRound(store, cascade, script[attempt], attempt);
      gained := gained + [Batch(None, script[attempt].rivals), Batch(Some(attempt), Landed(script[attempt]))];
      match round {
        case Done(answer) =>
          return answer, rounds, waitedMs;
        case Again(err) =>
          last := Some(err);
      }
    }
    result := if last.Some? then Err(Db(last.value)) else Err(Internal("a guarded transaction never ran"));
  }

  // ------------------------------------------------------------------
  // What the answer means
  // ------------------------------------------------------------------

  /** Of all that was gained, this call made exactly `writes` durable, in the
      batch of round `n`. */
  ghost predicate OwnWrites(gained: seq<Batch>, n: nat, writes: seq<Write>) {
    && (exists i :: 0 <= i < |gained| && gained[i] == Batch(Some(n), writes))
    && (forall i :: 0 <= i < |gained| && gained[i].round.Some? ==>
          gained[i].writes == if gained[i].round == Some(n) then writes else [])
  }

  lemma ContendedLandsNothing<T>(a: Attempt<T>, cascade: bool)
    requires Honest(a) && Contended(a, cascade)
    ensures Landed(a) == []
  {
  }

  lemma {:induction false} ContendedRoundsLandNothing<T>(script: seq<Attempt<T>>, cascade: bool, n: nat)
    requires AllHonest(script) && n <= |script|
    requires forall j :: 0 <= j < n ==> Contended(script[j], cascade)
    ensures forall i :: 0 <= i < 2 * n && Gained(script, n)[i].round.Some? ==>
              Gained(script, n)[i].writes == [] && Gained(script, n)[i].round.value < n
  {
    if n > 0 {
      ContendedRoundsLandNothing(script, cascade, n - 1);
      assert Honest(script[n - 1]);
      ContendedLandsNothing(script[n - 1], cascade);
    }
  }

  /** Of everything a call makes durable, the whole is what its last round
      landed: the rounds before it wrote nothing. */
  lemma OnlyLastRoundLands<T>(script: seq<Attempt<T>>, cascade: bool, n: nat)
    requires IsScript(script) && AllHonest(script) && IsLast(script, cascade, n)
    ensures OwnWrites(Gained(script, n + 1), n, Landed(script[n]))
  {
    ContendedRoundsLandNothing(script, cascade, n);
    assert Gained(script, n + 1)[2 * n + 1] == Batch(Some(n), Landed(script[n]));
  }

  /** `Ok(v)`: `v` is what the last round's closure answered, and that round's
      writes, whole and alone, are durable if and only if no statement of the
      round failed, or it had written nothing before. A closure that swallows
      a failed statement and answers a value gets `Ok` and keeps nothing. */
  lemma OkLandsIffNoStatementFailed<T>(script: seq<Attempt<T>>, cascade: bool, n: nat)
    requires IsScript(script) && AllHonest(script) && IsLast(script, cascade, n)
    requires Answer(script[n], cascade).Ok?
    ensures script[n].run == Value(Answer(script[n], cascade).value)
    ensures OwnWrites(Gained(script, n + 1), n, Landed(script[n]))
    ensures OwnWrites(Gained(script, n + 1), n, Written(script[n].statements)) <==>
            !Aborted(script[n].statements) || Written(script[n].statements) == []
  {
    OnlyLastRoundLands(script, cascade, n);
    assert Gained(script, n + 1)[2 * n + 1] == Batch(Some(n), Landed(script[n]));
  }

  /** The failing input: the first statement writes, the second fails, the
      closure answers `value` all the same, and COMMIT reports no error. The
      call answers `Ok(value)` and makes nothing durable. */
  lemma SwallowedErrorKeepsNothing<T>(script: seq<Attempt<T>>, cascade: bool, write: Write, value: T)
    requires IsScript(script) && AllHonest(script)
    requires script[0] == Attempt([], None, [Applies(write), Refused], Value(value), Committed)
    ensures IsLast(script, cascade, 0) && Answer(script[0], cascade) == Ok(value)
    ensures Written(script[0].statements) == [write]
    ensures OwnWrites(Gained(script, 1), 0, []) && !OwnWrites(Gained(script, 1), 0, [write])
  {
    var statements := script[0].statements;
    assert statements[1].Refused? && statements[1..] == [Refused];
    assert Written(statements[1..]) == [];
    OnlyLastRoundLands(script, cascade, 0);
    OkLandsIffNoStatementFailed(script, cascade, 0);
  }

  /** The one error after which writes may be durable: a COMMIT that died on
      the wire and took effect all the same. */
  ghost predicate LandedUnacknowledged<T>(a: Attempt<T>) {
    && a.begin == None && a.run.Value? && !Aborted(a.statements)
    && a.commit.CommitFails? && a.commit.landed
  }

  /** `Err`: this call made nothing durable, unless its last COMMIT died on the
      wire and took effect all the same; then the error is that failure, never
      a contention. */
  lemma ErrMeansNothingLanded<T>(script: seq<Attempt<T>>, cascade: bool, n: nat)
    requires IsScript(script) && AllHonest(script) && IsLast(script, cascade, n)
    requires Answer(script[n], cascade).Err?
    ensures OwnWrites(Gained(script, n + 1), n,
                      if LandedUnacknowledged(script[n]) then Written(script[n].statements) else [])
    ensures LandedUnacknowledged(script[n]) ==>
              Answer(script[n], cascade) == Err(FromSqlx(script[n].commit.error)) && !Contended(script[n], cascade)
  {
    OnlyLastRoundLands(script, cascade, n);
    assert Honest(script[n]);
  }

  /** The answer is the conversion of a driver error of the last round, at BEGIN
      or at COMMIT, and not something the closure decided. */
  ghost predicate Converts<T>(a: Attempt<T>, e: SqlxError) {
    || a.begin == Some(e)
    || (a.begin == None && a.run.Value? && a.commit.CommitFails? && a.commit.error == e)
  }

  /** What a caller may read off an error, kind by kind: "unavailable" means that
      no connection was had and nothing landed, so sending it again is safe;
      "timed out" is the answer whenever a connection died, the one case in
      which the writes may have landed; a missing row is "not found"; and a
      verdict of the server comes back whole. */
  lemma ErrorsTellWhatHappened<T>(script: seq<Attempt<T>>, cascade: bool, n: nat, e: SqlxError)
    requires IsScript(script) && AllHonest(script) && IsLast(script, cascade, n)
    requires Converts(script[n], e)
    ensures Answer(script[n], cascade) == Err(DbUnavailable) <==> e == PoolTimedOut || e == PoolClosed || e == Tls
    ensures Answer(script[n], cascade) == Err(DbTimeout) <==> e == Io
    ensures Answer(script[n], cascade) == Err(NotFound) <==> e == RowNotFound
    ensures Answer(script[n], cascade) == Err(Db(e)) <==> e.Database? || e == Misc
    ensures Answer(script[n], cascade) == Err(DbUnavailable) ==> OwnWrites(Gained(script, n + 1), n, [])
    ensures LandedUnacknowledged(script[n]) ==> Answer(script[n], cascade) == Err(DbTimeout)
  {
    OnlyLastRoundLands(script, cascade, n);
    assert Honest(script[n]);
  }

  /** A round is run again if and only if the server called it contended, at a
      statement whose error the closure passed on or at COMMIT: a serialization
      failure or a deadlock, and in a cascade a parent row that is gone. */
  lemma RunAgainIff<T>(a: Attempt<T>, cascade: bool)
    requires a.begin == None
    ensures Contended(a, cascade) <==>
            exists violated: Option<string>, state: SqlState ::
              && (state == SerializationFailure || state == DeadlockDetected || (cascade && state == ForeignKeyViolation))
              && (a.run == Fails(Db(Database(state, violated))) ||
                  (a.run.Value? && a.commit.CommitFails? && a.commit.error == Database(state, violated)))
  {
    if Contended(a, cascade) {
      var e := Contention(a, cascade);
      assert e == Database(e.state, e.violated);
    }
  }

  /** The last round is determined by what the rounds meet: a decision, be it
      a value, a refusal or an unrecognised error, ends the loop at once and
      comes back as it is; without one the loop runs all its rounds and
      answers the last contention. So the "never ran" fallback is never the
      answer of the loop itself. */
  lemma DecisionsEndTheLoop<T>(script: seq<Attempt<T>>, cascade: bool, n: nat, last: nat)
    requires IsScript(script) && IsLast(script, cascade, last) && n < CAP_WRITE_TRIES
    requires forall j :: 0 <= j < n ==> Contended(script[j], cascade)
    ensures !Contended(script[n], cascade) ==>
              last == n && Answer(script[last], cascade) == Verdict(script[n])
    ensures Contended(script[n], cascade) && n == CAP_WRITE_TRIES - 1 ==>
              last == n && Answer(script[last], cascade) == Err(Db(Contention(script[n], cascade)))
    ensures Answer(script[last], cascade) == Err(Internal("a guarded transaction never ran")) ==>
              script[last].run == Fails(Internal("a guarded transaction never ran"))
  {
  }

  /** A call that runs all its rounds waits between 254 and 508 milliseconds. */
  lemma FullBudgetWaits(clock: seq<int>)
    requires |clock| == CAP_WRITE_TRIES
    ensures 254 <= Waited(clock, CAP_WRITE_TRIES) <= 508
  {
    WaitBounds(clock, CAP_WRITE_TRIES);
    assert Shift(CAP_WRITE_BACKOFF_MS, 3) == 16;
    assert Shift(CAP_WRITE_BACKOFF_MS, 5) == 64;
    assert Shift(CAP_WRITE_BACKOFF_MS, 7) == 256;
  }
}
