/** The school-template section of a boot: create the database unless it is
    there, bring it to the schema head, under one advisory lock. Any number of
    boots overlap, of binaries with different heads. Any of them can crash with
    a statement still on its way to the server, and any can lose the session
    that holds its lock while it works on over other connections. */
module TemplateBoot {
  import opened Buckets
  import opened Database
  import opened Catalogue

  /** Where a boot is. `Probing` to `Leaving` are inside the section. */
  datatype Phase =
    | Outside
    | Waiting
    | Probing
    | Creating(c: nat)
    | Migrating
    | Applying(version: nat)
    | Leaving(ok: bool)
    | Returned(ok: bool)
    | Crashed

  /** `head` is the newest schema version the binary ships; `session` is the
      connection that asks for the lock and holds it. */
  datatype Boot = Boot(head: nat, phase: Phase, session: bool)

  /** `level` is the newest version applied, 0 in a fresh database. `strays`
      are migrations sent by boots that no longer wait for them. */
  datatype State = State(boots: seq<Boot>, lock: Option<nat>, catalog: Catalog, level: nat, strays: multiset<nat>)

  predicate InSection(p: Phase) {
    p.Probing? || p.Creating? || p.Migrating? || p.Applying? || p.Leaving?
  }

  ghost predicate Init(s: State) {
    && (forall i :: 0 <= i < |s.boots| ==> s.boots[i].phase == Outside)
    && s.lock == None && s.strays == multiset{} && s.catalog.creates == []
    && (!s.catalog.present ==> s.level == 0)
  }

  datatype Step =
    | Queue                 // open a session and ask for the lock
    | Acquire               // the server grants it
    | Probe                 // the server answers; send the create if need be
    | Answered              // the create is answered
    | Migrate               // the migrator reads what is applied
    | Apply                 // the migration under way lands, or clashes
    | Fail(sent: bool)      // a statement fails, sent or not
    | LoseSession           // the lock's connection dies inside the section
    | Unlock(ok: bool)      // the unlock statement works, or not
    | Crash(sent: bool)     // the process dies, its statement sent or not

  ghost function Enter(s: State, i: nat, phase: Phase): State
    requires i < |s.boots|
  {
    s.(boots := s.boots[i := s.boots[i].(phase := phase)])
  }

  ghost function Release(s: State, i: nat): State {
    if s.lock == Some(i) then s.(lock := None) else s
  }

  ghost predicate Enabled(s: State, i: nat, step: Step) {
    && i < |s.boots|
    && var phase := s.boots[i].phase;
       match step
       case Queue => phase == Outside
       case Acquire => phase == Waiting && s.lock == None
       case Probe => phase == Probing
       case Answered => phase.Creating? && phase.c < |s.catalog.creates| && Finished(s.catalog.creates[phase.c])
       case Migrate => phase == Migrating
       case Apply => phase.Applying?
       case Fail(_) => phase.Outside? || phase.Waiting? || (InSection(phase) && !phase.Leaving?)
       case LoseSession => InSection(phase) && s.boots[i].session
       case Unlock(_) => phase.Leaving?
       case Crash(_) => !phase.Returned? && !phase.Crashed?
  }

  /** A migration nobody waits for any more; a create stays in the catalogue. */
  ghost function Abandon(s: State, phase: Phase, sent: bool): State {
    if phase.Applying? && sent then s.(strays := s.strays + multiset{phase.version}) else s
  }

  /** A migrator applies the versions it found missing, in order. */
  ghost function From(boot: Boot, level: nat): Phase {
    if level < boot.head then Applying(level + 1) else Leaving(level == boot.head)
  }

  ghost function Next(s: State, i: nat, step: Step): State
    requires Enabled(s, i, step)
  {
    var boot := s.boots[i];
    match step
    case Queue => s.(boots := s.boots[i := boot.(phase := Waiting, session := true)])
    case Acquire => Enter(s.(lock := Some(i)), i, Probing)
    case Probe =>
      if s.catalog.present then Enter(s, i, Migrating)
      else Enter(s.(catalog := Moved(s.catalog, Send)), i, Creating(|s.catalog.creates|))
    case Answered =>
      var create := s.catalog.creates[boot.phase.c];
      var adopted := create.Made? || IsDatabaseExists(create.error);
      Enter(s, i, if adopted then Migrating else Leaving(false))
    case Migrate => Enter(s, i, From(boot, s.level))
    case Apply =>
      // a rival applied it already: a duplicate table
      if s.level + 1 != boot.phase.version then Enter(s, i, Leaving(false))
      else Enter(s.(level := s.level + 1), i, From(boot, s.level + 1))
    case Fail(sent) =>
      Enter(Abandon(s, boot.phase, sent), i, if InSection(boot.phase) then Leaving(false) else Returned(false))
    case LoseSession => Release(s.(boots := s.boots[i := boot.(session := false)]), i)
    case Unlock(ok) => Enter(Release(s, i), i, Returned(ok && boot.session && boot.phase.ok))
    case Crash(sent) => Enter(Release(Abandon(s, boot.phase, sent), i), i, Crashed)
  }

  /** A stray migration lands if it still fits. */
  ghost function Land(s: State, version: nat): State {
    var rest := s.(strays := s.strays - multiset{version});
    if s.level + 1 == version then rest.(level := version) else rest
  }

  /** A step of a boot, the server at work on some create, or a stray landing. */
  datatype Move = Act(id: nat, step: Step) | Serve(move: CatalogMove) | Strayed(version: nat)

  ghost predicate Allowed(s: State, move: Move) {
    match move
    case Act(i, step) => Enabled(s, i, step)
    case Serve(m) => !m.Send? && CanMove(s.catalog, m)
    case Strayed(version) => version in s.strays
  }

  ghost function After(s: State, move: Move): State
    requires Allowed(s, move)
  {
    match move
    case Act(i, step) => Next(s, i, step)
    case Serve(m) => s.(catalog := Moved(s.catalog, m))
    case Strayed(version) => Land(s, version)
  }

  ghost predicate IsRun(states: seq<State>, moves: seq<Move>) {
    && |states| == |moves| + 1 && Init(states[0])
    && forall n {:trigger moves[n]} :: 0 <= n < |moves| ==>
         Allowed(states[n], moves[n]) && states[n + 1] == After(states[n], moves[n])
  }

  // ------------------------------------------------------------------
  // The invariant
  // ------------------------------------------------------------------

  /** The lock is held by the boot that is in the section with its session, and
      by nobody else. */
  ghost predicate Guarded(s: State) {
    && (forall i :: 0 <= i < |s.boots| ==>
          && (InSection(s.boots[i].phase) && s.boots[i].session <==> s.lock == Some(i))
          && (s.boots[i].phase == Waiting ==> s.boots[i].session))
    && (s.lock.Some? ==> s.lock.value < |s.boots|)
  }

  ghost predicate AtHead(s: State, boot: Boot) {
    s.catalog.present && s.level >= boot.head
  }

  ghost predicate BootOk(s: State, boot: Boot) {
    && (boot.phase.Creating? ==> boot.phase.c < |s.catalog.creates|)
    && (boot.phase.Migrating? ==> s.catalog.present)
    && (boot.phase.Applying? ==> s.catalog.present && 0 < boot.phase.version <= s.level + 1)
    && (boot.phase == Leaving(true) || boot.phase == Returned(true) ==> AtHead(s, boot))
  }

  /** Migrations are only ever sent to a database that is there, in order. */
  ghost predicate StoreOk(s: State) {
    && CatalogOk(s.catalog) && (!s.catalog.present ==> s.level == 0)
    && forall v :: v in s.strays ==> s.catalog.present && v <= s.level + 1
  }

  ghost predicate BootsOk(s: State) {
    forall i :: 0 <= i < |s.boots| ==> BootOk(s, s.boots[i])
  }

  ghost predicate Inv(s: State) {
    Guarded(s) && StoreOk(s) && BootsOk(s)
  }

  /** Once there, the template stays there, and its schema only advances. */
  ghost predicate Advances(s: State, t: State) {
    && |t.boots| == |s.boots| && |t.catalog.creates| >= |s.catalog.creates|
    && (forall i :: 0 <= i < |s.boots| ==> t.boots[i].head == s.boots[i].head)
    && (s.catalog.present ==> t.catalog.present)
    && s.level <= t.level
  }

  lemma StepAdvances(s: State, i: nat, step: Step)
    requires Enabled(s, i, step)
    ensures Advances(s, Next(s, i, step))
  {
  }

  lemma MoveAdvances(s: State, move: Move)
    requires Allowed(s, move)
    ensures Advances(s, After(s, move))
  {
    match move
    case Act(i, step) => StepAdvances(s, i, step);
    case Serve(m) =>
    case Strayed(version) =>
  }

  lemma StepKeepsGuard(s: State, i: nat, step: Step)
    requires Guarded(s) && Enabled(s, i, step)
    ensures Guarded(Next(s, i, step))
  {
    var t := Next(s, i, step);
    forall j | 0 <= j < |t.boots|
      ensures InSection(t.boots[j].phase) && t.boots[j].session <==> t.lock == Some(j)
      ensures t.boots[j].phase == Waiting ==> t.boots[j].session
    {
      assert InSection(s.boots[j].phase) && s.boots[j].session <==> s.lock == Some(j);
    }
  }

  lemma MoveKeepsStore(s: State, move: Move)
    requires StoreOk(s) && BootsOk(s) && Allowed(s, move)
    ensures StoreOk(After(s, move))
  {
    match move
    case Act(i, step) =>
      assert BootOk(s, s.boots[i]);
      if step == Probe { MoveKeepsCatalog(s.catalog, Send); }
    case Serve(m) => MoveKeepsCatalog(s.catalog, m);
    case Strayed(version) =>
  }

  lemma ActorOk(s: State, i: nat, step: Step)
    requires StoreOk(s) && Enabled(s, i, step) && BootOk(s, s.boots[i])
    ensures BootOk(Next(s, i, step), Next(s, i, step).boots[i])
  {
    if step == Answered {
      var create := s.catalog.creates[s.boots[i].phase.c];
      if create.Failed? && IsDatabaseExists(create.error) {
        SwallowedIsTaken(create.error, s.catalog.present);
      }
    }
  }

  lemma MoveKeepsBoots(s: State, move: Move)
    requires StoreOk(s) && BootsOk(s) && Allowed(s, move)
    ensures BootsOk(After(s, move))
  {
    var t := After(s, move);
    MoveAdvances(s, move);
    forall j | 0 <= j < |t.boots|
      ensures BootOk(t, t.boots[j])
    {
      assert BootOk(s, s.boots[j]);
      if move.Act? && move.id == j {
        ActorOk(s, j, move.step);
      }
    }
  }

  lemma MoveKeepsInv(s: State, move: Move)
    requires Inv(s) && Allowed(s, move)
    ensures Inv(After(s, move))
  {
    MoveKeepsStore(s, move);
    MoveKeepsBoots(s, move);
    if move.Act? {
      StepKeepsGuard(s, move.id, move.step);
    }
  }

  lemma {:induction false} RunInv(states: seq<State>, moves: seq<Move>, n: nat)
    requires IsRun(states, moves) && n < |states|
    ensures Inv(states[n])
  {
    if n > 0 {
      RunInv(states, moves, n - 1);
      assert Allowed(states[n - 1], moves[n - 1]);
      MoveKeepsInv(states[n - 1], moves[n - 1]);
    }
  }

  // ------------------------------------------------------------------
  // What a boot that returns has done
  // ------------------------------------------------------------------

  lemma RunMoveAdvances(states: seq<State>, moves: seq<Move>, n: nat)
    requires IsRun(states, moves) && n < |moves|
    ensures Advances(states[n], states[n + 1])
  {
    assert Allowed(states[n], moves[n]);
    MoveAdvances(states[n], moves[n]);
  }

  lemma {:induction false} RunAdvances(states: seq<State>, moves: seq<Move>, m: nat, n: nat)
    requires IsRun(states, moves) && m <= n < |states|
    ensures Advances(states[m], states[n])
  {
    if m < n {
      RunAdvances(states, moves, m, n - 1);
      RunMoveAdvances(states, moves, n - 1);
    }
  }

  /** A boot that returns `Ok` leaves the template present and at its head, then
      and ever after, whatever rival boots, lost sessions, crashes and stray
      statements do. */
  lemma OkMeansAtHead(states: seq<State>, moves: seq<Move>, m: nat, n: nat, i: nat)
    requires IsRun(states, moves) && m <= n < |states| && i < |states[m].boots|
    requires states[m].boots[i].phase == Returned(true)
    ensures AtHead(states[n], states[m].boots[i])
  {
    RunInv(states, moves, m);
    assert BootOk(states[m], states[m].boots[i]);
    RunAdvances(states, moves, m, n);
  }

  /** A swallowed "already exists" never hides a missing database: in any run,
      a boot past its create has the template, be it made by this boot, by a
      rival, or by the create a crashed boot left behind. */
  lemma SwallowHidesNothing(states: seq<State>, moves: seq<Move>, n: nat, i: nat)
    requires IsRun(states, moves) && n < |states| && i < |states[n].boots|
    requires states[n].boots[i].phase.Migrating? || states[n].boots[i].phase.Applying?
    ensures states[n].catalog.present
  {
    RunInv(states, moves, n);
    assert BootOk(states[n], states[n].boots[i]);
  }

  /** A boot goes on from its create if and only if it made the database or was
      refused over a rival's, at the name check or at the index entry; any
      other refusal is the server's own fault and sends it out. */
  lemma GoesOnIff(states: seq<State>, moves: seq<Move>, n: nat, i: nat)
    requires IsRun(states, moves) && n < |moves| && moves[n] == Act(i, Answered) && i < |states[n].boots|
    requires states[n].boots[i].phase.Creating? && states[n].boots[i].phase.c < |states[n].catalog.creates|
    ensures i < |states[n + 1].boots|
    ensures var create := states[n].catalog.creates[states[n].boots[i].phase.c];
            && (states[n + 1].boots[i].phase == Migrating <==>
                  create == Made || create == Failed(NAME_TAKEN) || create == Failed(ENTRY_TAKEN))
            && (states[n + 1].boots[i].phase != Migrating ==>
                  states[n + 1].boots[i].phase == Leaving(false) && exists fault :: create == Failed(FaultError(fault)))
  {
    RunInv(states, moves, n);
    assert Allowed(states[n], moves[n]);
    var catalog, c := states[n].catalog, states[n].boots[i].phase.c;
    if catalog.creates[c].Failed? {
      assert Understood(catalog.creates[c].error, catalog.present);
      if IsDatabaseExists(catalog.creates[c].error) {
        SwallowedIsTaken(catalog.creates[c].error, catalog.present);
      }
    }
  }

  /** The boot is of an older binary than the database, and has not succeeded. */
  ghost predicate TooOld(s: State, i: nat) {
    && i < |s.boots| && s.catalog.present && s.boots[i].head < s.level
    && !s.boots[i].phase.Creating? && !s.boots[i].phase.Applying?
    && s.boots[i].phase != Leaving(true) && s.boots[i].phase != Returned(true)
  }

  lemma MoveKeepsTooOld(s: State, move: Move, i: nat)
    requires Allowed(s, move) && TooOld(s, i)
    ensures TooOld(After(s, move), i)
  {
    MoveAdvances(s, move);
  }

  /** A boot that starts on a newer database than its own never succeeds. */
  lemma {:induction false} OlderNeverSucceeds(states: seq<State>, moves: seq<Move>, m: nat, n: nat, i: nat)
    requires IsRun(states, moves) && m <= n < |states|
    requires TooOld(states[m], i)
    ensures TooOld(states[n], i)
  {
    if m < n {
      OlderNeverSucceeds(states, moves, m, n - 1, i);
      assert Allowed(states[n - 1], moves[n - 1]);
      MoveKeepsTooOld(states[n - 1], moves[n - 1], i);
    }
  }

  // ------------------------------------------------------------------
  // What the lock is worth
  // ------------------------------------------------------------------

  ghost predicate Exclusive(s: State) {
    forall i, j :: 0 <= i < |s.boots| && 0 <= j < |s.boots| && InSection(s.boots[i].phase) && InSection(s.boots[j].phase)
                   ==> i == j
  }

  /** In the section, its session and so its lock lost. */
  ghost predicate Adrift(s: State, i: nat) {
    i < |s.boots| && InSection(s.boots[i].phase) && !s.boots[i].session
  }

  ghost predicate NobodyAdrift(s: State) {
    forall i :: 0 <= i < |s.boots| ==> !Adrift(s, i)
  }

  ghost predicate StaysExclusive(s: State) {
    Exclusive(s) && forall j: nat :: Enabled(s, j, Acquire) ==> Exclusive(Next(s, j, Acquire))
  }

  /** At most one boot is creating or migrating, and the next to get the lock
      will be alone too, if and only if no boot in the section has lost its
      session. (Some boot waits, for the question to arise.) */
  lemma ExclusiveIffNobodyAdrift(states: seq<State>, moves: seq<Move>, n: nat, waiter: nat)
    requires IsRun(states, moves) && n < |states|
    requires waiter < |states[n].boots| && states[n].boots[waiter].phase == Waiting
    ensures StaysExclusive(states[n]) <==> NobodyAdrift(states[n])
  {
    RunInv(states, moves, n);
    var s := states[n];
    if NobodyAdrift(s) {
      Alone(s);
      forall j: nat | Enabled(s, j, Acquire)
        ensures Exclusive(Next(s, j, Acquire))
      {
        AcquireAlone(s, j);
      }
    } else {
      var i :| 0 <= i < |s.boots| && Adrift(s, i);
      if s.lock == None {
        var t := Next(s, waiter, Acquire);
        assert InSection(t.boots[waiter].phase) && InSection(t.boots[i].phase);
      } else {
        assert InSection(s.boots[s.lock.value].phase) && s.boots[s.lock.value].session;
      }
    }
  }

  lemma Alone(s: State)
    requires Guarded(s) && NobodyAdrift(s)
    ensures Exclusive(s)
  {
    forall i | 0 <= i < |s.boots| && InSection(s.boots[i].phase)
      ensures s.lock == Some(i)
    {
      assert !Adrift(s, i);
    }
  }

  lemma AcquireAlone(s: State, j: nat)
    requires Guarded(s) && NobodyAdrift(s) && Enabled(s, j, Acquire)
    ensures Exclusive(Next(s, j, Acquire))
  {
    var t := Next(s, j, Acquire);
    StepKeepsGuard(s, j, Acquire);
    forall i | 0 <= i < |t.boots|
      ensures !Adrift(t, i)
    {
      assert !Adrift(s, i);
    }
    Alone(t);
  }

  /** At most one boot is creating or migrating, in any run, unless one of them
      lost its session inside the section. */
  lemma MutualExclusion(states: seq<State>, moves: seq<Move>, n: nat, i: nat, j: nat)
    requires IsRun(states, moves) && n < |states| && i < |states[n].boots| && j < |states[n].boots| && i != j
    requires InSection(states[n].boots[i].phase) && InSection(states[n].boots[j].phase)
    ensures exists m {:trigger moves[m]} :: 0 <= m < n && (moves[m] == Act(i, LoseSession) || moves[m] == Act(j, LoseSession))
  {
    RunInv(states, moves, n);
    if Adrift(states[n], i) {
      var m := AdriftLostIt(states, moves, n, i);
    } else {
      var m := AdriftLostIt(states, moves, n, j);
    }
  }

  /** A boot that is adrift lost its session, and after it entered the section. */
  lemma {:induction false} AdriftLostIt(states: seq<State>, moves: seq<Move>, n: nat, i: nat) returns (m: nat)
    requires IsRun(states, moves) && n < |states| && Adrift(states[n], i)
    ensures m < n && moves[m] == Act(i, LoseSession) && i < |states[m].boots| && InSection(states[m].boots[i].phase)
  {
    assert n > 0;
    assert Allowed(states[n - 1], moves[n - 1]);
    RunInv(states, moves, n - 1);
    if Adrift(states[n - 1], i) {
      m := AdriftLostIt(states, moves, n - 1, i);
    } else {
      m := n - 1;
      DriftsByLoss(states[n - 1], moves[n - 1], i);
    }
  }

  lemma DriftsByLoss(s: State, move: Move, i: nat)
    requires Guarded(s) && Allowed(s, move) && !Adrift(s, i) && Adrift(After(s, move), i)
    ensures move == Act(i, LoseSession) && i < |s.boots| && InSection(s.boots[i].phase)
  {
  }

  // ------------------------------------------------------------------
  // Collisions
  // ------------------------------------------------------------------

  /** The move loses the lock inside the section, or leaves a statement behind
      that the server may still carry out. */
  ghost predicate Disturbs(s: State, move: Move) {
    && move.Act? && move.id < |s.boots|
    && var phase := s.boots[move.id].phase;
       match move.step
       case LoseSession => true
       case Fail(sent) => LeavesBehind(s, phase, sent)
       case Crash(sent) => LeavesBehind(s, phase, sent)
       case _ => false
  }

  ghost predicate LeavesBehind(s: State, phase: Phase, sent: bool) {
    || (phase.Creating? && phase.c < |s.catalog.creates| && !Finished(s.catalog.creates[phase.c]))
    || (phase.Applying? && sent)
  }

  ghost predicate Owned(s: State, c: nat) {
    exists i :: 0 <= i < |s.boots| && s.boots[i].phase == Creating(c)
  }

  /** Every create and every migration under way is that of the one boot in the
      section, and meets what that boot found. */
  ghost predicate Calm(s: State) {
    && NobodyAdrift(s) && s.strays == multiset{}
    && (forall c: nat :: c < |s.catalog.creates| ==> Unopposed(s, c))
    && (forall i :: 0 <= i < |s.boots| && s.boots[i].phase.Applying? ==> s.boots[i].phase.version == s.level + 1)
  }

  ghost predicate Unopposed(s: State, c: nat)
    requires c < |s.catalog.creates|
  {
    var create := s.catalog.creates[c];
    && (create.Failed? ==> create.error != NAME_TAKEN && create.error != ENTRY_TAKEN)
    && (!Finished(create) ==> !s.catalog.present && Owned(s, c))
  }

  lemma OneOwner(s: State, c: nat, d: nat)
    requires Guarded(s) && NobodyAdrift(s) && Owned(s, c) && Owned(s, d)
    ensures c == d
  {
    var i :| 0 <= i < |s.boots| && s.boots[i].phase == Creating(c);
    var j :| 0 <= j < |s.boots| && s.boots[j].phase == Creating(d);
    assert !Adrift(s, i) && !Adrift(s, j);
  }

  lemma ServeKeepsCalm(s: State, m: CatalogMove)
    requires Guarded(s) && Calm(s) && Allowed(s, Serve(m))
    ensures Calm(After(s, Serve(m)))
  {
    var t := After(s, Serve(m));
    assert Unopposed(s, m.c);
    forall i | 0 <= i < |t.boots|
      ensures !Adrift(t, i)
    {
      assert !Adrift(s, i);
    }
    forall c: nat | c < |t.catalog.creates|
      ensures Unopposed(t, c)
    {
      assert Unopposed(s, c);
      if !Finished(t.catalog.creates[c]) {
        OneOwner(s, c, m.c);
        var i :| 0 <= i < |s.boots| && s.boots[i].phase == Creating(c);
        assert t.boots[i].phase == Creating(c);
      }
      if c == m.c && m.Abort? { assert t.catalog.creates[c].error == FaultError(m.fault); FaultsSayNothing(m.fault); }
    }
  }

  /** While one boot is in the section, no other has a create under way. */
  lemma OnlyItsCreate(s: State, i: nat, c: nat)
    requires Guarded(s) && Calm(s) && i < |s.boots| && InSection(s.boots[i].phase) && c < |s.catalog.creates|
    ensures Finished(s.catalog.creates[c]) || s.boots[i].phase == Creating(c)
  {
    assert Unopposed(s, c) && !Adrift(s, i);
    if !Finished(s.catalog.creates[c]) {
      var j :| 0 <= j < |s.boots| && s.boots[j].phase == Creating(c);
      assert !Adrift(s, j);
    }
  }

  lemma ActKeepsUnopposed(s: State, i: nat, step: Step, c: nat)
    requires Guarded(s) && Calm(s) && Enabled(s, i, step) && !Disturbs(s, Act(i, step))
    requires c < |Next(s, i, step).catalog.creates|
    ensures Unopposed(Next(s, i, step), c)
  {
    var t := Next(s, i, step);
    if c < |s.catalog.creates| {
      assert Unopposed(s, c);
      if !Finished(s.catalog.creates[c]) {
        var j :| 0 <= j < |s.boots| && s.boots[j].phase == Creating(c);
        if InSection(s.boots[i].phase) {
          OnlyItsCreate(s, i, c);
        }
        assert t.boots[j].phase == Creating(c);
      }
    } else {
      assert t.boots[i].phase == Creating(c);
    }
  }

  lemma ActKeepsNobodyAdrift(s: State, i: nat, step: Step)
    requires Guarded(s) && NobodyAdrift(s) && Enabled(s, i, step) && step != LoseSession
    ensures NobodyAdrift(Next(s, i, step))
  {
    var t := Next(s, i, step);
    forall j | 0 <= j < |t.boots|
      ensures !Adrift(t, j)
    {
      assert !Adrift(s, j);
    }
  }

  lemma ActKeepsVersions(s: State, i: nat, step: Step)
    requires Guarded(s) && Calm(s) && Enabled(s, i, step)
    ensures var t := Next(s, i, step);
            forall j :: 0 <= j < |t.boots| && t.boots[j].phase.Applying? ==> t.boots[j].phase.version == t.level + 1
  {
    Alone(s);
  }

  lemma MoveKeepsCalm(s: State, move: Move)
    requires Guarded(s) && Calm(s) && Allowed(s, move) && !Disturbs(s, move)
    ensures Calm(After(s, move))
  {
    match move
    case Act(i, step) =>
      var t := Next(s, i, step);
      ActKeepsNobodyAdrift(s, i, step);
      ActKeepsVersions(s, i, step);
      forall c: nat | c < |t.catalog.creates|
        ensures Unopposed(t, c)
      {
        ActKeepsUnopposed(s, i, step, c);
      }
    case Serve(m) => ServeKeepsCalm(s, m);
    case Strayed(version) =>
  }

  /** What the lock is for: in any run in which no boot loses its session
      inside the section or leaves a statement behind, boots exclude each
      other, no create is ever refused over a rival's, and every migration
      finds the schema its migrator saw. */
  lemma {:induction false} LockPreventsCollisions(states: seq<State>, moves: seq<Move>, n: nat)
    requires IsRun(states, moves) && n < |states|
    requires forall j {:trigger moves[j]} :: 0 <= j < n ==> !Disturbs(states[j], moves[j])
    ensures Calm(states[n]) && Exclusive(states[n])
    ensures forall c :: 0 <= c < |states[n].catalog.creates| && states[n].catalog.creates[c].Failed? ==>
              !IsDatabaseExists(states[n].catalog.creates[c].error)
  {
    RunInv(states, moves, n);
    if n > 0 {
      LockPreventsCollisions(states, moves, n - 1);
      RunInv(states, moves, n - 1);
      assert Allowed(states[n - 1], moves[n - 1]);
      MoveKeepsCalm(states[n - 1], moves[n - 1]);
    }
    Alone(states[n]);
    UnopposedAdoptsNothing(states[n]);
  }

  lemma UnopposedAdoptsNothing(s: State)
    requires Calm(s) && CatalogOk(s.catalog)
    ensures forall c :: 0 <= c < |s.catalog.creates| && s.catalog.creates[c].Failed? ==>
              !IsDatabaseExists(s.catalog.creates[c].error)
  {
    forall c | 0 <= c < |s.catalog.creates| && s.catalog.creates[c].Failed?
      ensures !IsDatabaseExists(s.catalog.creates[c].error)
    {
      assert Unopposed(s, c) && Understood(s.catalog.creates[c].error, s.catalog.present);
      if IsDatabaseExists(s.catalog.creates[c].error) {
        SwallowedIsTaken(s.catalog.creates[c].error, s.catalog.present);
      }
    }
  }

  // ------------------------------------------------------------------
  // A lost session, and the collision that follows
  // ------------------------------------------------------------------

  ghost predicate RunsTo(states: seq<State>, moves: seq<Move>, s: State) {
    IsRun(states, moves) && states[|moves|] == s
  }

  lemma Extend(states: seq<State>, moves: seq<Move>, s: State, move: Move)
    requires RunsTo(states, moves, s) && Allowed(s, move)
    ensures RunsTo(states + [After(s, move)], moves + [move], After(s, move))
  {
    var more, longer := moves + [move], states + [After(s, move)];
    forall n | 0 <= n < |more|
      ensures Allowed(longer[n], more[n]) && longer[n + 1] == After(longer[n], more[n])
    {
      if n < |moves| {
        assert more[n] == moves[n];
      }
    }
  }

  function WayIn(i: nat): seq<Move> {
    [Act(i, Queue), Act(i, Acquire), Act(i, Probe), Act(i, Migrate)]
  }

  /** `i` goes from the door of the section to its first migration. */
  lemma WalkIn(states: seq<State>, moves: seq<Move>, s: State, i: nat) returns (states': seq<State>)
    requires RunsTo(states, moves, s) && i < |s.boots| && s.boots[i].phase == Outside && s.lock == None
    requires s.catalog.present && s.level < s.boots[i].head
    ensures RunsTo(states', moves + WayIn(i),
                   s.(boots := s.boots[i := Boot(s.boots[i].head, Applying(s.level + 1), true)], lock := Some(i)))
  {
    var t := s;
    states' := states;
    for step := 0 to 4
      invariant RunsTo(states', moves + WayIn(i)[..step], t)
      invariant t == s.(boots := t.boots, lock := if step < 2 then None else Some(i))
      invariant t.boots == if step == 0 then s.boots
                           else s.boots[i := Boot(s.boots[i].head, if step == 1 then Waiting else if step == 2 then Probing
                                                    else if step == 3 then Migrating else Applying(s.level + 1), true)]
    {
      var move := WayIn(i)[step];
      Extend(states', moves + WayIn(i)[..step], t, move);
      assert moves + WayIn(i)[..step + 1] == moves + WayIn(i)[..step] + [move];
      states' := states' + [After(t, move)];
      t := After(t, move);
    }
    assert WayIn(i)[..4] == WayIn(i);
  }

  ghost function Racing(first: Boot, second: Boot, lock: Option<nat>): State {
    State([first, second], lock, Catalog(true, []), 0, multiset{})
  }

  lemma FirstDrifts() returns (states: seq<State>)
    ensures RunsTo(states, WayIn(0) + [Act(0, LoseSession)],
                   Racing(Boot(1, Applying(1), false), Boot(1, Outside, false), None))
  {
    var s := Racing(Boot(1, Outside, false), Boot(1, Outside, false), None);
    assert RunsTo([s], [], s);
    states := WalkIn([s], [], s, 0);
    assert [] + WayIn(0) == WayIn(0);
    var t := Racing(Boot(1, Applying(1), true), Boot(1, Outside, false), Some(0));
    Extend(states, WayIn(0), t, Act(0, LoseSession));
    states := states + [After(t, Act(0, LoseSession))];
  }

  /** Two boots on a fresh database; the first loses its lock session with its
      first migration under way, the second enters, and both apply the same
      version. The second fails on what the first made. */
  lemma LostSessionCollides() returns (states: seq<State>, moves: seq<Move>)
    ensures moves == WayIn(0) + [Act(0, LoseSession)] + WayIn(1) + [Act(0, Apply), Act(1, Apply)]
    ensures IsRun(states, moves) && !Exclusive(states[9])
    ensures states[11].boots == [Boot(1, Leaving(true), false), Boot(1, Leaving(false), true)]
  {
    states := FirstDrifts();
    var told := WayIn(0) + [Act(0, LoseSession)];
    states := WalkIn(states, told, Racing(Boot(1, Applying(1), false), Boot(1, Outside, false), None), 1);
    states, moves := ApplyTwice(states, told + WayIn(1), Racing(Boot(1, Applying(1), false), Boot(1, Applying(1), true), Some(1)));
  }

  lemma ApplyTwice(before: seq<State>, told: seq<Move>, v: State) returns (states: seq<State>, moves: seq<Move>)
    requires RunsTo(before, told, v) && v.level == 0
    requires v.boots == [Boot(1, Applying(1), false), Boot(1, Applying(1), true)]
    ensures moves == told + [Act(0, Apply), Act(1, Apply)]
    ensures IsRun(states, moves) && !Exclusive(states[|told|])
    ensures states[|told| + 2].boots == [Boot(1, Leaving(true), false), Boot(1, Leaving(false), true)]
  {
    var w := After(v, Act(0, Apply));
    Extend(before, told, v, Act(0, Apply));
    Extend(before + [w], told + [Act(0, Apply)], w, Act(1, Apply));
    states := before + [w] + [After(w, Act(1, Apply))];
    moves := told + [Act(0, Apply)] + [Act(1, Apply)];
    assert moves == told + [Act(0, Apply), Act(1, Apply)];
    assert states[|told|] == v;
    assert InSection(v.boots[0].phase) && InSection(v.boots[1].phase);
  }

  lemma FirstCrashes() returns (states: seq<State>)
    ensures RunsTo(states, WayIn(0) + [Act(0, Crash(true))],
                   Racing(Boot(1, Crashed, true), Boot(1, Outside, false), None).(strays := multiset{1}))
  {
    var s := Racing(Boot(1, Outside, false), Boot(1, Outside, false), None);
    assert RunsTo([s], [], s);
    states := WalkIn([s], [], s, 0);
    assert [] + WayIn(0) == WayIn(0);
    var t := Racing(Boot(1, Applying(1), true), Boot(1, Outside, false), Some(0));
    Extend(states, WayIn(0), t, Act(0, Crash(true)));
    states := states + [After(t, Act(0, Crash(true)))];
  }

  /** Leaving a statement behind is no better: a boot crashes with its first
      migration sent, its session and lock go, the next boot enters and finds
      the version missing, the stray lands, and the boot fails on it. */
  lemma StrayCollides() returns (states: seq<State>, moves: seq<Move>)
    ensures moves == WayIn(0) + [Act(0, Crash(true))] + WayIn(1) + [Strayed(1), Act(1, Apply)]
    ensures IsRun(states, moves) && states[9].level == 0 && states[10].level == 1
    ensures states[11].boots == [Boot(1, Crashed, true), Boot(1, Leaving(false), true)]
  {
    states := FirstCrashes();
    var told := WayIn(0) + [Act(0, Crash(true))];
    var s := Racing(Boot(1, Crashed, true), Boot(1, Outside, false), None).(strays := multiset{1});
    states := WalkIn(states, told, s, 1);
    var t := Racing(Boot(1, Crashed, true), Boot(1, Applying(1), true), Some(1)).(strays := multiset{1});
    states, moves := LandThenApply(states, told + WayIn(1), t);
  }

  lemma LandThenApply(before: seq<State>, told: seq<Move>, v: State) returns (states: seq<State>, moves: seq<Move>)
    requires RunsTo(before, told, v) && v.level == 0 && v.strays == multiset{1}
    requires v.boots == [Boot(1, Crashed, true), Boot(1, Applying(1), true)]
    ensures moves == told + [Strayed(1), Act(1, Apply)]
    ensures IsRun(states, moves) && states[|told|].level == 0 && states[|told| + 1].level == 1
    ensures states[|told| + 2].boots == [Boot(1, Crashed, true), Boot(1, Leaving(false), true)]
  {
    var w := After(v, Strayed(1));
    Extend(before, told, v, Strayed(1));
    Extend(before + [w], told + [Strayed(1)], w, Act(1, Apply));
    states := before + [w] + [After(w, Act(1, Apply))];
    moves := told + [Strayed(1)] + [Act(1, Apply)];
    assert moves == told + [Strayed(1), Act(1, Apply)];
    assert states[|told|] == v && states[|told| + 1] == w;
  }

  // ------------------------------------------------------------------
  // When a boot succeeds
  // ------------------------------------------------------------------

  /** The `m`-th move ends the migrations of boot `i`: its migrator finds the
      database at its head, or lands the version that brings it there. */
  ghost predicate ReachesHead(states: seq<State>, moves: seq<Move>, m: nat, i: nat)
    requires |states| == |moves| + 1
  {
    && m < |moves| && i < |states[m].boots|
    && var boot := states[m].boots[i];
       || (moves[m] == Act(i, Migrate) && boot.phase == Migrating && states[m].level == boot.head)
       || (moves[m] == Act(i, Apply) && boot.phase == Applying(boot.head) && states[m].level + 1 == boot.head)
  }

  /** The `u`-th move is its unlock, and the statement works on its session. */
  ghost predicate UnlocksWell(states: seq<State>, moves: seq<Move>, u: nat, i: nat)
    requires |states| == |moves| + 1
  {
    u < |moves| && i < |states[u].boots| && moves[u] == Act(i, Unlock(true)) && states[u].boots[i].session
  }

  /** On its way out having reached its head, or past that. */
  ghost predicate PastHead(s: State, i: nat) {
    i < |s.boots| && (s.boots[i].phase == Leaving(true) || s.boots[i].phase.Returned? || s.boots[i].phase == Crashed)
  }

  lemma MoveKeepsPast(s: State, move: Move, i: nat)
    requires Allowed(s, move) && PastHead(s, i)
    ensures PastHead(After(s, move), i)
    ensures s.boots[i].phase == Returned(true) ==> After(s, move).boots[i].phase == Returned(true)
  {
  }

  lemma {:induction false} StaysPast(states: seq<State>, moves: seq<Move>, m: nat, n: nat, i: nat)
    requires IsRun(states, moves) && m <= n < |states| && PastHead(states[m], i)
    ensures PastHead(states[n], i)
    ensures states[m].boots[i].phase == Returned(true) ==> states[n].boots[i].phase == Returned(true)
  {
    if m < n {
      StaysPast(states, moves, m, n - 1, i);
      assert Allowed(states[n - 1], moves[n - 1]);
      MoveKeepsPast(states[n - 1], moves[n - 1], i);
    }
  }

  /** Only its own steps move a boot. */
  lemma OthersLeave(s: State, move: Move, i: nat)
    requires Allowed(s, move) && i < |s.boots| && !(move.Act? && move.id == i)
    ensures After(s, move).boots[i] == s.boots[i]
  {
  }

  lemma LeavesByHead(s: State, move: Move, i: nat)
    requires Allowed(s, move) && i < |s.boots| && After(s, move).boots[i].phase == Leaving(true)
    ensures s.boots[i].phase == Leaving(true) || ReachesHead([s, After(s, move)], [move], 0, i)
  {
    if move.Act? && move.id == i {
      assert Next(s, i, move.step).boots[i].phase == Leaving(true);
    } else {
      OthersLeave(s, move, i);
    }
  }

  lemma {:induction false} LeavingReachedHead(states: seq<State>, moves: seq<Move>, n: nat, i: nat) returns (m: nat)
    requires IsRun(states, moves) && n < |states| && i < |states[n].boots| && states[n].boots[i].phase == Leaving(true)
    ensures m < n && ReachesHead(states, moves, m, i)
  {
    assert n > 0;
    RunMoveAdvances(states, moves, n - 1);
    assert Allowed(states[n - 1], moves[n - 1]);
    LeavesByHead(states[n - 1], moves[n - 1], i);
    if states[n - 1].boots[i].phase == Leaving(true) {
      m := LeavingReachedHead(states, moves, n - 1, i);
    } else {
      m := n - 1;
    }
  }

  lemma ReturnsByUnlock(s: State, move: Move, i: nat)
    requires Allowed(s, move) && i < |s.boots| && After(s, move).boots[i].phase == Returned(true)
    ensures || s.boots[i].phase == Returned(true)
            || (move == Act(i, Unlock(true)) && s.boots[i].session && s.boots[i].phase == Leaving(true))
  {
    if move.Act? && move.id == i {
      assert Next(s, i, move.step).boots[i].phase == Returned(true);
    } else {
      OthersLeave(s, move, i);
    }
  }

  lemma {:induction false} ReturnedUnlocked(states: seq<State>, moves: seq<Move>, n: nat, i: nat) returns (m: nat, u: nat)
    requires IsRun(states, moves) && n < |states| && i < |states[n].boots| && states[n].boots[i].phase == Returned(true)
    ensures m < u < n && ReachesHead(states, moves, m, i) && UnlocksWell(states, moves, u, i)
  {
    assert n > 0;
    RunMoveAdvances(states, moves, n - 1);
    assert Allowed(states[n - 1], moves[n - 1]);
    ReturnsByUnlock(states[n - 1], moves[n - 1], i);
    if states[n - 1].boots[i].phase == Returned(true) {
      m, u := ReturnedUnlocked(states, moves, n - 1, i);
    } else {
      u := n - 1;
      m := LeavingReachedHead(states, moves, n - 1, i);
    }
  }

  lemma UnlockReturns(states: seq<State>, moves: seq<Move>, m: nat, u: nat, n: nat, i: nat)
    requires IsRun(states, moves) && m < u < n < |states|
    requires ReachesHead(states, moves, m, i) && UnlocksWell(states, moves, u, i)
    ensures i < |states[n].boots| && states[n].boots[i].phase == Returned(true)
  {
    assert Allowed(states[m], moves[m]);
    assert PastHead(states[m + 1], i);
    StaysPast(states, moves, m + 1, u, i);
    assert Allowed(states[u], moves[u]);
    assert states[u + 1].boots[i].phase == Returned(true);
    StaysPast(states, moves, u + 1, n, i);
  }

  /** A boot has returned `Ok` if and only if its migrations ended at its head,
      and after that its unlock worked on the session it still had. */
  lemma OkIff(states: seq<State>, moves: seq<Move>, n: nat, i: nat)
    requires IsRun(states, moves) && n < |states| && i < |states[n].boots|
    ensures states[n].boots[i].phase == Returned(true) <==>
            exists m: nat, u: nat :: m < u < n && ReachesHead(states, moves, m, i) && UnlocksWell(states, moves, u, i)
  {
    if states[n].boots[i].phase == Returned(true) {
      var m, u := ReturnedUnlocked(states, moves, n, i);
    }
    forall m: nat, u: nat | m < u < n && ReachesHead(states, moves, m, i) && UnlocksWell(states, moves, u, i)
      ensures states[n].boots[i].phase == Returned(true)
    {
      UnlockReturns(states, moves, m, u, n, i);
    }
  }

  // ------------------------------------------------------------------
  // A boot on its own
  // ------------------------------------------------------------------

  /** One boot with the lock, at this phase. */
  ghost function Lone(head: nat, phase: Phase, catalog: Catalog, level: nat): State {
    State([Boot(head, phase, true)], Some(0), catalog, level, multiset{})
  }

  ghost predicate Reached(states: seq<State>, moves: seq<Move>, start: State, s: State) {
    RunsTo(states, moves, s) && states[0] == start
  }

  lemma Go(states: seq<State>, moves: seq<Move>, start: State, s: State, move: Move, t: State)
    returns (states': seq<State>, moves': seq<Move>)
    requires Reached(states, moves, start, s) && Allowed(s, move) && t == After(s, move)
    ensures Reached(states', moves', start, t)
  {
    Extend(states, moves, s, move);
    states', moves' := states + [t], moves + [move];
  }

  /** In through the door, to the probe. */
  lemma GoIn(start: State, head: nat) returns (states: seq<State>, moves: seq<Move>)
    requires Init(start) && start.boots == [Boot(head, Outside, false)]
    ensures Reached(states, moves, start, Lone(head, Probing, start.catalog, start.level))
  {
    states, moves := [start], [];
    var s := start.(boots := [Boot(head, Waiting, true)]);
    states, moves := Go(states, moves, start, start, Act(0, Queue), s);
    states, moves := Go(states, moves, start, s, Act(0, Acquire), Lone(head, Probing, start.catalog, start.level));
  }

  lemma CreateIt(start: State, head: nat, states: seq<State>, moves: seq<Move>)
    returns (states': seq<State>, moves': seq<Move>)
    requires Reached(states, moves, start, Lone(head, Probing, Catalog(false, []), 0))
    ensures Reached(states', moves', start, Lone(head, Creating(0), Catalog(true, [Made]), 0))
  {
    var sent, checked, held := Lone(head, Creating(0), Catalog(false, [Sent]), 0),
                               Lone(head, Creating(0), Catalog(false, [Checked]), 0),
                               Lone(head, Creating(0), Catalog(false, [Inserted]), 0);
    states', moves' := Go(states, moves, start, Lone(head, Probing, Catalog(false, []), 0), Act(0, Probe), sent);
    states', moves' := Go(states', moves', start, sent, Serve(CheckName(0)), checked);
    states', moves' := Go(states', moves', start, checked, Serve(Insert(0)), held);
    states', moves' := Go(states', moves', start, held, Serve(Commit(0)), Lone(head, Creating(0), Catalog(true, [Made]), 0));
  }

  /** From the probe, with the template made if it was absent, to the migrator. */
  lemma GoToMigrator(start: State, head: nat) returns (states: seq<State>, moves: seq<Move>, catalog: Catalog)
    requires Init(start) && start.boots == [Boot(head, Outside, false)]
    ensures catalog.present && Reached(states, moves, start, Lone(head, Migrating, catalog, start.level))
  {
    states, moves := GoIn(start, head);
    if start.catalog.present {
      catalog := start.catalog;
      states, moves := Go(states, moves, start, Lone(head, Probing, catalog, start.level), Act(0, Probe),
                          Lone(head, Migrating, catalog, start.level));
    } else {
      assert start.catalog == Catalog(false, []);
      catalog := Catalog(true, [Made]);
      states, moves := CreateIt(start, head, states, moves);
      states, moves := Go(states, moves, start, Lone(head, Creating(0), catalog, 0), Act(0, Answered),
                          Lone(head, Migrating, catalog, 0));
    }
  }

  /** The versions that are missing, one by one. */
  lemma MigrateAll(start: State, head: nat, catalog: Catalog, level: nat, states: seq<State>, moves: seq<Move>)
    returns (states': seq<State>, moves': seq<Move>)
    requires Reached(states, moves, start, Lone(head, Migrating, catalog, level)) && level <= head
    ensures Reached(states', moves', start, Lone(head, Leaving(true), catalog, head))
  {
    var boot := Boot(head, Migrating, true);
    states', moves' := Go(states, moves, start, Lone(head, Migrating, catalog, level), Act(0, Migrate),
                          Lone(head, From(boot, level), catalog, level));
    for at := level to head
      invariant Reached(states', moves', start, Lone(head, From(boot, at), catalog, at))
    {
      states', moves' := Go(states', moves', start, Lone(head, From(boot, at), catalog, at), Act(0, Apply),
                            Lone(head, From(boot, at + 1), catalog, at + 1));
    }
  }

  /** A boot on its own can succeed if and only if the template, absent, older
      or at its head, is not newer than the boot; and it then leaves it there
      and at exactly its head. */
  lemma LoneBootSucceedsIff(start: State, head: nat)
    requires Init(start) && start.boots == [Boot(head, Outside, false)]
    ensures start.level <= head <==>
            exists states, moves :: Succeeds(states, moves, start, head)
  {
    if start.level <= head {
      var states, moves, catalog := GoToMigrator(start, head);
      states, moves := MigrateAll(start, head, catalog, start.level, states, moves);
      var s, t := Lone(head, Leaving(true), catalog, head), Lone(head, Returned(true), catalog, head).(lock := None);
      states, moves := Go(states, moves, start, s, Act(0, Unlock(true)), t);
      assert Succeeds(states, moves, start, head);
    }
    if states, moves :| Succeeds(states, moves, start, head) {
      if start.level > head {
        OlderNeverSucceeds(states, moves, 0, |moves|, 0);
      }
    }
  }

  ghost predicate Succeeds(states: seq<State>, moves: seq<Move>, start: State, head: nat) {
    && IsRun(states, moves) && states[0] == start
    && states[|moves|].boots == [Boot(head, Returned(true), true)]
    && states[|moves|].catalog.present && states[|moves|].level == head
  }
}
