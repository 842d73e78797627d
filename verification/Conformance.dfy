/** The settlement machine runs each saga as the orchestrator does; and what compensation restores. */
module Conformance {
  import opened Basics
  import opened Tables
  import opened Transactions
  import opened Machine
  import opened Orchestrator
  import opened Services
  import opened Invariants
  import opened Guarantees

  // ---- One saga, uninterrupted ----

  function FinalPc(status: Status): Pc
  {
    match status
    case Completed => Pc.Forward(4)
    case Compensated => Halted(0)
    case Critical(k) => Halted(k + 1)
  }

  predicate OnlyAdvances(steps: seq<Step>, i: nat)
  {
    forall k :: 0 <= k < |steps| ==> steps[k].Advance? && steps[k].saga == i
  }

  /** The machine, driven by `steps` from `s`, ends as the orchestrator's outcome `o` says. */
  predicate Reaches(s: State, i: nat, steps: seq<Step>, o: Outcome<Db>)
  {
    var s' := Run(s, steps);
    OnlyAdvances(steps, i) && s'.db == o.state && i in s'.sagas && s'.sagas[i].pc == FinalPc(o.status)
  }

  lemma StepThen(s: State, i: nat, d: bool, rest: seq<Step>, later: Outcome<Db>, o: Outcome<Db>)
    requires Reaches(Apply(s, Advance(i, d)), i, rest, later) && o.state == later.state && o.status == later.status
    ensures Reaches(s, i, [Advance(i, d)] + rest, o)
  {
    var first := [Advance(i, d)];
    RunConcat(s, first, rest);
    assert first[..0] == [];
    assert Run(s, first) == Apply(s, first[0]);
  }

  lemma ReachesNow(s: State, i: nat, o: Outcome<Db>)
    requires i in s.sagas && s.db == o.state && s.sagas[i].pc == FinalPc(o.status)
    ensures Reaches(s, i, [], o)
  {
  }

  lemma {:induction false} DrivesBackward(s: State, i: nat, n: nat, tries: nat, down: nat -> bool, clock: nat)
    returns (steps: seq<Step>)
    requires i in s.sagas && s.sagas[i].alive && n <= 3 && tries < MAX_TRIES
    requires s.sagas[i].pc == if n == 0 then Halted(0) else Undoing(n, tries)
    ensures var sg := s.sagas[i];
            Reaches(s, i, steps, Backward(s.db, SettlementSteps(sg.p, sg.value), n, tries, down, clock))
    decreases n, MAX_TRIES - tries
  {
    hide UndoTx, HeldIn, Backward, SettlementSteps, Reaches, Run;
    var sg := s.sagas[i];
    StepCount(sg.p, sg.value);
    UndoTurn(s.db, sg.p, sg.value, n, tries, down, clock);
    ghost var steps0 := SettlementSteps(sg.p, sg.value);
    ghost var o := Backward(s.db, steps0, n, tries, down, clock);
    if n == 0 {
      steps := [];
      ReachesNow(s, i, o);
    } else {
      var s' := Apply(s, Advance(i, down(clock)));
      ghost var later := o;
      if s'.sagas[i].pc == Halted(n) {
        steps := [];
        ReachesNow(s', i, o);
      } else if s'.sagas[i].pc == Undoing(n, tries + 1) {
        later := Backward(s'.db, steps0, n, tries + 1, down, clock + 1);
        steps := DrivesBackward(s', i, n, tries + 1, down, clock + 1);
      } else {
        later := Backward(s'.db, steps0, n - 1, 0, down, clock + 1);
        steps := DrivesBackward(s', i, n - 1, 0, down, clock + 1);
      }
      StepThen(s, i, down(clock), steps, later, o);
      steps := [Advance(i, down(clock))] + steps;
    }
  }

  lemma {:induction false} DrivesForward(s: State, i: nat, n: nat, down: nat -> bool, clock: nat)
    returns (steps: seq<Step>)
    requires i in s.sagas && s.sagas[i].alive && n <= 4 && s.sagas[i].pc == Pc.Forward(n)
    ensures var sg := s.sagas[i];
            Reaches(s, i, steps, Orchestrator.Forward(s.db, SettlementSteps(sg.p, sg.value), n, down, clock))
    decreases 4 - n
  {
    hide Reaches, Run, Backward;
    var sg := s.sagas[i];
    ghost var o := Orchestrator.Forward(s.db, SettlementSteps(sg.p, sg.value), n, down, clock);
    if n == 4 {
      steps := [];
      ReachesNow(s, i, o);
    } else {
      var s' := Apply(s, Advance(i, down(clock)));
      ghost var later;
      if s'.sagas[i].pc == Pc.Forward(n + 1) {
        later := Orchestrator.Forward(s'.db, SettlementSteps(sg.p, sg.value), n + 1, down, clock + 1);
        steps := DrivesForward(s', i, n + 1, down, clock + 1);
      } else {
        later := Backward(s'.db, SettlementSteps(sg.p, sg.value), n, 0, down, clock + 1);
        steps := DrivesBackward(s', i, n, 0, down, clock + 1);
      }
      StepThen(s, i, down(clock), steps, later, o);
      steps := [Advance(i, down(clock))] + steps;
    }
  }

  /** Every execution of the orchestrator on a settlement is a run of the machine. */
  lemma MachineRunsTheOrchestrator(s: State, i: nat, down: nat -> bool) returns (steps: seq<Step>)
    requires i in s.sagas && s.sagas[i].alive && s.sagas[i].pc == Pc.Forward(0)
    ensures Reaches(s, i, steps, LoneOutcome(s.db, s.sagas[i].p, s.sagas[i].value, down))
  {
    steps := DrivesForward(s, i, 0, down, 0);
  }

  // ---- What compensation gives back ----

  /** The foreign keys of nonces and ledger entries hold. */
  predicate ForeignKeys(db: Db)
  {
    && (forall n :: n in db.nonces ==> db.nonces[n] in db.intents)
    && (forall e :: e in db.ledger ==> e.txn in db.intents)
  }

  /** The tables with nothing changed but the token, which is INVALIDATED. */
  function Spoilt(db: Db, p: Payload): Db
    requires p.token in db.tokens
  {
    db.(tokens := db.tokens[p.token := db.tokens[p.token].(released := true, status := Invalidated)])
  }

  lemma ReserveIsUndone(db: Db, p: Payload, value: int64, db': Db)
    requires ForeignKeys(db) && ReserveTx(db, p, value) == Some(db')
    ensures UndoReserveTx(db', p) == Some(db)
  {
    assert db'.nonces - {p.nonce} == db.nonces;
    assert db'.intents - {p.txn} == db.intents;
  }

  /** Undoing a hold does not give the token back: it spoils it. */
  lemma HoldIsNotUndone(db: Db, p: Payload, db': Db)
    requires HoldTx(db, p) == Some(db')
    ensures UndoHoldTx(db', p) == Some(Spoilt(db, p)) != Some(db)
  {
    assert db'.tokens[p.token := Spoilt(db, p).tokens[p.token]] == Spoilt(db, p).tokens;
    assert Spoilt(db, p).tokens[p.token] != db.tokens[p.token];
  }

  lemma ReserveIsUndoneSpoilt(db: Db, p: Payload, value: int64, db1: Db, db2: Db)
    requires ForeignKeys(db) && ReserveTx(db, p, value) == Some(db1) && HoldTx(db1, p) == Some(db2)
    ensures UndoHoldTx(db2, p) == Some(Spoilt(db1, p))
    ensures UndoReserveTx(Spoilt(db1, p), p) == Some(Spoilt(db, p))
    ensures Spoilt(db, p) != db
  {
    HoldIsNotUndone(db1, p, db2);
    assert Spoilt(db1, p).nonces - {p.nonce} == db.nonces;
    assert Spoilt(db1, p).intents - {p.txn} == db.intents;
    assert Spoilt(db, p).tokens[p.token] != db.tokens[p.token];
  }

  /** A compensation that ends well undid its step at some attempt, and then the steps below it. */
  lemma {:induction false} BackwardPeels(s: Db, steps: seq<SagaStep<Db>>, n: nat, tries: nat, down: nat -> bool,
                                         clock: nat) returns (later: nat)
    requires 0 < n <= |steps| && tries < MAX_RETRIES && steps[n - 1].compensate.Some?
    requires Backward(s, steps, n, tries, down, clock).status == Compensated
    ensures var r := steps[n - 1].compensate.value(s);
            && r.Some?
            && Backward(r.value, steps, n - 1, 0, down, later).status == Compensated
            && Backward(r.value, steps, n - 1, 0, down, later).state == Backward(s, steps, n, tries, down, clock).state
    decreases MAX_RETRIES - tries
  {
    later := clock + 1;
    if Attempt(steps[n - 1].compensate.value, s, down, clock).None? {
      later := BackwardPeels(s, steps, n, tries + 1, down, clock + 1);
    }
  }

  /**
   * Point of no return: undoing the commit of a settlement whose nonce still references it fails
   * three times, whatever the database does, and stops there with the tables as they were.
   */
  lemma CommitIsNotUndone(db: Db, p: Payload, value: int64, down: nat -> bool, clock: nat)
    requires NonceRefers(db.nonces, p.txn)
    ensures |SettlementSteps(p, value)| == 4
    ensures Backward(db, SettlementSteps(p, value), 3, 0, down, clock) ==
            Outcome(db, [Stumbled(2), Stumbled(2), Stumbled(2)], Critical(2))
  {
    hide Backward, SettlementSteps;
    StepCount(p, value);
    assert UndoTx(db, 2, p, value) == None;
    UndoTurn(db, p, value, 3, 0, down, clock);
    UndoTurn(db, p, value, 3, 1, down, clock + 1);
    UndoTurn(db, p, value, 3, 2, down, clock + 2);
  }

  lemma {:induction false} BackwardDoesNothingNew(s: Db, steps: seq<SagaStep<Db>>, n: nat, tries: nat,
                                                  down: nat -> bool, clock: nat)
    requires n <= |steps| && tries < MAX_RETRIES
    ensures forall e :: e in Backward(s, steps, n, tries, down, clock).trace ==> !e.Did?
    decreases n, MAX_RETRIES - tries
  {
    if n != 0 {
      if steps[n - 1].compensate.None? {
        BackwardDoesNothingNew(s, steps, n - 1, 0, down, clock);
      } else {
        var r := Attempt(steps[n - 1].compensate.value, s, down, clock);
        if r.Some? {
          BackwardDoesNothingNew(r.value, steps, n - 1, 0, down, clock + 1);
        } else if tries + 1 < MAX_RETRIES {
          BackwardDoesNothingNew(s, steps, n, tries + 1, down, clock + 1);
        }
      }
    }
  }

  /** A saga that fails after RESERVE alone is undone unless the database is down for all three tries. */
  lemma FailedAtHold(db: Db, p: Payload, value: int64, down: nat -> bool, clock: nat, db1: Db)
    requires ForeignKeys(db) && ReserveTx(db, p, value) == Some(db1)
    ensures var o := Backward(db1, SettlementSteps(p, value), 1, 0, down, clock);
            if down(clock) && down(clock + 1) && down(clock + 2) then o.state == db1 != db && o.status == Critical(0)
            else o.state == db && o.status == Compensated
  {
    hide ReserveTx, UndoReserveTx, ForeignKeys, Backward, SettlementSteps;
    ReserveIsUndone(db, p, value, db1);
    ReserveShows(db, p, value, db1);
    UndoTurn(db1, p, value, 1, 0, down, clock);
    UndoTurn(db, p, value, 0, 0, down, clock + 1);
    UndoTurn(db1, p, value, 1, 1, down, clock + 1);
    UndoTurn(db, p, value, 0, 0, down, clock + 2);
    UndoTurn(db1, p, value, 1, 2, down, clock + 2);
    UndoTurn(db, p, value, 0, 0, down, clock + 3);
  }

  lemma ReserveShows(db: Db, p: Payload, value: int64, db1: Db)
    requires ReserveTx(db, p, value) == Some(db1)
    ensures db1 != db && db1.tokens == db.tokens && p.token in db.tokens
  {
    assert p.txn in db1.intents && p.txn !in db.intents;
  }

  lemma NothingToUndo(s: Db, steps: seq<SagaStep<Db>>, down: nat -> bool, clock: nat)
    ensures Backward(s, steps, 0, 0, down, clock) == Outcome(s, [], Compensated)
  {
  }

  lemma FailedAtCommit(db: Db, p: Payload, value: int64, down: nat -> bool, clock: nat, db1: Db, db2: Db)
    requires ForeignKeys(db) && ReserveTx(db, p, value) == Some(db1) && HoldTx(db1, p) == Some(db2)
    ensures var o := Backward(db2, SettlementSteps(p, value), 2, 0, down, clock);
            o.status == Compensated ==> p.token in db.tokens && o.state == Spoilt(db, p) != db
  {
    hide UndoReserveTx, UndoHoldTx, ForeignKeys, Backward, Spoilt;
    var steps := SettlementSteps(p, value);
    if Backward(db2, steps, 2, 0, down, clock).status == Compensated {
      ReserveIsUndoneSpoilt(db, p, value, db1, db2);
      var later := BackwardPeels(db2, steps, 2, 0, down, clock);
      var last := BackwardPeels(Spoilt(db1, p), steps, 1, 0, down, later);
      NothingToUndo(Spoilt(db, p), steps, down, last);
    }
  }

  lemma NonceStillRefers(db: Db, p: Payload, value: int64, db1: Db, db2: Db, db3: Db)
    requires ReserveTx(db, p, value) == Some(db1) && HoldTx(db1, p) == Some(db2) && CommitTx(db2, p, value) == Some(db3)
    ensures NonceRefers(db3.nonces, p.txn)
  {
    assert p.nonce in db3.nonces && db3.nonces[p.nonce] == p.txn;
  }

  /**
   * A settlement that ends compensated, with nothing interleaved, either restored the tables or
   * left the token spoilt, with its funds still reserved; after LEDGER_COMMIT it never ends so.
   */
  lemma CompensatedSettlement(db: Db, p: Payload, value: int64, down: nat -> bool)
    requires ForeignKeys(db)
    ensures var o := LoneOutcome(db, p, value, down);
            o.status == Compensated ==>
              && Did(2) !in o.trace
              && (o.state == db <==> Did(1) !in o.trace)
              && (Did(1) in o.trace ==> p.token in db.tokens && o.state == Spoilt(db, p))
  {
    hide ReserveTx, HoldTx, CommitTx, ForeignKeys, Backward, Spoilt;
    var steps := SettlementSteps(p, value);
    var r0 := Attempt(steps[0].action, db, down, 0);
    if r0.None? {
      NothingToUndo(db, steps, down, 1);
      return;
    }
    var r1 := Attempt(steps[1].action, r0.value, down, 1);
    if r1.None? {
      FailedAtHold(db, p, value, down, 2, r0.value);
      BackwardDoesNothingNew(r0.value, steps, 1, 0, down, 2);
      return;
    }
    var r2 := Attempt(steps[2].action, r1.value, down, 2);
    if r2.None? {
      FailedAtCommit(db, p, value, down, 3, r0.value, r1.value);
      BackwardDoesNothingNew(r1.value, steps, 2, 0, down, 3);
      return;
    }
    NonceStillRefers(db, p, value, r0.value, r1.value, r2.value);
    CommitIsNotUndone(r2.value, p, value, down, 4);
  }

  /** The token has left ISSUED. */
  predicate Used(db: Db, token: string)
  {
    token in db.tokens && db.tokens[token].status != Issued
  }

  lemma UndoKeepsUsed(db: Db, k: nat, p: Payload, value: int64)
    requires Used(db, p.token)
    ensures var r := UndoTx(db, k, p, value); r.Some? ==> Used(r.value, p.token)
  {
  }

  /** No compensation ever makes a token ISSUED again. */
  lemma {:induction false} BackwardKeepsUsed(db: Db, p: Payload, value: int64, n: nat, tries: nat, down: nat -> bool,
                                             clock: nat)
    requires n < 4 && tries < MAX_RETRIES && Used(db, p.token)
    ensures |SettlementSteps(p, value)| == 4
    ensures var o := Backward(db, SettlementSteps(p, value), n, tries, down, clock);
            Used(o.state, p.token) && !o.status.Completed?
    decreases n, MAX_RETRIES - tries
  {
    hide Backward, UndoTx, Used, SettlementSteps;
    StepCount(p, value);
    UndoTurn(db, p, value, n, tries, down, clock);
    if n > 0 {
      var r := if down(clock) then None else UndoTx(db, n - 1, p, value);
      UndoKeepsUsed(db, n - 1, p, value);
      if r.Some? {
        BackwardKeepsUsed(r.value, p, value, n - 1, 0, down, clock + 1);
      } else if tries + 1 < MAX_RETRIES {
        BackwardKeepsUsed(db, p, value, n, tries + 1, down, clock + 1);
      }
    }
  }

  /**
   * The settlement is refused before it writes anything, or it is refused the token and the
   * database then stays up for at least one of the three tries to undo RESERVE.
   */
  predicate Retracts(db: Db, p: Payload, value: int64, down: nat -> bool)
  {
    || down(0) || ReserveTx(db, p, value).None?
    || ((down(1) || Used(db, p.token)) && !(down(2) && down(3) && down(4)))
  }

  /**
   * A settlement that fails with nothing interleaved leaves the tables as it found them if and
   * only if it never held its token and could undo RESERVE. In every other case it leaves
   * something behind: a reserved intent, a token that cannot be spent, or a whole settlement.
   */
  lemma CompensationRestoresExactly(db: Db, p: Payload, value: int64, down: nat -> bool)
    requires ForeignKeys(db)
    ensures var o := LoneOutcome(db, p, value, down);
            o.status != Completed ==> (o.state == db <==> Retracts(db, p, value, down))
  {
    hide ReserveTx, HoldTx, CommitTx, ForeignKeys, Backward, Used;
    var steps := SettlementSteps(p, value);
    var r0 := Attempt(steps[0].action, db, down, 0);
    if r0.None? {
      NothingToUndo(db, steps, down, 1);
    } else {
      HoldSeesTheToken(db, p, value, r0.value);
      var r1 := Attempt(steps[1].action, r0.value, down, 1);
      if r1.None? {
        FailedAtHold(db, p, value, down, 2, r0.value);
      } else {
        HeldIsUsed(r0.value, p, r1.value);
        var r2 := Attempt(steps[2].action, r1.value, down, 2);
        if r2.None? {
          BackwardKeepsUsed(r1.value, p, value, 2, 0, down, 3);
        } else if down(3) {
          CommittedIsUsed(r1.value, p, value, r2.value);
          BackwardKeepsUsed(r2.value, p, value, 3, 0, down, 4);
        }
      }
    }
  }

  lemma HoldSeesTheToken(db: Db, p: Payload, value: int64, db1: Db)
    requires ReserveTx(db, p, value) == Some(db1)
    ensures HoldTx(db1, p).None? <==> Used(db, p.token)
  {
  }

  lemma HeldIsUsed(db: Db, p: Payload, db': Db)
    requires HoldTx(db, p) == Some(db')
    ensures Used(db', p.token)
  {
  }

  lemma CommittedIsUsed(db: Db, p: Payload, value: int64, db': Db)
    requires CommitTx(db, p, value) == Some(db')
    ensures Used(db', p.token)
  {
  }

  // ---- The foreign keys hold in every reachable state ----

  predicate NonceKeys(db: Db)
  {
    forall n :: n in db.nonces ==> db.nonces[n] in db.intents
  }

  lemma NonceKeysStep(s: State, step: Step)
    requires NonceKeys(s.db)
    ensures NonceKeys(Apply(s, step).db)
  {
    hide AdvanceSaga;
    if step.Advance? && step.saga in s.sagas {
      NonceKeysSaga(s, step.saga, step.down);
    }
  }

  lemma NonceKeysSaga(s: State, i: nat, down: bool)
    requires NonceKeys(s.db) && i in s.sagas
    ensures NonceKeys(AdvanceSaga(s, i, down).db)
  {
  }

  lemma {:induction false} NonceKeysRun(steps: seq<Step>)
    ensures NonceKeys(Run(INIT, steps).db)
  {
    hide Apply;
    if |steps| != 0 {
      NonceKeysRun(steps[..|steps| - 1]);
      NonceKeysStep(Run(INIT, steps[..|steps| - 1]), steps[|steps| - 1]);
    }
  }

  lemma EntryKeys(s: State, e: Entry)
    requires TokensOk(s.db) && SagasOk(s) && EntryOk(s, e)
    ensures e.txn in s.db.intents
  {
  }

  /** No run leaves a nonce or a ledger entry without its intent. */
  lemma ForeignKeysHold(steps: seq<Step>)
    ensures ForeignKeys(Run(INIT, steps).db)
  {
    hide AccountsOk, TokensOk, HistoryOk, SagasOk, Exclusive, TokenGroupsOk;
    hide SettlementGroupsOk, SelfPaidOk, Money, EntryOk;
    var s := Run(INIT, steps);
    Reachable(steps);
    NonceKeysRun(steps);
    forall e | e in s.db.ledger
      ensures e.txn in s.db.intents
    {
      EntryKeys(s, e);
    }
  }

  // ---- What undoing LEDGER_COMMIT would do ----

  /** No entry of the settlement is in the ledger yet. */
  predicate Unsettled(ledger: seq<Entry>, p: Payload)
  {
    forall i :: 0 <= i < |ledger| ==>
      ledger[i].txn != p.txn && !(ledger[i].txn == ReservationKey(p.token) && ledger[i].kind == Release)
  }

  lemma {:induction false} NothingDeleted(ledger: seq<Entry>, p: Payload)
    requires Unsettled(ledger, p)
    ensures WithoutSettlement(ledger, p) == ledger
  {
    if |ledger| != 0 {
      NothingDeleted(ledger[..|ledger| - 1], p);
      assert ledger == ledger[..|ledger| - 1] + [ledger[|ledger| - 1]];
    }
  }

  lemma DeleteLast(ledger: seq<Entry>, e: Entry, p: Payload)
    requires e.txn == p.txn || (e.txn == ReservationKey(p.token) && e.kind == Release)
    ensures WithoutSettlement(ledger + [e], p) == WithoutSettlement(ledger, p)
  {
    assert (ledger + [e])[..|ledger|] == ledger;
  }

  /**
   * If the foreign key did not stop it, undoing LEDGER_COMMIT right away would put the balances and
   * the ledger back, also for a payment to oneself where it goes through; the token would stay
   * CONSUMED and the intent would be gone.
   */
  lemma UndoCommitIsInverse(db: Db, p: Payload, value: int64, db': Db)
    requires AccountsOk(db.accounts) && p.amount <= value && CommitTx(db, p, value) == Some(db')
    requires Unsettled(db.ledger, p)
    ensures var undone := UndoCommitBalances(db'.accounts, p, value);
            && (p.sender != p.receiver ==> undone.Some?)
            && (undone.Some? ==> undone.value == db.accounts)
    ensures UndoCommitTx(db', p, value).Some? ==>
              UndoCommitTx(db', p, value) == Some(db.(tokens := db'.tokens, intents := db.intents - {p.txn}))
    ensures p.sender != p.receiver ==>
              (UndoCommitTx(db', p, value).Some? <==> forall n :: n in db.nonces ==> db.nonces[n] != p.txn)
  {
    hide WithoutSettlement;
    NothingDeleted(db.ledger, p);
    var d := DebitEntry(p, Add64(db.accounts[p.sender].available, Sub64(value, p.amount)));
    var c := CreditEntry(p, Add64(db.accounts[p.receiver].available, p.amount));
    var r := ReleaseEntry(p.token, p.sender, value, d.balanceAfter);
    DeleteLast(db.ledger, d, p);
    DeleteLast(db.ledger + [d], c, p);
    DeleteLast(db.ledger + [d] + [c], r, p);
    BalancesBack(db, p, value, db');
    assert db'.intents - {p.txn} == db.intents - {p.txn};
  }

  lemma BalancesBack(db: Db, p: Payload, value: int64, db': Db)
    requires AccountsOk(db.accounts) && p.amount <= value && CommitTx(db, p, value) == Some(db')
    ensures var undone := UndoCommitBalances(db'.accounts, p, value);
            && (p.sender != p.receiver ==> undone.Some?)
            && (undone.Some? ==> undone.value == db.accounts)
  {
    var undone := UndoCommitBalances(db'.accounts, p, value);
    if undone.Some? {
      assert undone.value[p.sender] == db.accounts[p.sender] && undone.value[p.receiver] == db.accounts[p.receiver];
    }
  }

  // ---- Foreign keys ----

  /** From any tables, no transaction leaves a nonce or a ledger entry without its intent. */
  lemma TransactionsKeepForeignKeys(db: Db, k: nat, p: Payload, value: int64)
    requires ForeignKeys(db)
    ensures var r := ActionTx(db, k, p, value); r.Some? ==> ForeignKeys(r.value)
    ensures var r := UndoTx(db, k, p, value); r.Some? ==> ForeignKeys(r.value)
  {
    hide WithoutSettlement;
    SettlementGone(db.ledger, p);
  }

  /** Nor do issuing and releasing a token, recording a failure and expiring an intent. */
  lemma OtherTransactionsKeepForeignKeys(db: Db, id: string, owner: string, value: int64, expiry: int, txn: string,
                                         status: IntentStatus)
    requires ForeignKeys(db)
    ensures var r := IssueTx(db, id, owner, value, expiry); r.Some? ==> ForeignKeys(r.value)
    ensures var r := ReleaseTx(db, id); r.Some? ==> ForeignKeys(r.value)
    ensures ForeignKeys(SaveFailedTx(db, txn, id, status)) && ForeignKeys(ExpireIntentTx(db, txn))
  {
  }

  lemma {:induction false} SettlementGone(ledger: seq<Entry>, p: Payload)
    ensures forall e :: e in WithoutSettlement(ledger, p) ==> e in ledger && e.txn != p.txn
  {
    if |ledger| != 0 {
      SettlementGone(ledger[..|ledger| - 1], p);
    }
  }
}
