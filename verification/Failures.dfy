/** Settlements that fail: what they destroy, and what they are said to have done. */
module Failures {
  import opened Basics
  import opened Sums
  import opened Tables
  import opened Transactions
  import opened Machine
  import opened Orchestrator
  import opened Services
  import opened Invariants
  import opened Effects
  import opened Guarantees
  import opened Permanence
  import opened Conformance
  import opened Settling
  import Projection

  // ---- With the database up ----

  /** Nothing but its amount stands in the way of the payment. */
  predicate Claims(db: Db, p: Payload)
  {
    && p.token in db.tokens && db.tokens[p.token].status == Issued
    && p.txn !in db.intents && p.nonce !in db.nonces
    && p.receiver in db.accounts
  }

  predicate AllUp(down: nat -> bool)
  {
    Up(down) && !down(4) && !down(5)
  }

  lemma ClaimsReserve(db: Db, p: Payload, value: int64) returns (db1: Db, db2: Db)
    requires Claims(db, p) && p.sender in db.accounts && value <= db.accounts[p.sender].reserved
    ensures ReserveTx(db, p, value) == Some(db1) && HoldTx(db1, p) == Some(db2)
    ensures p.amount <= 0 ==> CommitTx(db2, p, value) == None
  {
    db1 := ReserveTx(db, p, value).value;
    db2 := HoldTx(db1, p).value;
    if p.amount <= 0 {
      CommitRefused(db2, p, value);
    }
  }

  /** The run of a payment whose amount the ledger refuses: its token is held, and then spoilt. */
  lemma RefusedByLedger(db: Db, p: Payload, value: int64, down: nat -> bool)
    requires ForeignKeys(db) && AllUp(down) && p.amount <= 0
    requires Claims(db, p) && p.sender in db.accounts && value <= db.accounts[p.sender].reserved
    ensures var o := LoneOutcome(db, p, value, down);
            o.status == Compensated && o.state == Spoilt(db, p) != db
  {
    hide Orchestrator.Forward, Backward, SettlementSteps, ReserveTx, HoldTx, CommitTx, UndoReserveTx, UndoHoldTx;
    hide Spoilt, ForeignKeys, Claims;
    var db1, db2 := ClaimsReserve(db, p, value);
    ClaimsToken(db, p);
    ReserveShows(db, p, value, db1);
    ReserveIsUndoneSpoilt(db, p, value, db1, db2);
    StepCount(p, value);
    ActionTurn(db, p, value, 0, down);
    ActionTurn(db1, p, value, 1, down);
    ActionTurn(db2, p, value, 2, down);
    UndoTurn(db2, p, value, 2, 0, down, 3);
    UndoTurn(Spoilt(db1, p), p, value, 1, 0, down, 4);
    UndoTurn(Spoilt(db, p), p, value, 0, 0, down, 5);
  }

  lemma ClaimsToken(db: Db, p: Payload)
    requires Claims(db, p)
    ensures p.token in db.tokens
  {
  }

  lemma ClaimsOrRetracts(db: Db, p: Payload, value: int64, down: nat -> bool)
    requires AllUp(down) && p.token in db.tokens && p.sender in db.accounts
    ensures !Claims(db, p) ==> Retracts(db, p, value, down)
    ensures Ready(db, p) <==> Claims(db, p) && p.amount > 0
  {
  }

  /**
   * With the database up, an admitted payment that runs alone in a reachable state does one of
   * three things. It settles, if it is ready. If only its amount is not positive, it destroys
   * its token, whose money stays reserved. In every other case it changes nothing.
   */
  lemma ThreeWays(steps: seq<Step>, p: Payload, now: int, down: nat -> bool)
    requires var db := Run(INIT, steps).db; Admits(db, p, now) && Sum(Worth(db.accounts)) <= MAX_INT64
    requires AllUp(down)
    ensures var db := Run(INIT, steps).db;
            var o := LoneOutcome(db, p, db.tokens[p.token].value, down);
            if Claims(db, p) then
              if p.amount > 0 then o.status == Completed && Settles(db, o.state, p, db.tokens[p.token].value)
              else o.status == Compensated && o.state == Spoilt(db, p) != db
            else o.status != Completed && o.state == db
  {
    hide Run, Sum, Worth, LoneOutcome, Ready, Settles, ForeignKeys, Claims, Retracts, Spoilt, Chain;
    var db := Run(INIT, steps).db;
    var value := db.tokens[p.token].value;
    ForeignKeysHold(steps);
    ReadyExactly(steps, p, now);
    SettlesExactly(steps, p, now, down);
    ClaimsOrRetracts(db, p, value, down);
    CompensationRestoresExactly(db, p, value, down);
    if Claims(db, p) && p.amount <= 0 {
      IssuedToken(db, p);
      RefusedByLedger(db, p, value, down);
    }
  }

  lemma IssuedToken(db: Db, p: Payload)
    requires Claims(db, p)
    ensures db.tokens[p.token].status == Issued
  {
  }

  /** A payment of nothing from the funded account to itself. */
  const WORTHLESS: Payload := Payload("txn", "a", "a", 0, "nonce", "t")

  /** Such a payment can be made: on a funded account it destroys the token. */
  lemma WorthlessPaymentSpoils()
    ensures var db := Apply(Apply(INIT, OpenAccount("a", 10)), IssueToken("t", "a", 5, 1)).db;
            && Admits(db, WORTHLESS, 0)
            && LoneOutcome(db, WORTHLESS, 5, _ => false).state == Spoilt(db, WORTHLESS) != db
  {
    hide LoneOutcome, Spoilt;
    var s := Apply(Apply(INIT, OpenAccount("a", 10)), IssueToken("t", "a", 5, 1));
    FundedSteps();
    FundedKeys(s.db);
    RefusedByLedger(s.db, WORTHLESS, 5, _ => false);
  }

  lemma FundedKeys(db: Db)
    requires db == Apply(Apply(INIT, OpenAccount("a", 10)), IssueToken("t", "a", 5, 1)).db
    ensures ForeignKeys(db)
  {
  }

  // ---- Paid, and said to have failed ----

  lemma UndoKeepsLedger(db: Db, k: nat, p: Payload, value: int64)
    requires k < 2
    ensures var r := UndoTx(db, k, p, value); r.Some? ==> r.value.ledger == db.ledger
  {
  }

  lemma {:induction false} BackwardKeepsLedger(db: Db, p: Payload, value: int64, n: nat, tries: nat,
                                               down: nat -> bool, clock: nat)
    requires n < 3 && tries < Orchestrator.MAX_RETRIES
    ensures |SettlementSteps(p, value)| == 4
    ensures Backward(db, SettlementSteps(p, value), n, tries, down, clock).state.ledger == db.ledger
    decreases n, Orchestrator.MAX_RETRIES - tries
  {
    hide Backward, UndoTx, SettlementSteps;
    StepCount(p, value);
    UndoTurn(db, p, value, n, tries, down, clock);
    if n > 0 {
      var r := if down(clock) then None else UndoTx(db, n - 1, p, value);
      UndoKeepsLedger(db, n - 1, p, value);
      if r.Some? {
        BackwardKeepsLedger(r.value, p, value, n - 1, 0, down, clock + 1);
      } else if tries + 1 < Orchestrator.MAX_RETRIES {
        BackwardKeepsLedger(db, p, value, n, tries + 1, down, clock + 1);
      }
    }
  }

  /** Only PUBLISH finds the database down. */
  predicate DownAtPublish(down: nat -> bool)
  {
    !down(0) && !down(1) && !down(2) && down(3)
  }

  lemma ActionLedgers(db: Db, p: Payload, value: int64)
    ensures var r := ReserveTx(db, p, value); r.Some? ==> r.value.ledger == db.ledger
    ensures var r := HoldTx(db, p); r.Some? ==> r.value.ledger == db.ledger
    ensures var r := CommitTx(db, p, value); r.Some? ==> r.value.ledger != db.ledger
  {
    var r := CommitTx(db, p, value);
    assert r.Some? ==> |r.value.ledger| == |db.ledger| + 3;
  }

  /** A failed settlement has written to the ledger exactly if it committed and PUBLISH alone failed. */
  lemma FailedButWritten(db: Db, p: Payload, value: int64, down: nat -> bool)
    ensures var o := LoneOutcome(db, p, value, down);
            var paid := Chain(db, p, value).Some? && DownAtPublish(down);
            && (o.status != Completed && o.state.ledger != db.ledger <==> paid)
            && (paid ==> o.status == Critical(2) && Some(o.state) == Chain(db, p, value))
  {
    hide Orchestrator.Forward, Backward, SettlementSteps, ReserveTx, HoldTx, CommitTx, NonceRefers;
    StepCount(p, value);
    ActionTurn(db, p, value, 0, down);
    ActionLedgers(db, p, value);
    var r0 := if down(0) then None else ReserveTx(db, p, value);
    if r0.None? {
      BackwardKeepsLedger(db, p, value, 0, 0, down, 1);
    } else {
      ActionTurn(r0.value, p, value, 1, down);
      ActionLedgers(r0.value, p, value);
      var r1 := if down(1) then None else HoldTx(r0.value, p);
      if r1.None? {
        BackwardKeepsLedger(r0.value, p, value, 1, 0, down, 2);
      } else {
        ActionTurn(r1.value, p, value, 2, down);
        ActionLedgers(r1.value, p, value);
        var r2 := if down(2) then None else CommitTx(r1.value, p, value);
        if r2.None? {
          BackwardKeepsLedger(r1.value, p, value, 2, 0, down, 3);
        } else {
          NonceStillRefers(db, p, value, r0.value, r1.value, r2.value);
          ActionTurn(r2.value, p, value, 3, down);
          ActionTurn(r2.value, p, value, 4, down);
          CommitIsNotUndone(r2.value, p, value, down, 4);
        }
      }
    }
  }

  /**
   * A settlement that runs alone in a reachable state ends in failure although the money has
   * moved if and only if it was ready and the database was down for PUBLISH alone.
   */
  lemma PaidButFailedExactly(steps: seq<Step>, p: Payload, now: int, down: nat -> bool)
    requires var db := Run(INIT, steps).db; Admits(db, p, now) && Sum(Worth(db.accounts)) <= MAX_INT64
    ensures var db := Run(INIT, steps).db;
            var o := LoneOutcome(db, p, db.tokens[p.token].value, down);
            var paid := Ready(db, p) && DownAtPublish(down);
            && (o.status != Completed && o.state.ledger != db.ledger <==> paid)
            && (paid ==> o.status == Critical(2) && Settles(db, o.state, p, db.tokens[p.token].value))
  {
    hide Run, Sum, Worth, LoneOutcome, Chain, Ready, Settles, DownAtPublish;
    var db := Run(INIT, steps).db;
    ReadyExactly(steps, p, now);
    FailedButWritten(db, p, db.tokens[p.token].value, down);
  }

  function StatusName(status: IntentStatus): string
  {
    match status
    case Created => "CREATED"
    case Signed => "SIGNED"
    case Encrypted => "ENCRYPTED"
    case Broadcast => "BROADCAST"
    case Relayed => "RELAYED"
    case Validated => "VALIDATED"
    case Reserved => "RESERVED"
    case Settled => "SETTLED"
    case Rejected => "REJECTED"
    case Failed => "FAILED"
    case Expired => "EXPIRED"
    case Duplicate => "DUPLICATE"
    case Reconciled => "RECONCILED"
  }

  /** What a notice tells the projection. */
  function FactOf(n: Notice): Projection.Fact
  {
    match n
    case SettledNotice(_, sender, receiver, amount, hops) => Projection.Paid(sender, receiver, amount, hops)
    case FailedNotice(_, status, hops) => Projection.Lost(StatusName(status), hops)
  }

  function FactsOf(ns: seq<Notice>): seq<Projection.Fact>
  {
    seq(|ns|, i requires 0 <= i < |ns| => FactOf(ns[i]))
  }

  /** What `Settle` says of a payment whose saga failed and left `db`. */
  ghost predicate ToldAndStored(ds: seq<Projection.Delivery>, events: seq<Projection.Event>, db: Db, p: Payload,
                                status: IntentStatus, hops: int, saved: Accepted)
  {
    && Projection.Told(ds, p.txn) == FactsOf(FailureMessages(p, status, hops, saved))
    && var after := Recorded(db, p, status, saved);
       Projection.StoredFacts(events, p.txn) == FactsOf(FailureEvents(after, p, status, hops, saved))
  }

  /** What the projection shows of a payment that only a failure was reported of. */
  function ShownFailed(status: IntentStatus, hops: int): Projection.Columns
  {
    Projection.Columns("UNKNOWN", "UNKNOWN", 0, StatusName(status), hops)
  }

  lemma FailureShows(ds: seq<Projection.Delivery>, events: seq<Projection.Event>, db: Db, p: Payload,
                     status: IntentStatus, hops: int, saved: Accepted)
    requires saved.message && ToldAndStored(ds, events, db, p, status, hops, saved)
    ensures Projection.RowOf(Projection.HandleAll(ds).rows, p.txn) == Some(ShownFailed(status, hops))
  {
    hide Projection.HandleAll, Projection.Told, Projection.RowOf, Projection.StoredFacts, StatusName;
    Projection.TablesAgreeOn(ds, events, p.txn);
    assert Projection.Told(ds, p.txn) == [FactOf(FailedNotice(p.txn, status, hops))];
    Projection.SummaryShape(Projection.Told(ds, p.txn));
  }

  /**
   * When the money has moved and PUBLISH failed, the only message about the payment is that it
   * failed. The projection shows it so, from nobody to nobody for nothing, and so does a rebuild.
   */
  lemma PaidButShownFailed(steps: seq<Step>, p: Payload, now: int, down: nat -> bool, status: IntentStatus, hops: int,
                           saved: Accepted, ds: seq<Projection.Delivery>, events: seq<Projection.Event>)
    requires var db := Run(INIT, steps).db; Admits(db, p, now) && Sum(Worth(db.accounts)) <= MAX_INT64
    requires Ready(Run(INIT, steps).db, p) && DownAtPublish(down) && saved.message && saved.event
    requires var db := Run(INIT, steps).db;
             ToldAndStored(ds, events, LoneOutcome(db, p, db.tokens[p.token].value, down).state, p, status, hops, saved)
    ensures var db := Run(INIT, steps).db;
            Settles(db, LoneOutcome(db, p, db.tokens[p.token].value, down).state, p, db.tokens[p.token].value)
    ensures Projection.RowOf(Projection.HandleAll(ds).rows, p.txn) == Some(ShownFailed(status, hops))
    ensures Projection.RowOf(Projection.ReplayAll(events), p.txn) == Some(ShownFailed(status, hops))
  {
    hide Run, Sum, Worth, LoneOutcome, Ready, StatusName;
    hide Projection.HandleAll, Projection.ReplayAll, Projection.Told, Projection.RowOf, Projection.StoredFacts;
    var db := Run(INIT, steps).db;
    var state := LoneOutcome(db, p, db.tokens[p.token].value, down).state;
    PaidButFailedExactly(steps, p, now, down);
    FailureShows(ds, events, state, p, status, hops, saved);
    Projection.TablesAgreeOn(ds, events, p.txn);
    assert Recorded(state, p, status, saved) == state;
    assert Projection.Told(ds, p.txn) == Projection.StoredFacts(events, p.txn);
  }

  /** The settlement that was reported failed stands in every continuation of the run that made it. */
  lemma PaidStands(steps: seq<Step>, i: nat, down: nat -> bool, rest: seq<Step>) returns (more: seq<Step>)
    requires var s := Run(INIT, steps);
             && i in s.sagas && s.sagas[i].alive && s.sagas[i].pc == Pc.Forward(0)
             && Chain(s.db, s.sagas[i].p, s.sagas[i].value).Some? && DownAtPublish(down)
    ensures var s, s' := Run(INIT, steps), Run(INIT, steps + more);
            && s'.db == LoneOutcome(s.db, s.sagas[i].p, s.sagas[i].value, down).state
            && i in s'.sagas && s'.sagas[i].pc == Halted(3)
    ensures var p := Run(INIT, steps).sagas[i].p;
            SettlementGroup(Group(Run(INIT, steps + more + rest).db.ledger, p.txn), p)
  {
    hide Run, LoneOutcome, Chain, SettlementGroup, Group, OwnsRows;
    var s := Run(INIT, steps);
    var p, value := s.sagas[i].p, s.sagas[i].value;
    more := MachineRunsTheOrchestrator(s, i, down);
    RunConcat(INIT, steps, more);
    FailedButWritten(s.db, p, value, down);
    Continue(steps, more);
    SettlementIsFinal(steps + more, rest, i);
  }

  /**
   * A payment that is refused while no token is named UNKNOWN is reported but leaves no event,
   * and from then on the rebuild tool fails.
   */
  lemma RefusedPaymentStopsRebuild(db: Db, p: Payload, status: IntentStatus, hops: int, saved: Accepted,
                                   ds: seq<Projection.Delivery>, events: seq<Projection.Event>)
    requires p.txn !in db.intents && UNKNOWN_TOKEN !in db.tokens && saved.message
    requires ToldAndStored(ds, events, db, p, status, hops, saved)
    ensures !Projection.Verified(Projection.HandleAll(ds).rows, Projection.ReplayAll(events))
  {
    hide Projection.HandleAll, Projection.ReplayAll, Projection.Told, Projection.StoredFacts, Projection.Verified;
    assert |FactsOf(FailureMessages(p, status, hops, saved))| == 1;
    Projection.UnstoredPaymentFails(ds, events, p.txn);
  }

  /** A failure is shown by the name of its status, and different statuses by different names. */
  lemma StatusNames(a: IntentStatus, b: IntentStatus)
    ensures StatusName(a) == StatusName(b) ==> a == b
    ensures StatusName(IntentStatus.Failed) == "FAILED" && StatusName(Rejected) == "REJECTED"
    ensures StatusName(Duplicate) == "DUPLICATE" && StatusName(IntentStatus.Expired) == "EXPIRED"
  {
  }

  /** Recording the failure of a payment is a run of the machine, so every guarantee holds after it. */
  lemma FailureIsARun(s: State, p: Payload, status: IntentStatus, saved: Accepted)
    ensures Run(s, if saved.intent then [SaveFailed(p.txn, p.nonce, status)] else []) ==
            s.(db := Recorded(s.db, p, status, saved))
  {
    hide ActionTx, UndoTx;
    assert [SaveFailed(p.txn, p.nonce, status)][..0] == [];
  }

  /** A settlement that completed is announced, and shown with its parties and its amount. */
  lemma CompletedIsShown(p: Payload, hops: int, ds: seq<Projection.Delivery>, events: seq<Projection.Event>)
    requires Projection.Told(ds, p.txn) == FactsOf([Success(p, hops)])
    requires Projection.StoredFacts(events, p.txn) == FactsOf([Success(p, hops)])
    ensures var shown := Some(Projection.Columns(p.sender, p.receiver, p.amount, "SETTLED", hops));
            && Projection.RowOf(Projection.HandleAll(ds).rows, p.txn) == shown
            && Projection.RowOf(Projection.ReplayAll(events), p.txn) == shown
  {
    hide Projection.HandleAll, Projection.ReplayAll, Projection.Told, Projection.RowOf, Projection.StoredFacts;
    Projection.TablesAgreeOn(ds, events, p.txn);
    assert FactsOf([Success(p, hops)]) == [FactOf(Success(p, hops))];
    Projection.SummaryShape(Projection.Told(ds, p.txn));
  }
}
