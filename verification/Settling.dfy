/** When a settlement goes through, and what it then does. */
module Settling {
  import opened Basics
  import opened Sums
  import opened Tables
  import opened Transactions
  import opened Machine
  import opened Orchestrator
  import opened Services
  import opened Invariants
  import opened Effects
  import opened Guarantees

  /** What an admitted payment still needs: a token nobody holds, a new transaction and nonce, a payee, an amount. */
  predicate Ready(db: Db, p: Payload)
  {
    && p.token in db.tokens && db.tokens[p.token].status == Issued
    && p.txn !in db.intents && p.nonce !in db.nonces
    && p.receiver in db.accounts && p.amount > 0
  }

  /** The three steps that write tables, one after the other. */
  function Chain(db: Db, p: Payload, value: int64): Option<Db>
  {
    var reserved := ReserveTx(db, p, value);
    if reserved.None? then None
    else
      var held := HoldTx(reserved.value, p);
      if held.None? then None else CommitTx(held.value, p, value)
  }

  predicate Up(down: nat -> bool)
  {
    !down(0) && !down(1) && !down(2) && !down(3)
  }

  lemma OutcomeIsChain(db: Db, p: Payload, value: int64, down: nat -> bool)
    ensures var o := LoneOutcome(db, p, value, down);
            && (o.status == Completed <==> Up(down) && Chain(db, p, value).Some?)
            && (o.status == Completed ==> Some(o.state) == Chain(db, p, value))
  {
    hide ReserveTx, HoldTx, CommitTx, Backward;
    var steps := SettlementSteps(p, value);
    var r0 := Attempt(steps[0].action, db, down, 0);
    if r0.None? {
      BackwardStops(db, steps, 0, 0, down, 1);
    } else {
      var r1 := Attempt(steps[1].action, r0.value, down, 1);
      if r1.None? {
        BackwardStops(r0.value, steps, 1, 0, down, 2);
      } else {
        var r2 := Attempt(steps[2].action, r1.value, down, 2);
        if r2.None? {
          BackwardStops(r1.value, steps, 2, 0, down, 3);
        } else if down(3) {
          BackwardStops(r2.value, steps, 3, 0, down, 4);
        }
      }
    }
  }

  lemma ChainSucceeds(db: Db, p: Payload, value: int64)
    requires AccountsOk(db.accounts) && p.sender in db.accounts && p.token in db.tokens && p.amount <= value
    requires db.tokens[p.token].status == Issued ==> value <= db.accounts[p.sender].reserved
    requires ReservationKey(p.token) in db.intents && value > 0
    requires Sum(Worth(db.accounts)) <= MAX_INT64
    ensures Chain(db, p, value).Some? <==> Ready(db, p)
  {
    hide Sum;
    if Ready(db, p) {
      WorthBounds(db.accounts, p.sender, p.receiver);
      var held := HoldTx(ReserveTx(db, p, value).value, p).value;
      CommitGoesThrough(held, p, value);
    }
  }

  /**
   * The payment is made: the token's value is freed, `p.amount` goes to the receiver and the
   * change back to the sender. If they are the same account, it only gains `p.amount`.
   */
  predicate Settles(db: Db, db': Db, p: Payload, value: int64)
  {
    && 0 < p.amount <= value
    && OnlyTouches(db.accounts, db'.accounts, {p.sender, p.receiver})
    && (p.sender != p.receiver ==>
          && Moves(db.accounts, db'.accounts, p.sender, value - p.amount, -value)
          && Moves(db.accounts, db'.accounts, p.receiver, p.amount, 0))
    && (p.sender == p.receiver ==> Moves(db.accounts, db'.accounts, p.sender, p.amount, 0))
    && p.token in db'.tokens && db'.tokens[p.token].status == Consumed && db'.tokens[p.token].consumed
    && (forall t :: t in db.tokens && t != p.token ==> t in db'.tokens && db'.tokens[t] == db.tokens[t])
    && p.txn in db'.intents && db'.intents[p.txn].status == IntentStatus.Settled
    && db'.nonces == db.nonces[p.nonce := p.txn]
    && db.ledger <= db'.ledger && |db'.ledger| == |db.ledger| + 3
  }

  lemma ChainSettles(db: Db, p: Payload, value: int64, db': Db)
    requires AccountsOk(db.accounts) && p.amount <= value && Chain(db, p, value) == Some(db')
    ensures Settles(db, db', p, value)
  {
    var held := HoldTx(ReserveTx(db, p, value).value, p).value;
    CommitEffect(held, p, value, db');
  }

  lemma ReadyExactly(steps: seq<Step>, p: Payload, now: int)
    requires var db := Run(INIT, steps).db; Admits(db, p, now) && Sum(Worth(db.accounts)) <= MAX_INT64
    ensures var db := Run(INIT, steps).db;
            var value := db.tokens[p.token].value;
            && (Chain(db, p, value).Some? <==> Ready(db, p))
            && (Ready(db, p) ==> Settles(db, Chain(db, p, value).value, p, value))
            && p.sender in db.accounts
            && (db.tokens[p.token].status == Issued ==> value <= db.accounts[p.sender].reserved)
  {
    hide Run, Sum, Worth, AccountsOk, HistoryOk, SagasOk, Exclusive, Books;
    hide Parity, Conserved, Chain, Ready, Settles;
    var s := Run(INIT, steps);
    Reachable(steps);
    var value := s.db.tokens[p.token].value;
    PlaceholderKept(s.db, p.token);
    if s.db.tokens[p.token].status == Issued {
      ReservationHolds(s, p.token);
    }
    OwnerExists(s, p.token);
    ChainSucceeds(s.db, p, value);
    if Chain(s.db, p, value).Some? {
      ChainSettles(s.db, p, value, Chain(s.db, p, value).value);
    }
  }

  /**
   * In every reachable state whose money fits in 64 bits, settling an admitted payment alone
   * completes if and only if it is ready and the database stays up, and then it pays.
   */
  lemma SettlesExactly(steps: seq<Step>, p: Payload, now: int, down: nat -> bool)
    requires var db := Run(INIT, steps).db; Admits(db, p, now) && Sum(Worth(db.accounts)) <= MAX_INT64
    ensures var db := Run(INIT, steps).db;
            var o := LoneOutcome(db, p, db.tokens[p.token].value, down);
            && (o.status == Completed <==> Ready(db, p) && Up(down))
            && (o.status == Completed ==> Settles(db, o.state, p, db.tokens[p.token].value))
  {
    hide Run, Sum, Worth, LoneOutcome, Chain, Ready, Settles, Up;
    var db := Run(INIT, steps).db;
    ReadyExactly(steps, p, now);
    OutcomeIsChain(db, p, db.tokens[p.token].value, down);
  }

  lemma OwnerExists(s: State, t: string)
    requires TokensOk(s.db) && t in s.db.tokens
    ensures s.db.tokens[t].owner in s.db.accounts
  {
  }

  // ---- The payment that creates money ----

  const TO_SELF: Payload := Payload("txn", "a", "a", 5, "nonce", "t")

  /** An account was opened with 10 and has reserved 5 in a token. */
  predicate Funded(s: State)
  {
    && s.minted == map["a" := 10] && s.db.accounts == map["a" := Balance(5, 5)]
    && "t" in s.db.tokens && s.db.tokens["t"] == Token("a", 5, 1, false, false, Issued)
    && ReservationKey("t") in s.db.intents && TO_SELF.txn !in s.db.intents && TO_SELF.nonce !in s.db.nonces
    && s.sagas == map[]
  }

  lemma FundedSteps()
    ensures Funded(Apply(Apply(INIT, OpenAccount("a", 10)), IssueToken("t", "a", 5, 1)))
  {
    var s := Apply(Apply(INIT, OpenAccount("a", 10)), IssueToken("t", "a", 5, 1));
    assert s.db.intents.Keys == {ReservationKey("t")} && ReservationKey("t")[3] == '-';
  }

  /** The next three transactions of the self-payment go through. */
  lemma SelfPaymentSteps(s: State)
    requires Funded(s)
    ensures var s1 := Apply(s, Begin(0, TO_SELF, 0));
            var s2 := Apply(s1, Advance(0, false));
            var s3 := Apply(s2, Advance(0, false));
            var s4 := Apply(s3, Advance(0, false));
            0 in s4.sagas && Committed(s4.sagas[0]) && s4.minted == s.minted
                && s4.db.accounts == map["a" := Balance(10, 5)]
  {
    hide UndoTx, SaveFailedTx, ReleaseTx, IssueTx, CreateAccountTx, ExpireIntentTx;
    var s1 := Apply(s, Begin(0, TO_SELF, 0));
    var s2 := Apply(s1, Advance(0, false));
    assert s2.sagas[0].pc == Machine.Forward(1);
    var s3 := Apply(s2, Advance(0, false));
    assert s3.sagas[0].pc == Machine.Forward(2);
  }

  /** Every one of those steps is taken: the payment commits, and turns 10 into 15. */
  lemma SelfPaymentCreatesMoney() returns (steps: seq<Step>)
    ensures var s := Run(INIT, steps);
            0 in s.sagas && Committed(s.sagas[0]) && s.minted == map["a" := 10]
                && s.db.accounts == map["a" := Balance(10, 5)]
  {
    hide Apply;
    FundedSteps();
    SelfPaymentSteps(Apply(Apply(INIT, OpenAccount("a", 10)), IssueToken("t", "a", 5, 1)));
    steps := [];
    RunOneMore(INIT, steps, OpenAccount("a", 10));
    steps := steps + [OpenAccount("a", 10)];
    RunOneMore(INIT, steps, IssueToken("t", "a", 5, 1));
    steps := steps + [IssueToken("t", "a", 5, 1)];
    RunOneMore(INIT, steps, Begin(0, TO_SELF, 0));
    steps := steps + [Begin(0, TO_SELF, 0)];
    RunOneMore(INIT, steps, Advance(0, false));
    steps := steps + [Advance(0, false)];
    RunOneMore(INIT, steps, Advance(0, false));
    steps := steps + [Advance(0, false)];
    RunOneMore(INIT, steps, Advance(0, false));
    steps := steps + [Advance(0, false)];
  }
}
