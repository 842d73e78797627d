/** Which payments `Settle` lets in, over every run. */
module Admission {
  import opened Basics
  import opened Tables
  import opened Transactions
  import opened Machine
  import opened Invariants
  import StepProof
  import opened Services
  import opened Guarantees
  import opened Permanence
  import opened Settling

  /** A payment is processed exactly if its intent has left the states in which it can still settle. */
  lemma ProcessedExactly(db: Db, txn: string)
    ensures AlreadyProcessed(db, txn) <==>
            && txn in db.intents
            && db.intents[txn].status !in {Created, Signed, Encrypted, Broadcast, Relayed, Validated,
                                           IntentStatus.Reserved, Expired, Reconciled}
  {
    if txn in db.intents {
      match db.intents[txn].status
      case Settled => case Rejected => case Failed => case Duplicate => case Created => case Signed => case Encrypted =>
      case Broadcast => case Relayed => case Validated => case Reserved => case Expired => case Reconciled =>
    }
  }

  /** A payment that has settled, or whose failure was recorded, is a duplicate from then on. */
  lemma RepeatIsDuplicate(db: Db, p: Payload, value: int64, status: IntentStatus, saved: Accepted)
    ensures Chain(db, p, value).Some? ==> AlreadyProcessed(Chain(db, p, value).value, p.txn)
    ensures && saved.intent && p.txn !in db.intents && "UNKNOWN" in db.tokens
            && status in {Rejected, Failed, Duplicate} ==>
              AlreadyProcessed(Recorded(db, p, status, saved), p.txn)
  {
  }

  /** The token row lets the payment in at time `now`. */
  predicate Covers(tok: Token, p: Payload, now: int)
  {
    tok.owner == p.sender && now <= tok.expiry && !tok.consumed && p.amount <= tok.value
  }

  /** A saga begins exactly for a token of the sender that is not expired, not consumed and worth enough. */
  lemma BeginsExactly(s: State, i: nat, p: Payload, now: int)
    ensures var s' := Apply(s, Begin(i, p, now));
            if i !in s.sagas && p.token in s.db.tokens && Covers(s.db.tokens[p.token], p, now)
            then s' == s.(sagas := s.sagas[i := Saga(p, s.db.tokens[p.token].value, Forward(0), true)])
            else s' == s
  {
  }

  /** Some step began the saga while the token `tok` let it in. */
  predicate Begun(steps: seq<Step>, i: nat, p: Payload, tok: Token)
  {
    exists k :: 0 <= k < |steps| && BeganBy(steps[k], i, p, tok)
  }

  predicate BeganBy(step: Step, i: nat, p: Payload, tok: Token)
  {
    && step.Begin? && step.saga == i && step.p == p
    && tok.owner == p.sender && step.now <= tok.expiry && p.amount <= tok.value
  }

  lemma BegunStays(steps: seq<Step>, i: nat, p: Payload, tok: Token, tok': Token)
    requires |steps| > 0 && Begun(steps[..|steps| - 1], i, p, tok) && TokenLater(tok, tok')
    ensures Begun(steps, i, p, tok')
  {
    var k :| 0 <= k < |steps| - 1 && BeganBy(steps[..|steps| - 1][k], i, p, tok);
    assert BeganBy(steps[k], i, p, tok');
  }

  lemma NewSagaBegan(s: State, step: Step, i: nat)
    requires i in Apply(s, step).sagas && i !in s.sagas
    ensures Apply(s, step).sagas[i].p.token in s.db.tokens && Apply(s, step).db == s.db
    ensures BeganBy(step, i, Apply(s, step).sagas[i].p, s.db.tokens[Apply(s, step).sagas[i].p.token])
  {
    hide ActionTx, UndoTx, IssueTx, ReleaseTx, CreateAccountTx, SaveFailedTx, ExpireIntentTx;
  }

  /**
   * In every run each saga, and so each settlement, was begun for a token of its sender, worth the
   * amount, at a time not after the token's expiry.
   */
  lemma {:induction false} NothingBeginsExpired(steps: seq<Step>, i: nat)
    requires i in Run(INIT, steps).sagas
    ensures var s := Run(INIT, steps);
            s.sagas[i].p.token in s.db.tokens && Begun(steps, i, s.sagas[i].p, s.db.tokens[s.sagas[i].p.token])
  {
    hide Apply, Begun, BeganBy, TokenLater, AccountsOk, TokensOk, HistoryOk, SagasOk, Exclusive, Books, Money;
    if |steps| != 0 {
      var front, last := steps[..|steps| - 1], steps[|steps| - 1];
      var s := Run(INIT, front);
      Reachable(front);
      StepIsLater(s, last);
      if i in s.sagas {
        NothingBeginsExpired(front, i);
        var t := s.sagas[i].p.token;
        BegunStays(steps, i, s.sagas[i].p, s.db.tokens[t], Run(INIT, steps).db.tokens[t]);
      } else {
        NewSagaBegan(s, last, i);
        JustBegun(steps, i, Run(INIT, steps).sagas[i].p, s.db.tokens[Run(INIT, steps).sagas[i].p.token]);
      }
    }
  }

  lemma JustBegun(steps: seq<Step>, i: nat, p: Payload, tok: Token)
    requires |steps| > 0 && BeganBy(steps[|steps| - 1], i, p, tok)
    ensures Begun(steps, i, p, tok)
  {
  }

  // ---- The intent says what was paid ----

  predicate Describes(intent: Intent, p: Payload)
  {
    && intent.sender == p.sender && intent.receiver == p.receiver && intent.amount == p.amount
    && intent.nonce == p.nonce && intent.token == p.token
  }

  /** The saga owns its intent, and the intent describes its payment. */
  predicate IntentOk(s: State, i: nat)
  {
    i in s.sagas && Standing(s.sagas[i]) >= 1 ==>
      s.sagas[i].p.txn in s.db.intents && Describes(s.db.intents[s.sagas[i].p.txn], s.sagas[i].p)
  }

  lemma ActionKeepsIntent(db: Db, k: nat, p: Payload, value: int64, q: Payload)
    requires q.txn in db.intents && Describes(db.intents[q.txn], q)
    ensures var r := ActionTx(db, k, p, value);
            r.Some? ==> q.txn in r.value.intents && Describes(r.value.intents[q.txn], q)
  {
  }

  lemma UndoKeepsIntent(db: Db, k: nat, p: Payload, value: int64, q: Payload)
    requires q.txn in db.intents && Describes(db.intents[q.txn], q) && k < 2 && (k == 0 ==> p.txn != q.txn)
    ensures var r := UndoTx(db, k, p, value);
            r.Some? ==> q.txn in r.value.intents && Describes(r.value.intents[q.txn], q)
  {
  }

  lemma ReserveDescribes(db: Db, p: Payload, value: int64)
    ensures var r := ActionTx(db, 0, p, value);
            r.Some? ==> p.txn in r.value.intents && Describes(r.value.intents[p.txn], p)
  {
  }

  lemma SagaKeepsIntent(s: State, i: nat, j: nat, down: bool)
    requires SagasOk(s) && Exclusive(s.sagas) && IntentOk(s, i) && j in s.sagas
    ensures IntentOk(AdvanceSaga(s, j, down), i)
  {
    hide ActionTx, UndoTx, Describes, OwnsRows;
    if i in s.sagas {
      var sg, q := s.sagas[j], s.sagas[i].p;
      assert SagaOk(s.db, sg) && (i == j || Apart(s.sagas[i], sg));
      ReserveDescribes(s.db, sg.p, sg.value);
      if Standing(s.sagas[i]) >= 1 {
        if sg.pc.Forward? {
          ActionKeepsIntent(s.db, sg.pc.n, sg.p, sg.value, q);
        } else if sg.pc.Undoing? && sg.pc.n == 3 {
          StepProof.UndoCommitBlocked(s, j);
          UndoOfCommit(s.db, sg.p, sg.value);
        } else if sg.pc.Undoing? && (sg.pc.n == 2 || i != j) {
          UndoKeepsIntent(s.db, sg.pc.n - 1, sg.p, sg.value, q);
        }
      }
    }
  }

  lemma StepKeepsIntent(s: State, step: Step, i: nat)
    requires SagasOk(s) && Exclusive(s.sagas) && IntentOk(s, i)
    ensures IntentOk(Apply(s, step), i)
  {
    hide AdvanceSaga, SagasOk, Exclusive;
    if step.Advance? && step.saga in s.sagas {
      SagaKeepsIntent(s, i, step.saga, step.down);
    }
  }

  /** In every run the intent of a saga that stands has the columns of its payment. */
  lemma {:induction false} IntentDescribesPayment(steps: seq<Step>, i: nat)
    ensures IntentOk(Run(INIT, steps), i)
  {
    hide Apply, IntentOk, AccountsOk, TokensOk, HistoryOk, SagasOk, Exclusive, Books, Money;
    if |steps| == 0 {
      NoIntents(i);
    } else {
      IntentDescribesPayment(steps[..|steps| - 1], i);
      Reachable(steps[..|steps| - 1]);
      StepKeepsIntent(Run(INIT, steps[..|steps| - 1]), steps[|steps| - 1], i);
    }
  }

  lemma NoIntents(i: nat)
    ensures IntentOk(INIT, i)
  {
  }

  /** So the intent of a settlement names the accounts that the ledger debited and credited, and the amount. */
  lemma IntentAgreesWithLedger(steps: seq<Step>, i: nat)
    requires i in Run(INIT, steps).sagas && Committed(Run(INIT, steps).sagas[i])
    ensures var s := Run(INIT, steps);
            var txn := s.sagas[i].p.txn;
            var g := Group(s.db.ledger, txn);
            && txn in s.db.intents && |g| == 2
            && var intent := s.db.intents[txn];
               && g[0].account == intent.sender && g[0].direction == Debit && g[0].amount == intent.amount
               && g[1].account == intent.receiver && g[1].direction == Credit && g[1].amount == intent.amount
  {
    hide Run, Group;
    IntentDescribesPayment(steps, i);
    SettlementIsAllOrNothing(steps, i);
  }
}
