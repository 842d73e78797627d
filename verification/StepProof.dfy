/** Every step keeps every invariant, so every run does. */
module StepProof {
  import opened Basics
  import opened Sums
  import opened Tables
  import opened Transactions
  import opened Machine
  import opened Invariants
  import opened Effects
  import opened RowsProof
  import opened BooksProof
  import opened MoneyProof

  lemma InvOpenAccount(s: State, id: string, initial: int64)
    requires Inv(s)
    ensures Inv(Apply(s, OpenAccount(id, initial)))
  {
    hide Rows, Books, Money;
    var s' := Apply(s, OpenAccount(id, initial));
    RowsOpenAccount(s, id, initial);
    MoneyOpenAccount(s, id, initial);
    assert SameBooks(s, s');
    BooksSame(s, s');
  }

  lemma InvIssue(s: State, id: string, owner: string, value: int64, expiry: int)
    requires Inv(s)
    ensures Inv(Apply(s, IssueToken(id, owner, value, expiry)))
  {
    hide IssueTx, Issues, Books, Money, AccountsOk, TokensOk, HistoryOk, SagasOk, Exclusive;
    var r := IssueTx(s.db, id, owner, value, expiry);
    if r.Some? {
      IssueEffect(s.db, id, owner, value, expiry, r.value);
      RowsIssue(s, r.value, id, owner, value);
      BooksIssue(s, r.value, id, owner, value);
      MoneyIssue(s, r.value, id, owner, value);
    }
  }

  lemma InvRelease(s: State, id: string)
    requires Inv(s)
    ensures Inv(Apply(s, ReleaseToken(id)))
  {
    hide ReleaseTx, Releases, Books, Money, AccountsOk, TokensOk, HistoryOk, SagasOk, Exclusive;
    var r := ReleaseTx(s.db, id);
    if r.Some? {
      ReleaseEffect(s.db, id, r.value);
      if !s.db.tokens[id].consumed && !s.db.tokens[id].released {
        RowsRelease(s, r.value, id);
        BooksRelease(s, r.value, id);
        MoneyRelease(s, r.value, id);
      }
    }
  }

  /** A step that only moves sagas below LEDGER_COMMIT, or writes intents, nonces and token statuses. */
  lemma InvQuiet(s: State, s': State)
    requires Inv(s) && Rows(s') && SameBooks(s, s')
    requires s'.db.accounts == s.db.accounts
    requires s'.minted == s.minted
    requires forall a, t :: t in s.db.tokens ==> LockAt(s', a, t) == LockAt(s, a, t)
    ensures Inv(s')
  {
    hide Rows, Books, Money;
    BooksSame(s, s');
    MoneySame(s, s');
  }

  lemma InvBegin(s: State, i: nat, p: Payload, now: int)
    requires Inv(s)
    ensures Inv(Apply(s, Begin(i, p, now)))
  {
    hide Rows, Books, Money;
    RowsBegin(s, i, p, now);
    InvQuiet(s, Apply(s, Begin(i, p, now)));
  }

  lemma InvCrash(s: State, i: nat)
    requires Inv(s)
    ensures Inv(Apply(s, Crash(i)))
  {
    hide Rows, Books, Money;
    RowsCrash(s, i);
    InvQuiet(s, Apply(s, Crash(i)));
  }

  lemma InvIntents(s: State, intents: map<string, Intent>)
    requires Inv(s) && s.db.intents.Keys <= intents.Keys
    ensures Inv(s.(db := s.db.(intents := intents)))
  {
    hide Rows, Books, Money;
    RowsMoreIntents(s, intents);
    InvQuiet(s, s.(db := s.db.(intents := intents)));
  }

  lemma InvFailed(s: State, i: nat, pc: Pc)
    requires Inv(s) && i in s.sagas && s.sagas[i].pc.n == pc.n
    requires pc.Undoing? ==> 1 <= pc.n <= 3
    ensures Inv(Moved(s, i, pc, s.db))
  {
    hide Rows, Books, Money;
    RowsFailed(s, i, pc);
    InvQuiet(s, Moved(s, i, pc, s.db));
  }

  lemma InvReserve(s: State, i: nat, db: Db)
    requires Inv(s) && i in s.sagas && s.sagas[i].pc == Forward(0)
    requires ReserveTx(s.db, s.sagas[i].p, s.sagas[i].value) == Some(db)
    ensures Inv(Moved(s, i, Forward(1), db))
  {
    hide Rows, Books, Money;
    RowsReserve(s, i, db);
    InvQuiet(s, Moved(s, i, Forward(1), db));
  }

  lemma InvHold(s: State, i: nat, db: Db)
    requires Inv(s) && i in s.sagas && s.sagas[i].pc == Forward(1)
    requires HoldTx(s.db, s.sagas[i].p) == Some(db)
    ensures Inv(Moved(s, i, Forward(2), db))
  {
    hide Rows, Books, Money;
    RowsHold(s, i, db);
    InvQuiet(s, Moved(s, i, Forward(2), db));
  }

  lemma InvCommit(s: State, i: nat, db: Db)
    requires Inv(s) && i in s.sagas && s.sagas[i].pc == Forward(2)
    requires CommitTx(s.db, s.sagas[i].p, s.sagas[i].value) == Some(db)
    ensures Inv(AfterCommit(s, i, db))
  {
    hide CommitTx, Commits, Books, Money, AccountsOk, TokensOk, HistoryOk, Exclusive;
    CommitFindsHeld(s, i);
    assert SagaOk(s.db, s.sagas[i]);
    CommitEffect(s.db, s.sagas[i].p, s.sagas[i].value, db);
    RowsCommit(s, i, db);
    BooksCommit(s, i, db);
    MoneyCommit(s, i, db);
  }

  lemma InvPublish(s: State, i: nat)
    requires Inv(s) && i in s.sagas && s.sagas[i].pc == Forward(3)
    ensures Inv(Moved(s, i, Forward(4), s.db))
  {
    hide Rows, Books, Money;
    RowsPublish(s, i);
    InvQuiet(s, Moved(s, i, Forward(4), s.db));
  }

  lemma InvUndoReserve(s: State, i: nat, db: Db)
    requires Inv(s) && i in s.sagas && Standing(s.sagas[i]) == 1
    requires UndoReserveTx(s.db, s.sagas[i].p) == Some(db)
    ensures Inv(Moved(s, i, Halted(0), db))
  {
    hide Rows, Books, Money;
    RowsUndoReserve(s, i, db);
    InvQuiet(s, Moved(s, i, Halted(0), db));
  }

  lemma InvUndoHold(s: State, i: nat, db: Db)
    requires Inv(s) && i in s.sagas && Standing(s.sagas[i]) == 2
    requires UndoHoldTx(s.db, s.sagas[i].p) == Some(db)
    ensures Inv(Moved(s, i, Undoing(1, 0), db).(frozen :=
                  if HeldIn(s.db, s.sagas[i].p.token) then s.frozen + {s.sagas[i].p.token} else s.frozen))
  {
    hide Rows, Books, Money;
    RowsUndoHold(s, i, db);
    InvQuiet(s, Moved(s, i, Undoing(1, 0), db).(frozen :=
                  if HeldIn(s.db, s.sagas[i].p.token) then s.frozen + {s.sagas[i].p.token} else s.frozen));
  }

  /** The nonce row that RESERVE inserted still references the intent, so undoing LEDGER_COMMIT fails. */
  lemma UndoCommitBlocked(s: State, i: nat)
    requires SagasOk(s) && i in s.sagas && Committed(s.sagas[i])
    ensures UndoCommitTx(s.db, s.sagas[i].p, s.sagas[i].value) == None
  {
  }

  lemma UndoingBounds(s: State, i: nat)
    requires Inv(s) && i in s.sagas && s.sagas[i].pc.Undoing?
    ensures SagasOk(s) && 1 <= Standing(s.sagas[i]) <= 3
  {
    hide Books, Money, AccountsOk, TokensOk, HistoryOk, Exclusive;
    assert SagaOk(s.db, s.sagas[i]);
  }

  lemma InvForward(s: State, i: nat, down: bool)
    requires Inv(s) && i in s.sagas && s.sagas[i].pc.Forward?
    ensures Inv(AdvanceSaga(s, i, down))
  {
    hide Inv, ReserveTx, HoldTx, CommitTx;
    var sg := s.sagas[i];
    var n := sg.pc.n;
    if n < STEPS {
      var r := if down then None else ActionTx(s.db, n, sg.p, sg.value);
      if r.None? {
        InvFailed(s, i, if n == 0 then Halted(0) else Undoing(n, 0));
      } else if n == 0 {
        InvReserve(s, i, r.value);
      } else if n == 1 {
        InvHold(s, i, r.value);
      } else if n == 2 {
        InvCommit(s, i, r.value);
      } else {
        InvPublish(s, i);
      }
    }
  }

  lemma InvUndoing(s: State, i: nat, down: bool)
    requires Inv(s) && i in s.sagas && s.sagas[i].pc.Undoing?
    ensures Inv(AdvanceSaga(s, i, down))
  {
    hide Inv, Rows, UndoReserveTx, UndoHoldTx, UndoCommitTx;
    var sg := s.sagas[i];
    var n, tries := sg.pc.n, sg.pc.tries;
    UndoingBounds(s, i);
    var r := if down then None else UndoTx(s.db, n - 1, sg.p, sg.value);
    if r.None? {
      InvFailed(s, i, if tries + 1 >= MAX_TRIES then Halted(n) else Undoing(n, tries + 1));
    } else if n == 1 {
      InvUndoReserve(s, i, r.value);
    } else if n == 2 {
      InvUndoHold(s, i, r.value);
    } else {
      UndoCommitBlocked(s, i);
      assert false;
    }
  }

  lemma InvStep(s: State, step: Step)
    requires Inv(s)
    ensures Inv(Apply(s, step))
  {
    hide Inv, IssueTx, ReleaseTx;
    match step
    case OpenAccount(id, initial) => InvOpenAccount(s, id, initial);
    case IssueToken(id, owner, value, expiry) => InvIssue(s, id, owner, value, expiry);
    case ReleaseToken(id) => InvRelease(s, id);
    case Begin(i, p, now) => InvBegin(s, i, p, now);
    case Crash(i) => InvCrash(s, i);
    case SaveFailed(txn, nonce, status) => InvIntents(s, SaveFailedTx(s.db, txn, nonce, status).intents);
    case ExpireIntent(txn) => InvIntents(s, ExpireIntentTx(s.db, txn).intents);
    case Advance(i, down) =>
      if i in s.sagas && s.sagas[i].alive {
        if s.sagas[i].pc.Forward? {
          InvForward(s, i, down);
        } else if s.sagas[i].pc.Undoing? {
          InvUndoing(s, i, down);
        }
      }
  }

  lemma InvInit()
    ensures Inv(INIT)
  {
  }

  /** Every reachable state, of every interleaving with crashes and failures, satisfies every invariant. */
  lemma {:induction false} InvRun(s: State, steps: seq<Step>)
    requires Inv(s)
    ensures Inv(Run(s, steps))
    decreases |steps|
  {
    if |steps| != 0 {
      hide Inv;
      InvRun(s, steps[..|steps| - 1]);
      InvStep(Run(s, steps[..|steps| - 1]), steps[|steps| - 1]);
    }
  }
}
