/** Nothing is written without a lock: every row that a transaction changes is one that it locks. */
module LockCover {
  import opened Basics
  import opened Tables
  import opened Transactions
  import Locks

  /** The existing rows of `db` that are gone from `db'` or differ there are all among `rows`. */
  predicate Locked(db: Db, db': Db, rows: seq<Locks.Row>)
  {
    && (forall a :: a in db.accounts ==>
          (a in db'.accounts && db'.accounts[a] == db.accounts[a]) || Locks.AccountRow(a) in rows)
    && (forall t :: t in db.tokens ==>
          (t in db'.tokens && db'.tokens[t] == db.tokens[t]) || Locks.TokenRow(t) in rows)
    && (forall n :: n in db.nonces ==>
          (n in db'.nonces && db'.nonces[n] == db.nonces[n]) || Locks.NonceRow(n) in rows)
    && (forall x :: x in db.intents ==>
          (x in db'.intents && db'.intents[x] == db.intents[x]) || Locks.IntentRow(x) in rows)
  }

  /** The kind of transaction that an action of a settlement is. */
  function ActionKind(k: nat, p: Payload): Locks.Kind
    requires k < 3
  {
    if k == 0 then Locks.Reserve(p.sender, p.receiver)
    else if k == 1 then Locks.Hold(p.token)
    else Locks.Commit(p.token, p.sender, p.receiver, p.txn)
  }

  function UndoKind(k: nat, p: Payload): Locks.Kind
    requires k < 3
  {
    if k == 0 then Locks.UndoReserve(p.nonce, p.txn)
    else if k == 1 then Locks.UndoHold(p.token)
    else Locks.UndoCommit(p.sender, p.receiver, p.txn)
  }

  lemma ProgramRows(p: Payload)
    ensures Locks.TokenRow(p.token) in Locks.Program(ActionKind(1, p))
    ensures Locks.TokenRow(p.token) in Locks.Program(UndoKind(1, p))
    ensures var rows := Locks.Program(ActionKind(2, p));
            && Locks.TokenRow(p.token) in rows && Locks.IntentRow(p.txn) in rows
            && Locks.AccountRow(p.sender) in rows && Locks.AccountRow(p.receiver) in rows
    ensures var rows := Locks.Program(UndoKind(2, p));
            && Locks.IntentRow(p.txn) in rows
            && Locks.AccountRow(p.sender) in rows && Locks.AccountRow(p.receiver) in rows
    ensures var rows := Locks.Program(UndoKind(0, p)); Locks.NonceRow(p.nonce) in rows && Locks.IntentRow(p.txn) in rows
  {
    var commit, undo := Locks.Program(ActionKind(2, p)), Locks.Program(UndoKind(2, p));
    assert commit[3] == Locks.AccountRow(p.sender) && commit[4] == Locks.AccountRow(p.receiver);
    assert commit[0] == Locks.TokenRow(p.token) && commit[5] == Locks.IntentRow(p.txn);
    assert undo[2] == Locks.AccountRow(p.sender) && undo[3] == Locks.AccountRow(p.receiver);
    assert undo[4] == Locks.IntentRow(p.txn);
  }

  /** The actions of a settlement change only rows that they lock. */
  lemma ActionWritesAreLocked(db: Db, k: nat, p: Payload, value: int64)
    requires k < 3
    ensures var r := ActionTx(db, k, p, value); r.Some? ==> Locked(db, r.value, Locks.Program(ActionKind(k, p)))
  {
    hide Locks.Program;
    ProgramRows(p);
  }

  /** So do their compensations. */
  lemma UndoWritesAreLocked(db: Db, k: nat, p: Payload, value: int64)
    requires k < 3
    ensures var r := UndoTx(db, k, p, value); r.Some? ==> Locked(db, r.value, Locks.Program(UndoKind(k, p)))
  {
    hide Locks.Program, WithoutSettlement, NonceRefers, EntryRefers;
    ProgramRows(p);
  }

  /** So do issuing and releasing a token and expiring an intent. */
  lemma OtherWritesAreLocked(db: Db, id: string, owner: string, value: int64, expiry: int, txn: string)
    ensures var r := IssueTx(db, id, owner, value, expiry);
            r.Some? ==> Locked(db, r.value, Locks.Program(Locks.Issue(owner)))
    ensures var r := ReleaseTx(db, id);
            r.Some? && id in db.tokens ==> Locked(db, r.value, Locks.Program(Locks.Release(id, db.tokens[id].owner)))
    ensures Locked(db, ExpireIntentTx(db, txn), Locks.Program(Locks.Expire(txn)))
  {
  }
}
