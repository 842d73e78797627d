/** Every step keeps the ownership invariants. */
module RowsProof {
  import opened Basics
  import opened Tables
  import opened Transactions
  import opened Machine
  import opened Invariants
  import opened Effects

  /** Changing one saga keeps exclusion if the new saga is apart from all the others. */
  lemma ExclusiveUpdate(sagas: map<nat, Saga>, i: nat, sg: Saga)
    requires Exclusive(sagas)
    requires forall j :: j in sagas && j != i ==> Apart(sg, sagas[j])
    ensures Exclusive(sagas[i := sg])
  {
  }

  /** A saga that stands no higher than before stays apart from all the others. */
  lemma ExclusiveLower(sagas: map<nat, Saga>, i: nat, sg: Saga)
    requires Exclusive(sagas) && i in sagas
    requires sg.p == sagas[i].p && Standing(sg) <= Standing(sagas[i])
    ensures Exclusive(sagas[i := sg])
  {
  }

  /** The tables that matter to `sg` have only grown, and its token has at most been invalidated. */
  predicate Keeps(db: Db, db': Db, sg: Saga)
  {
    && db.accounts.Keys <= db'.accounts.Keys
    && db.intents.Keys <= db'.intents.Keys
    && db.tokens.Keys == db'.tokens.Keys
    && (sg.p.nonce in db.nonces ==> sg.p.nonce in db'.nonces && db'.nonces[sg.p.nonce] == db.nonces[sg.p.nonce])
    && (sg.p.token in db.tokens ==> TokenKeeps(db.tokens[sg.p.token], db'.tokens[sg.p.token]))
  }

  predicate TokenKeeps(tok: Token, tok': Token)
  {
    && tok'.owner == tok.owner && tok'.value == tok.value
    && (tok'.status == tok.status || (tok.status in {Issued, Held} && tok'.status == Invalidated))
  }

  lemma SagaKeeps(db: Db, db': Db, sg: Saga)
    requires SagaOk(db, sg) && Keeps(db, db', sg)
    ensures SagaOk(db', sg)
  {
  }

  lemma RowsOpenAccount(s: State, id: string, initial: int64)
    requires Rows(s)
    ensures Rows(Apply(s, OpenAccount(id, initial)))
  {
  }

  lemma RowsIssue(s: State, db: Db, id: string, owner: string, value: int64)
    requires Rows(s) && Issues(s.db, db, id, owner, value) && AccountsOk(db.accounts)
    ensures Rows(s.(db := db))
  {
  }

  lemma SagasAfterRelease(s: State, db: Db, id: string)
    requires SagasOk(s) && Releases(s.db, db, id)
    ensures SagasOk(s.(db := db))
  {
  }

  lemma RowsRelease(s: State, db: Db, id: string)
    requires Rows(s) && Releases(s.db, db, id) && AccountsOk(db.accounts)
    ensures Rows(s.(db := db))
  {
    hide SagaOk, Apart;
    SagasAfterRelease(s, db, id);
  }

  lemma RowsBegin(s: State, i: nat, p: Payload, now: int)
    requires Rows(s)
    ensures Rows(Apply(s, Begin(i, p, now)))
  {
  }

  lemma RowsCrash(s: State, i: nat)
    requires Rows(s)
    ensures Rows(Apply(s, Crash(i)))
  {
  }

  /** More intents, or other statuses, disturb nobody. */
  lemma RowsMoreIntents(s: State, intents: map<string, Intent>)
    requires Rows(s) && s.db.intents.Keys <= intents.Keys
    ensures Rows(s.(db := s.db.(intents := intents)))
  {
  }

  /** The saga moves to `pc` and the tables to `db`. */
  function Moved(s: State, i: nat, pc: Pc, db: Db): State
    requires i in s.sagas
  {
    s.(db := db, sagas := s.sagas[i := s.sagas[i].(pc := pc)])
  }

  lemma RowsFailed(s: State, i: nat, pc: Pc)
    requires Rows(s) && i in s.sagas && s.sagas[i].pc.n == pc.n
    requires pc.Undoing? ==> 1 <= pc.n <= 3
    ensures Rows(Moved(s, i, pc, s.db))
  {
    ExclusiveLower(s.sagas, i, s.sagas[i].(pc := pc));
  }

  /** RESERVE inserts rows that nobody owned, and disturbs nobody else's. */
  lemma SagasAfterReserve(s: State, i: nat, db: Db)
    requires SagasOk(s) && TokensOk(s.db) && i in s.sagas && s.sagas[i].pc == Forward(0)
    requires ReserveTx(s.db, s.sagas[i].p, s.sagas[i].value) == Some(db)
    ensures SagasOk(Moved(s, i, Forward(1), db))
  {
  }

  lemma ExclusiveReserve(s: State, i: nat)
    requires SagasOk(s) && Exclusive(s.sagas) && i in s.sagas && s.sagas[i].pc == Forward(0)
    requires ReserveTx(s.db, s.sagas[i].p, s.sagas[i].value).Some?
    ensures Exclusive(s.sagas[i := s.sagas[i].(pc := Forward(1))])
  {
  }

  lemma RowsReserve(s: State, i: nat, db: Db)
    requires Rows(s) && i in s.sagas && s.sagas[i].pc == Forward(0)
    requires ReserveTx(s.db, s.sagas[i].p, s.sagas[i].value) == Some(db)
    ensures Rows(Moved(s, i, Forward(1), db))
  {
    hide SagaOk, Apart;
    SagasAfterReserve(s, i, db);
    ExclusiveReserve(s, i);
  }

  /** Holding an ISSUED token: no saga that stands higher than RESERVE can have been counting on it. */
  lemma SagasAfterHold(s: State, i: nat, db: Db)
    requires SagasOk(s) && i in s.sagas && s.sagas[i].pc == Forward(1)
    requires HoldTx(s.db, s.sagas[i].p) == Some(db)
    ensures SagasOk(Moved(s, i, Forward(2), db))
  {
  }

  lemma RowsHold(s: State, i: nat, db: Db)
    requires Rows(s) && i in s.sagas && s.sagas[i].pc == Forward(1)
    requires HoldTx(s.db, s.sagas[i].p) == Some(db)
    ensures Rows(Moved(s, i, Forward(2), db))
  {
    var sg := s.sagas[i].(pc := Forward(2));
    assert Exclusive(s.sagas[i := sg]) by {
      forall j | j in s.sagas && j != i
        ensures Apart(sg, s.sagas[j])
      {
        assert SagaOk(s.db, s.sagas[j]);
        assert Apart(s.sagas[i], s.sagas[j]);
      }
      ExclusiveUpdate(s.sagas, i, sg);
    }
    SagasAfterHold(s, i, db);
  }

  /** The commit of the saga that holds the token finds it HELD. */
  lemma CommitFindsHeld(s: State, i: nat)
    requires SagasOk(s) && i in s.sagas && s.sagas[i].pc == Forward(2)
    requires CommitTx(s.db, s.sagas[i].p, s.sagas[i].value).Some?
    ensures HeldIn(s.db, s.sagas[i].p.token)
  {
  }

  function AfterCommit(s: State, i: nat, db: Db): State
    requires i in s.sagas
  {
    var p := s.sagas[i].p;
    Moved(s, i, Forward(3), db).(selfPaid := if p.sender == p.receiver then s.selfPaid[p.token := p.amount]
        else s.selfPaid)
  }

  /** No other saga has got hold of the token, so none minds that it is now CONSUMED. */
  lemma SagasAfterCommit(s: State, i: nat, db: Db)
    requires SagasOk(s) && Exclusive(s.sagas) && i in s.sagas && s.sagas[i].pc == Forward(2)
    requires Commits(s.db, db, s.sagas[i].p, s.sagas[i].value)
    ensures SagasOk(AfterCommit(s, i, db))
  {
  }

  lemma TokensAfterCommit(s: State, i: nat, db: Db)
    requires TokensOk(s.db) && HistoryOk(s) && i in s.sagas
    requires Commits(s.db, db, s.sagas[i].p, s.sagas[i].value) && HeldIn(s.db, s.sagas[i].p.token)
    ensures TokensOk(db) && HistoryOk(AfterCommit(s, i, db))
  {
  }

  lemma RowsCommit(s: State, i: nat, db: Db)
    requires Rows(s) && i in s.sagas && s.sagas[i].pc == Forward(2)
    requires Commits(s.db, db, s.sagas[i].p, s.sagas[i].value) && HeldIn(s.db, s.sagas[i].p.token)
    requires AccountsOk(db.accounts)
    ensures Rows(AfterCommit(s, i, db))
  {
    var sg := s.sagas[i].(pc := Forward(3));
    assert Exclusive(s.sagas[i := sg]) by {
      forall j | j in s.sagas && j != i
        ensures Apart(sg, s.sagas[j])
      {
        assert Apart(s.sagas[i], s.sagas[j]);
      }
      ExclusiveUpdate(s.sagas, i, sg);
    }
    SagasAfterCommit(s, i, db);
    TokensAfterCommit(s, i, db);
  }

  lemma RowsPublish(s: State, i: nat)
    requires Rows(s) && i in s.sagas && s.sagas[i].pc == Forward(3)
    ensures Rows(Moved(s, i, Forward(4), s.db))
  {
  }

  /** Undoing RESERVE deletes rows that only this saga owned. */
  lemma SagasAfterUndoReserve(s: State, i: nat, db: Db)
    requires SagasOk(s) && Exclusive(s.sagas) && i in s.sagas && Standing(s.sagas[i]) == 1
    requires UndoReserveTx(s.db, s.sagas[i].p) == Some(db)
    ensures SagasOk(Moved(s, i, Halted(0), db))
  {
  }

  lemma RowsUndoReserve(s: State, i: nat, db: Db)
    requires Rows(s) && i in s.sagas && Standing(s.sagas[i]) == 1
    requires UndoReserveTx(s.db, s.sagas[i].p) == Some(db)
    ensures Rows(Moved(s, i, Halted(0), db))
  {
    assert SagaOk(s.db, s.sagas[i]);
    assert TokensOk(db);
    hide SagaOk, Apart, TokensOk;
    SagasAfterUndoReserve(s, i, db);
    ExclusiveLower(s.sagas, i, s.sagas[i].(pc := Halted(0)));
  }

  /** Invalidating a held token keeps the ownership invariants, whoever does it. */
  lemma RowsInvalidate(s: State, t: string, frozen: set<string>)
    requires Rows(s) && HeldIn(s.db, t)
    requires frozen == s.frozen + {t}
    ensures Rows(s.(db := s.db.(tokens := s.db.tokens[t := s.db.tokens[t].(released := true, status := Invalidated)]),
                    frozen := frozen))
  {
    hide SagaOk, Apart;
    var db := s.db.(tokens := s.db.tokens[t := s.db.tokens[t].(released := true, status := Invalidated)]);
    forall j | j in s.sagas
      ensures SagaOk(db, s.sagas[j])
    {
      SagaKeeps(s.db, db, s.sagas[j]);
    }
  }

  lemma RowsUndoHold(s: State, i: nat, db: Db)
    requires Rows(s) && i in s.sagas && Standing(s.sagas[i]) == 2
    requires UndoHoldTx(s.db, s.sagas[i].p) == Some(db)
    ensures Rows(Moved(s, i, Undoing(1, 0), db).(frozen :=
                   if HeldIn(s.db, s.sagas[i].p.token) then s.frozen + {s.sagas[i].p.token} else s.frozen))
  {
    var t := s.sagas[i].p.token;
    var m := Moved(s, i, Undoing(1, 0), s.db);
    assert Rows(m) by {
      assert SagaOk(s.db, s.sagas[i]);
      ExclusiveLower(s.sagas, i, m.sagas[i]);
    }
    if HeldIn(s.db, t) {
      RowsInvalidate(m, t, s.frozen + {t});
    }
  }
}
