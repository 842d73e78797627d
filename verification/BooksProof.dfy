/** Every step keeps the ledger invariants. */
module BooksProof {
  import opened Basics
  import opened Tables
  import opened Transactions
  import opened Machine
  import opened Invariants
  import opened Effects
  import opened RowsProof

  /** Tokens and accounts only join, committed sagas stay, and no resolved token reopens. */
  predicate Grows(s: State, s': State)
  {
    && s.db.accounts.Keys <= s'.db.accounts.Keys
    && s.db.tokens.Keys <= s'.db.tokens.Keys
    && (forall t :: t in s.db.tokens && !Open(s, t) ==> !Open(s', t))
    && (forall i :: i in s.sagas && Committed(s.sagas[i]) ==>
          i in s'.sagas && Committed(s'.sagas[i]) && s'.sagas[i].p == s.sagas[i].p)
  }

  lemma EntriesKept(s: State, s': State, added: seq<Entry>)
    requires EntriesOk(s) && Grows(s, s')
    requires s'.db.ledger == s.db.ledger + added
    requires forall e :: e in added ==> EntryOk(s', e)
    ensures EntriesOk(s')
  {
  }

  /** Nothing that the ledger invariants look at has changed, except perhaps the accounts that joined. */
  predicate SameBooks(s: State, s': State)
  {
    && s'.db.ledger == s.db.ledger
    && s'.selfPaid == s.selfPaid
    && s.db.accounts.Keys <= s'.db.accounts.Keys
    && s'.db.tokens.Keys == s.db.tokens.Keys
    && (forall t :: t in s.db.tokens ==>
          && s'.db.tokens[t].owner == s.db.tokens[t].owner
          && s'.db.tokens[t].value == s.db.tokens[t].value
          && Open(s', t) == Open(s, t))
    && (forall i :: i in s.sagas && Committed(s.sagas[i]) ==>
          i in s'.sagas && Committed(s'.sagas[i]) && s'.sagas[i].p == s.sagas[i].p)
    && (forall i :: i in s'.sagas && Committed(s'.sagas[i]) ==>
          i in s.sagas && Committed(s.sagas[i]))
  }

  lemma BooksSame(s: State, s': State)
    requires Books(s) && SameBooks(s, s')
    ensures Books(s')
  {
  }

  /** A ledger transaction that belongs to nobody has no entries. */
  lemma UnusedKey(s: State, txn: string)
    requires EntriesOk(s) && !Accounted(s, txn)
    ensures Group(s.db.ledger, txn) == []
  {
    forall e | e in s.db.ledger
      ensures e.txn != txn
    {
      assert EntryOk(s, e);
    }
    GroupEmpty(s.db.ledger, txn);
  }

  // ---- Issue ----

  lemma NewKeyUnused(s: State, id: string)
    requires Rows(s) && id !in s.db.tokens && ReservationKey(id) !in s.db.intents
    ensures !Accounted(s, ReservationKey(id))
  {
  }

  lemma BooksIssue(s: State, db: Db, id: string, owner: string, value: int64)
    requires Rows(s) && Books(s) && Issues(s.db, db, id, owner, value)
    ensures Books(s.(db := db))
  {
    var s' := s.(db := db);
    var e := ReservationEntry(id, owner, value, db.accounts[owner].available);
    NewKeyUnused(s, id);
    UnusedKey(s, ReservationKey(id));
    assert id !in s.frozen;
    assert Accounted(s', e.txn);
    EntriesKept(s, s', [e]);
    forall t | t in db.tokens
      ensures TokenGroup(Group(db.ledger, ReservationKey(t)), db.tokens[t], Open(s', t))
    {
      GroupAppend(s.db.ledger, e, ReservationKey(t));
    }
    forall i | i in s.sagas && Committed(s.sagas[i])
      ensures SettlementGroup(Group(db.ledger, s.sagas[i].p.txn), s.sagas[i].p)
    {
      assert SagaOk(s.db, s.sagas[i]);
      GroupAppend(s.db.ledger, e, s.sagas[i].p.txn);
    }
  }

  // ---- Release ----

  lemma BooksRelease(s: State, db: Db, id: string)
    requires Rows(s) && Books(s) && Releases(s.db, db, id)
    ensures Books(s.(db := db))
  {
    var s' := s.(db := db);
    var tok := s.db.tokens[id];
    var e := ReleaseEntry(id, tok.owner, tok.value, db.accounts[tok.owner].available);
    assert id !in s.frozen;
    assert Accounted(s', e.txn);
    EntriesKept(s, s', [e]);
    forall t | t in db.tokens
      ensures TokenGroup(Group(db.ledger, ReservationKey(t)), db.tokens[t], Open(s', t))
    {
      GroupAppend(s.db.ledger, e, ReservationKey(t));
      assert TokenGroup(Group(s.db.ledger, ReservationKey(t)), s.db.tokens[t], Open(s, t));
    }
    forall i | i in s.sagas && Committed(s.sagas[i])
      ensures SettlementGroup(Group(db.ledger, s.sagas[i].p.txn), s.sagas[i].p)
    {
      assert SagaOk(s.db, s.sagas[i]);
      GroupAppend(s.db.ledger, e, s.sagas[i].p.txn);
    }
  }

  // ---- LEDGER_COMMIT ----

  lemma GroupAppend3(ledger: seq<Entry>, d: Entry, c: Entry, r: Entry, txn: string)
    ensures Group(ledger + [d] + [c] + [r], txn) ==
            Group(ledger, txn) + (if d.txn == txn then [d] else [])
                               + (if c.txn == txn then [c] else [])
                               + (if r.txn == txn then [r] else [])
  {
    GroupAppend(ledger, d, txn);
    GroupAppend(ledger + [d], c, txn);
    GroupAppend(ledger + [d] + [c], r, txn);
  }

  /** The transaction of a saga that has not committed has no ledger entries yet. */
  lemma UncommittedTxnUnused(s: State, i: nat)
    requires Rows(s) && i in s.sagas && 1 <= Standing(s.sagas[i]) < 3
    ensures !Accounted(s, s.sagas[i].p.txn)
  {
  }

  /** The entries that LEDGER_COMMIT wrote. */
  function CommitEntries(s: State, i: nat, db: Db): (es: (Entry, Entry, Entry))
    requires i in s.sagas && Commits(s.db, db, s.sagas[i].p, s.sagas[i].value)
    ensures db.ledger == s.db.ledger + [es.0] + [es.1] + [es.2]
  {
    var n := |s.db.ledger|;
    (db.ledger[n], db.ledger[n + 1], db.ledger[n + 2])
  }

  lemma TokenGroupsCommit(s: State, i: nat, db: Db)
    requires TokensOk(s.db) && HistoryOk(s) && TokenGroupsOk(s)
    requires i in s.sagas && s.sagas[i].pc == Forward(2) && SagaOk(s.db, s.sagas[i])
    requires Commits(s.db, db, s.sagas[i].p, s.sagas[i].value) && HeldIn(s.db, s.sagas[i].p.token)
    ensures TokenGroupsOk(AfterCommit(s, i, db))
  {
    var s' := AfterCommit(s, i, db);
    var p := s.sagas[i].p;
    var (d, c, r) := CommitEntries(s, i, db);
    assert p.token !in s.frozen;
    forall t | t in db.tokens
      ensures TokenGroup(Group(db.ledger, ReservationKey(t)), db.tokens[t], Open(s', t))
    {
      GroupAppend3(s.db.ledger, d, c, r, ReservationKey(t));
      assert TokenGroup(Group(s.db.ledger, ReservationKey(t)), s.db.tokens[t], Open(s, t));
    }
  }

  /** The settlement groups of the other sagas are left alone. */
  lemma OtherSettlement(s: State, i: nat, db: Db, j: nat)
    requires SettlementGroupsOk(s) && i in s.sagas && j in s.sagas && i != j && Committed(s.sagas[j])
    requires Standing(s.sagas[i]) == 2 && Apart(s.sagas[i], s.sagas[j])
    requires SagaOk(s.db, s.sagas[j]) && s.sagas[i].p.token in s.db.tokens
    requires Commits(s.db, db, s.sagas[i].p, s.sagas[i].value)
    ensures SettlementGroup(Group(db.ledger, s.sagas[j].p.txn), s.sagas[j].p)
  {
    var (d, c, r) := CommitEntries(s, i, db);
    GroupAppend3(s.db.ledger, d, c, r, s.sagas[j].p.txn);
  }

  lemma OwnSettlement(s: State, i: nat, db: Db)
    requires i in s.sagas && Group(s.db.ledger, s.sagas[i].p.txn) == []
    requires ReservationKey(s.sagas[i].p.token) != s.sagas[i].p.txn
    requires Commits(s.db, db, s.sagas[i].p, s.sagas[i].value)
    ensures SettlementGroup(Group(db.ledger, s.sagas[i].p.txn), s.sagas[i].p)
  {
    var (d, c, r) := CommitEntries(s, i, db);
    GroupAppend3(s.db.ledger, d, c, r, s.sagas[i].p.txn);
  }

  lemma SettlementGroupsCommit(s: State, i: nat, db: Db)
    requires Rows(s) && Books(s) && i in s.sagas && s.sagas[i].pc == Forward(2)
    requires Commits(s.db, db, s.sagas[i].p, s.sagas[i].value)
    ensures SettlementGroupsOk(AfterCommit(s, i, db))
  {
    var s' := AfterCommit(s, i, db);
    var p := s.sagas[i].p;
    assert SagaOk(s.db, s.sagas[i]);
    UncommittedTxnUnused(s, i);
    UnusedKey(s, p.txn);
    OwnSettlement(s, i, db);
    hide SettlementGroup, TokenGroup, EntryOk, SagaOk, Apart, Commits;
    forall j | j in s'.sagas && Committed(s'.sagas[j])
      ensures SettlementGroup(Group(db.ledger, s'.sagas[j].p.txn), s'.sagas[j].p)
    {
      if j != i {
        OtherSettlement(s, i, db, j);
      }
    }
  }

  lemma GrowsCommit(s: State, i: nat, db: Db)
    requires HistoryOk(s) && i in s.sagas && s.sagas[i].pc == Forward(2)
    requires Commits(s.db, db, s.sagas[i].p, s.sagas[i].value) && HeldIn(s.db, s.sagas[i].p.token)
    ensures Grows(s, AfterCommit(s, i, db))
  {
  }

  /** Each of the three entries is accounted for, and the release is of a token just resolved. */
  lemma CommitEntriesOk(s: State, i: nat, db: Db)
    requires HistoryOk(s) && i in s.sagas && s.sagas[i].pc == Forward(2)
    requires Commits(s.db, db, s.sagas[i].p, s.sagas[i].value) && HeldIn(s.db, s.sagas[i].p.token)
    ensures forall e :: e in [CommitEntries(s, i, db).0, CommitEntries(s, i, db).1, CommitEntries(s, i, db).2] ==>
                          EntryOk(AfterCommit(s, i, db), e)
  {
    var s' := AfterCommit(s, i, db);
    var p := s.sagas[i].p;
    assert s'.sagas[i].p.txn == p.txn && Committed(s'.sagas[i]);
    assert Accounted(s', p.txn);
    assert p.token in db.tokens && p.token !in s.frozen;
    assert Accounted(s', ReservationKey(p.token));
  }

  lemma EntriesCommit(s: State, i: nat, db: Db)
    requires Rows(s) && Books(s) && i in s.sagas && s.sagas[i].pc == Forward(2)
    requires Commits(s.db, db, s.sagas[i].p, s.sagas[i].value) && HeldIn(s.db, s.sagas[i].p.token)
    ensures EntriesOk(AfterCommit(s, i, db))
  {
    hide EntryOk, Grows, SagaOk, Apart, TokenGroup, SettlementGroup;
    var (d, c, r) := CommitEntries(s, i, db);
    GrowsCommit(s, i, db);
    CommitEntriesOk(s, i, db);
    assert db.ledger == s.db.ledger + [d, c, r];
    EntriesKept(s, AfterCommit(s, i, db), [d, c, r]);
  }

  lemma SelfPaidCommit(s: State, i: nat, db: Db)
    requires SelfPaidOk(s) && i in s.sagas && s.sagas[i].pc == Forward(2)
    requires s.sagas[i].p.token !in s.selfPaid
    ensures SelfPaidOk(AfterCommit(s, i, db))
  {
    var s' := AfterCommit(s, i, db);
    forall t | t in s'.selfPaid
      ensures exists j :: j in s'.sagas && IsSelfPayment(s'.sagas[j], t, s'.selfPaid[t])
    {
      if t == s.sagas[i].p.token {
        assert IsSelfPayment(s'.sagas[i], t, s'.selfPaid[t]);
      } else {
        var j :| j in s.sagas && IsSelfPayment(s.sagas[j], t, s.selfPaid[t]);
        assert IsSelfPayment(s'.sagas[j], t, s'.selfPaid[t]);
      }
    }
  }

  lemma BooksCommit(s: State, i: nat, db: Db)
    requires Rows(s) && Books(s) && i in s.sagas && s.sagas[i].pc == Forward(2)
    requires Commits(s.db, db, s.sagas[i].p, s.sagas[i].value) && HeldIn(s.db, s.sagas[i].p.token)
    ensures Books(AfterCommit(s, i, db))
  {
    hide TokenGroup, SettlementGroup, EntryOk, Apart, Commits;
    SelfPaidCommit(s, i, db);
    TokenGroupsCommit(s, i, db);
    SettlementGroupsCommit(s, i, db);
    EntriesCommit(s, i, db);
  }
}
