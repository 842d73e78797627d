/** Every step keeps the money invariants. */
module MoneyProof {
  import opened Basics
  import opened Sums
  import opened Tables
  import opened Transactions
  import opened Machine
  import opened Invariants
  import opened Effects
  import opened RowsProof
  import opened BooksProof

  // ---- Reserved balances ----

  /** What one token locks of account `a`. */
  function LockAt(s: State, a: string, t: string): int
    requires t in s.db.tokens
  {
    Lock(a, s.db.tokens[t], t in s.frozen, t in s.selfPaid)
  }

  /** Steps that touch one token change the locked sum by the difference at that token. */
  lemma LocksAt(s: State, s': State, a: string, t: string)
    requires t in s'.db.tokens
    requires s'.db.tokens.Keys == s.db.tokens.Keys + {t}
    requires forall u :: u in s.db.tokens && u != t ==> LockAt(s', a, u) == LockAt(s, a, u)
    ensures t in s.db.tokens ==> Sum(Locks(s', a)) == Sum(Locks(s, a)) - LockAt(s, a, t) + LockAt(s', a, t)
    ensures t !in s.db.tokens ==> Sum(Locks(s', a)) == Sum(Locks(s, a)) + LockAt(s', a, t)
  {
    hide Sum;
    assert Locks(s', a) == Locks(s, a)[t := LockAt(s', a, t)];
    SumUpdate(Locks(s, a), t, LockAt(s', a, t));
  }

  lemma LocksSame(s: State, s': State, a: string)
    requires s'.db.tokens.Keys == s.db.tokens.Keys
    requires forall u :: u in s.db.tokens ==> LockAt(s', a, u) == LockAt(s, a, u)
    ensures Sum(Locks(s', a)) == Sum(Locks(s, a))
  {
    hide Sum;
    assert Locks(s', a) == Locks(s, a);
  }

  lemma CoveredOpenAccount(s: State, id: string, initial: int64)
    requires TokensOk(s.db) && Covered(s)
    ensures Covered(Apply(s, OpenAccount(id, initial)))
  {
    hide Sum, Locks, TokensOk;
    var s' := Apply(s, OpenAccount(id, initial));
    forall a | a in s'.db.accounts
      ensures s'.db.accounts[a].reserved == Sum(Locks(s', a))
    {
      LocksUntouched(s, s', a);
      if a !in s.db.accounts {
        NoLocks(s, a);
      }
    }
  }

  lemma LocksUntouched(s: State, s': State, a: string)
    requires s'.db.tokens == s.db.tokens && s'.frozen == s.frozen && s'.selfPaid == s.selfPaid
    ensures Locks(s', a) == Locks(s, a)
  {
  }

  /** Nobody has tokens before having an account. */
  lemma NoLocks(s: State, a: string)
    requires TokensOk(s.db) && a !in s.db.accounts
    ensures Sum(Locks(s, a)) == 0
  {
    SumZero(Locks(s, a));
  }

  /** The reserved balance of one account after a step that touched one token. */
  lemma CoveredAt(s: State, s': State, a: string, t: string, change: int)
    requires Covered(s) && a in s.db.accounts && a in s'.db.accounts
    requires t in s'.db.tokens && s'.db.tokens == s.db.tokens[t := s'.db.tokens[t]]
    requires s'.frozen == s.frozen
    requires s'.selfPaid == s.selfPaid || (t in s'.selfPaid && s'.selfPaid == s.selfPaid[t := s'.selfPaid[t]])
    requires change == LockAt(s', a, t) - (if t in s.db.tokens then LockAt(s, a, t) else 0)
    requires s'.db.accounts[a].reserved == s.db.accounts[a].reserved + change
    ensures s'.db.accounts[a].reserved == Sum(Locks(s', a))
  {
    hide Sum;
    forall u | u in s.db.tokens && u != t
      ensures LockAt(s', a, u) == LockAt(s, a, u)
    {
    }
    LocksAt(s, s', a, t);
  }

  lemma CoveredIssue(s: State, db: Db, id: string, owner: string, value: int64)
    requires HistoryOk(s) && Covered(s) && Issues(s.db, db, id, owner, value)
    ensures Covered(s.(db := db))
  {
    hide Sum;
    var s' := s.(db := db);
    assert id !in s.frozen && id !in s.selfPaid;
    forall a | a in db.accounts
      ensures db.accounts[a].reserved == Sum(Locks(s', a))
    {
      assert LockAt(s', a, id) == if a == owner then value else 0;
      hide Lock;
      CoveredAt(s, s', a, id, LockAt(s', a, id));
    }
  }

  lemma CoveredRelease(s: State, db: Db, id: string)
    requires HistoryOk(s) && Covered(s) && Releases(s.db, db, id)
    ensures Covered(s.(db := db))
  {
    hide Sum, Lock, Locks, LockAt, HistoryOk;
    var s' := s.(db := db);
    forall a | a in db.accounts
      ensures db.accounts[a].reserved == Sum(Locks(s', a))
    {
      LockAfterRelease(s, db, id, a);
      CoveredAt(s, s', a, id, -LockAt(s, a, id));
    }
  }

  lemma LockAfterRelease(s: State, db: Db, id: string, a: string)
    requires HistoryOk(s) && Releases(s.db, db, id)
    ensures LockAt(s, a, id) == if a == s.db.tokens[id].owner then s.db.tokens[id].value else 0
    ensures LockAt(s.(db := db), a, id) == 0
  {
  }

  /** What LEDGER_COMMIT takes out of the reserved balance of `a`: nothing, in a self-payment. */
  function CommitChange(sg: Saga, a: string): int
  {
    if a == sg.p.sender && sg.p.sender != sg.p.receiver then -(sg.value as int) else 0
  }

  lemma ReservedAfterCommit(db: Db, db': Db, sg: Saga, a: string)
    requires Commits(db, db', sg.p, sg.value) && a in db.accounts
    ensures a in db'.accounts && db'.accounts[a].reserved == db.accounts[a].reserved + CommitChange(sg, a)
  {
  }

  lemma LockAfterCommit(s: State, i: nat, db: Db, a: string)
    requires HistoryOk(s) && i in s.sagas && SagaOk(s.db, s.sagas[i])
    requires HeldIn(s.db, s.sagas[i].p.token)
    requires var t := s.sagas[i].p.token;
             db.tokens == s.db.tokens[t := s.db.tokens[t].(consumed := true, status := Consumed)]
    ensures LockAt(AfterCommit(s, i, db), a, s.sagas[i].p.token) ==
            LockAt(s, a, s.sagas[i].p.token) + CommitChange(s.sagas[i], a)
  {
  }

  lemma CoveredCommit(s: State, i: nat, db: Db)
    requires HistoryOk(s) && Covered(s) && i in s.sagas && SagaOk(s.db, s.sagas[i])
    requires Commits(s.db, db, s.sagas[i].p, s.sagas[i].value) && HeldIn(s.db, s.sagas[i].p.token)
    ensures Covered(AfterCommit(s, i, db))
  {
    hide Sum, Lock;
    var s' := AfterCommit(s, i, db);
    forall a | a in db.accounts
      ensures db.accounts[a].reserved == Sum(Locks(s', a))
    {
      ReservedAfterCommit(s.db, db, s.sagas[i], a);
      LockAfterCommit(s, i, db, a);
      CoveredAt(s, s', a, s.sagas[i].p.token, CommitChange(s.sagas[i], a));
    }
  }

  // ---- The total ----

  lemma WorthUpdate(accounts: map<string, Balance>, a: string, b: Balance)
    ensures Worth(accounts[a := b]) == Worth(accounts)[a := b.available + b.reserved]
  {
  }

  lemma WorthOf(accounts: map<string, Balance>, a: string)
    requires a in accounts
    ensures a in Worth(accounts) && Worth(accounts)[a] == accounts[a].available + accounts[a].reserved
  {
  }

  /** Writing one account changes the total by the difference at that account. */
  lemma WorthAt(before: map<string, Balance>, after: map<string, Balance>, a: string, available: int, reserved: int)
    requires OnlyTouches(before, after, {a}) && Moves(before, after, a, available, reserved)
    ensures Sum(Worth(after)) == Sum(Worth(before)) + available + reserved
  {
    hide Sum, Worth;
    assert after == before[a := after[a]];
    WorthUpdate(before, a, after[a]);
    WorthOf(before, a);
    SumUpdate(Worth(before), a, after[a].available + after[a].reserved);
  }

  /** Writing two accounts changes the total by the two differences. */
  lemma WorthAtTwo(before: map<string, Balance>, after: map<string, Balance>,
                   a: string, da: int, ra: int, b: string, d: int, r: int)
    requires a != b && OnlyTouches(before, after, {a, b})
    requires Moves(before, after, a, da, ra) && Moves(before, after, b, d, r)
    ensures Sum(Worth(after)) == Sum(Worth(before)) + da + ra + d + r
  {
    hide Sum, Worth;
    var middle := before[a := after[a]];
    WorthAt(before, middle, a, da, ra);
    WorthAt(middle, after, b, d, r);
  }

  lemma ConservedOpenAccount(s: State, id: string, initial: int64)
    requires HistoryOk(s) && Conserved(s)
    ensures Conserved(Apply(s, OpenAccount(id, initial)))
  {
    if initial >= 0 && id !in s.db.accounts {
      WorthUpdate(s.db.accounts, id, Balance(initial, 0));
      SumUpdate(Worth(s.db.accounts), id, initial);
      SumUpdate(s.minted, id, initial);
    }
  }

  lemma ConservedCommit(s: State, i: nat, db: Db)
    requires HistoryOk(s) && Conserved(s) && i in s.sagas
    requires Commits(s.db, db, s.sagas[i].p, s.sagas[i].value) && HeldIn(s.db, s.sagas[i].p.token)
    ensures Conserved(AfterCommit(s, i, db))
  {
    var p, value := s.sagas[i].p, s.sagas[i].value;
    if p.sender == p.receiver {
      assert {p.sender, p.receiver} == {p.sender};
      WorthAt(s.db.accounts, db.accounts, p.sender, p.amount, 0);
      assert p.token !in s.selfPaid;
      SumUpdate(s.selfPaid, p.token, p.amount);
    } else {
      WorthAtTwo(s.db.accounts, db.accounts, p.sender, value - p.amount, -value, p.receiver, p.amount, 0);
    }
  }

  // ---- The last entry of each account ----

  lemma ParityOpenAccount(s: State, id: string, initial: int64)
    requires EntriesOk(s) && Parity(s)
    ensures Parity(Apply(s, OpenAccount(id, initial)))
  {
    var s' := Apply(s, OpenAccount(id, initial));
    forall a | a in s'.db.accounts
      ensures ParityAt(s', a)
    {
      if a in s.db.accounts {
        assert ParityAt(s, a);
      } else {
        LastEntryIsEntry(s.db.ledger, a);
        assert forall e :: e in s.db.ledger ==> EntryOk(s, e);
      }
    }
  }

  /** Parity after a step that wrote one account and one entry for it. */
  lemma ParityOneEntry(s: State, db: Db, e: Entry)
    requires Parity(s)
    requires OnlyTouches(s.db.accounts, db.accounts, {e.account})
    requires db.ledger == s.db.ledger + [e]
    requires e.account in db.accounts ==>
               db.accounts[e.account].available == e.balanceAfter && Drift(e, s.selfPaid) == 0
    ensures Parity(s.(db := db))
  {
  }

  /** A self-payment of token `t` changes the drift of no entry that is already there. */
  lemma DriftStays(s: State, t: string, amount: int, e: Entry)
    requires t in s.db.tokens && Open(s, t) && EntryOk(s, e)
    ensures Drift(e, s.selfPaid[t := amount]) == Drift(e, s.selfPaid)
  {
  }

  lemma ParityCommit(s: State, i: nat, db: Db)
    requires Rows(s) && EntriesOk(s) && Parity(s) && i in s.sagas
    requires Commits(s.db, db, s.sagas[i].p, s.sagas[i].value) && HeldIn(s.db, s.sagas[i].p.token)
    ensures Parity(AfterCommit(s, i, db))
  {
    hide LastEntry, Exclusive, AccountsOk, TokensOk, SagaOk;
    var s' := AfterCommit(s, i, db);
    var p := s.sagas[i].p;
    var (d, c, r) := CommitEntries(s, i, db);
    var l := s.db.ledger;
    forall a | a in db.accounts
      ensures ParityAt(s', a)
    {
      assert ParityAt(s, a);
      LastEntryAppend(l, d, a);
      LastEntryAppend(l + [d], c, a);
      LastEntryAppend(l + [d] + [c], r, a);
      if a != p.sender && a != p.receiver && LastEntry(l, a).Some? {
        LastEntryIsEntry(l, a);
        DriftStays(s, p.token, p.amount, LastEntry(l, a).value);
      }
    }
  }

  // ---- Money, step by step ----

  lemma MoneyOpenAccount(s: State, id: string, initial: int64)
    requires Inv(s)
    ensures Money(Apply(s, OpenAccount(id, initial)))
  {
    CoveredOpenAccount(s, id, initial);
    ConservedOpenAccount(s, id, initial);
    ParityOpenAccount(s, id, initial);
  }

  lemma MoneyIssue(s: State, db: Db, id: string, owner: string, value: int64)
    requires Inv(s) && Issues(s.db, db, id, owner, value)
    ensures Money(s.(db := db))
  {
    CoveredIssue(s, db, id, owner, value);
    WorthAt(s.db.accounts, db.accounts, owner, -value, value);
    ParityOneEntry(s, db, ReservationEntry(id, owner, value, db.accounts[owner].available));
  }

  lemma MoneyRelease(s: State, db: Db, id: string)
    requires Inv(s) && Releases(s.db, db, id)
    ensures Money(s.(db := db))
  {
    var tok := s.db.tokens[id];
    CoveredRelease(s, db, id);
    WorthAt(s.db.accounts, db.accounts, tok.owner, tok.value, -tok.value);
    assert id !in s.selfPaid;
    ParityOneEntry(s, db, ReleaseEntry(id, tok.owner, tok.value, db.accounts[tok.owner].available));
  }

  lemma MoneyCommit(s: State, i: nat, db: Db)
    requires Inv(s) && i in s.sagas
    requires Commits(s.db, db, s.sagas[i].p, s.sagas[i].value) && HeldIn(s.db, s.sagas[i].p.token)
    ensures Money(AfterCommit(s, i, db))
  {
    CoveredCommit(s, i, db);
    ConservedCommit(s, i, db);
    ParityCommit(s, i, db);
  }

  /** Steps that move no money and lock no other token keep the money invariants. */
  lemma MoneySame(s: State, s': State)
    requires Money(s)
    requires s'.db.accounts == s.db.accounts && s'.db.ledger == s.db.ledger
    requires s'.minted == s.minted && s'.selfPaid == s.selfPaid
    requires s'.db.tokens.Keys == s.db.tokens.Keys
    requires forall a, t :: t in s.db.tokens ==> LockAt(s', a, t) == LockAt(s, a, t)
    ensures Money(s')
  {
    forall a | a in s'.db.accounts
      ensures s'.db.accounts[a].reserved == Sum(Locks(s', a))
      ensures ParityAt(s', a)
    {
      LocksSame(s, s', a);
      assert ParityAt(s, a);
    }
  }
}
