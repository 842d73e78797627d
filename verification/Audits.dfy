/** What the two audits find in the tables of a running system. */
module Audits {
  import opened Basics
  import opened Sums
  import opened Tables
  import opened Machine
  import opened Invariants
  import opened Storage
  import opened Guarantees

  /** The difference between an available balance and the last entry of its account. */
  function DriftOf(s: State, a: string): int
  {
    var last := LastEntry(s.db.ledger, a);
    if last.Some? then Drift(last.value, s.selfPaid) else 0
  }

  /** What is reserved for `a` beyond the ISSUED and HELD tokens. */
  ghost function Excess(s: State, a: string): int
  {
    Sum(DeadLocks(s, a, s.frozen)) + Sum(DeadLocks(s, a, s.selfPaid.Keys))
  }

  /** A token of `a` that undoing a hold invalidated, or that was spent on a payment to oneself. */
  predicate Stuck(s: State, a: string, t: string)
  {
    t in s.db.tokens && s.db.tokens[t].owner == a && (t in s.frozen || t in s.selfPaid)
  }

  lemma ExpectedBalances(s: State, a: string)
    requires HistoryOk(s) && Covered(s) && Parity(s) && a in s.db.accounts
    ensures s.db.accounts[a].available == ExpectedAvailable(s.db, a) + DriftOf(s, a)
    ensures s.db.accounts[a].reserved == ExpectedReserved(s.db, a) + Excess(s, a)
  {
    hide Sum, HistoryOk, Covered, LiveTokens, LiveLocks, DeadLocks;
    assert ParityAt(s, a);
    ReservedSplit(s, a);
    LiveIsLive(s, a);
  }

  /** The tokens the audit adds up are those that lock reserved money. */
  lemma LiveIsLive(s: State, a: string)
    ensures LiveTokens(s.db.tokens, a) == LiveLocks(s, a)
  {
  }

  lemma {:induction false} EntryInGroup(ledger: seq<Entry>, e: Entry)
    requires e in ledger
    ensures e in Group(ledger, e.txn)
  {
    var front, last := ledger[..|ledger| - 1], ledger[|ledger| - 1];
    assert ledger == front + [last];
    if e != last {
      EntryInGroup(front, e);
    }
  }

  lemma SettlementEntryKind(s: State, i: nat, e: Entry)
    requires SettlementGroupsOk(s) && i in s.sagas && Committed(s.sagas[i])
    requires e in Group(s.db.ledger, s.sagas[i].p.txn)
    ensures e.kind == Settlement
  {
  }

  /** A release entry is for the account that owns the token. */
  lemma ReleaseEntryOwner(s: State, e: Entry)
    requires TokenGroupsOk(s) && SettlementGroupsOk(s) && e in s.db.ledger && EntryOk(s, e) && e.kind == Release
    ensures |e.txn| >= 8 && e.txn[8..] in s.db.tokens && s.db.tokens[e.txn[8..]].owner == e.account
  {
    hide Group, SettlementGroupsOk;
    EntryInGroup(s.db.ledger, e);
    if t :| t in s.db.tokens && ReservationKey(t) == e.txn {
      assert TokenGroup(Group(s.db.ledger, e.txn), s.db.tokens[t], Open(s, t));
    } else {
      var i :| i in s.sagas && Committed(s.sagas[i]) && s.sagas[i].p.txn == e.txn;
      SettlementEntryKind(s, i, e);
      assert false;
    }
  }

  lemma DriftMeansStuck(s: State, a: string)
    requires Books(s) && HistoryOk(s) && DriftOf(s, a) != 0
    ensures exists t :: Stuck(s, a, t)
  {
    hide TokenGroup, SettlementGroup, SelfPaidOk, Group;
    LastEntryIsEntry(s.db.ledger, a);
    var e := LastEntry(s.db.ledger, a).value;
    assert EntryOk(s, e);
    ReleaseEntryOwner(s, e);
    assert Stuck(s, a, e.txn[8..]);
  }

  lemma ExcessMeansStuck(s: State, a: string)
    requires TokensOk(s.db)
    ensures Excess(s, a) >= 0
    ensures Excess(s, a) != 0 <==> exists t :: Stuck(s, a, t)
  {
    hide Sum;
    var frozen, own := DeadLocks(s, a, s.frozen), DeadLocks(s, a, s.selfPaid.Keys);
    SumNonNegative(frozen);
    SumNonNegative(own);
    if t :| Stuck(s, a, t) {
      SumDominates(frozen, t, t);
      SumDominates(own, t, t);
    } else {
      forall t | t in s.db.tokens
        ensures frozen[t] == 0 && own[t] == 0
      {
        assert !Stuck(s, a, t);
      }
      SumZero(frozen);
      SumZero(own);
    }
  }

  /**
   * In every reachable state an available balance is what the last entry of its account says,
   * plus the drift that a self-payment leaves; without self-payments the two are equal.
   */
  lemma AuditParity(steps: seq<Step>, a: string)
    requires a in Run(INIT, steps).db.accounts
    ensures var s := Run(INIT, steps);
            && s.db.accounts[a].available == ExpectedAvailable(s.db, a) + DriftOf(s, a)
            && (s.selfPaid == map[] ==> s.db.accounts[a].available == ExpectedAvailable(s.db, a))
  {
    hide AccountsOk, TokensOk, HistoryOk, SagasOk, Exclusive, Books, Covered;
    hide Conserved, Parity, Excess, ExpectedAvailable, ExpectedReserved;
    Reachable(steps);
    ExpectedBalances(Run(INIT, steps), a);
  }

  /**
   * In every reachable state the balance audit reports an account exactly when it owns a token
   * that undoing a hold invalidated or that was spent on a payment to oneself; the amount
   * reported is the value of those tokens plus the drift of the last self-payment.
   */
  lemma BalanceAuditReportsStuckTokens(steps: seq<Step>, a: string)
    requires a in Run(INIT, steps).db.accounts
    ensures var s := Run(INIT, steps);
            Mismatch(s.db, a) <==> exists t :: Stuck(s, a, t)
    ensures var s := Run(INIT, steps);
            forall d :: Reports(s.db, d) && d.account == a ==> d.amount == Wrap64(Excess(s, a) + DriftOf(s, a))
  {
    hide AccountsOk, TokensOk, HistoryOk, SagasOk, Exclusive, Books, Covered, Conserved, Parity, Stuck, Excess, DriftOf;
    hide ExpectedAvailable, ExpectedReserved, Wrap64;
    var s := Run(INIT, steps);
    Reachable(steps);
    ExpectedBalances(s, a);
    ExcessMeansStuck(s, a);
    if DriftOf(s, a) != 0 {
      DriftMeansStuck(s, a);
    }
  }
}
