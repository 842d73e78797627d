/** What the invariants promise about every run of the settlement machine. */
module Guarantees {
  import opened Basics
  import opened Sums
  import opened Tables
  import opened Transactions
  import opened Machine
  import opened Invariants
  import opened Effects
  import opened RowsProof
  import opened BooksProof
  import opened MoneyProof
  import opened StepProof

  /** Every reachable state satisfies every invariant. */
  lemma Reachable(steps: seq<Step>)
    ensures Rows(Run(INIT, steps)) && Books(Run(INIT, steps)) && Money(Run(INIT, steps))
  {
    hide Rows, Books, Money;
    InvInit();
    InvRun(INIT, steps);
  }

  // ---- At most once ----

  /** However often an envelope is replayed, a token, a transaction and a nonce settle at most once. */
  lemma SettlesAtMostOnce(steps: seq<Step>, i: nat, j: nat)
    requires var s := Run(INIT, steps);
             && i in s.sagas && j in s.sagas && Committed(s.sagas[i]) && Committed(s.sagas[j])
             && (s.sagas[i].p.token == s.sagas[j].p.token
                 || s.sagas[i].p.txn == s.sagas[j].p.txn
                 || s.sagas[i].p.nonce == s.sagas[j].p.nonce)
    ensures i == j
  {
    var s := Run(INIT, steps);
    Reachable(steps);
    assert i == j || Apart(s.sagas[i], s.sagas[j]);
  }

  // ---- The ledger ----

  lemma TokenNet(s: State, t: string)
    requires TokenGroupsOk(s) && TokensOk(s.db) && t in s.db.tokens
    ensures Net(Group(s.db.ledger, ReservationKey(t))) == if Open(s, t) then s.db.tokens[t].value else 0
  {
    var g := Group(s.db.ledger, ReservationKey(t));
    assert TokenGroup(g, s.db.tokens[t], Open(s, t));
    if Open(s, t) {
      assert g == [g[0]];
      NetOfOne(g[0]);
    } else {
      assert g == [g[0], g[1]];
      NetOfTwo(g[0], g[1]);
    }
  }

  lemma SettlementNet(s: State, i: nat)
    requires SettlementGroupsOk(s) && i in s.sagas && Committed(s.sagas[i])
    ensures Net(Group(s.db.ledger, s.sagas[i].p.txn)) == 0
  {
    var g := Group(s.db.ledger, s.sagas[i].p.txn);
    assert SettlementGroup(g, s.sagas[i].p);
    assert g == [g[0], g[1]];
    NetOfTwo(g[0], g[1]);
  }

  lemma GroupInTxnIds(ledger: seq<Entry>, txn: string)
    requires Net(Group(ledger, txn)) != 0
    ensures txn in TxnIds(ledger)
  {
    GroupEmpty(ledger, txn);
  }

  /**
   * In every reachable state the ledger check reports exactly the tokens whose funds are
   * still reserved, each with its value, and no settlement.
   */
  lemma LedgerCheckReportsOpenTokens(steps: seq<Step>)
    ensures var s := Run(INIT, steps);
            forall txn :: txn in Imbalances(s.db.ledger) <==>
              exists t :: t in s.db.tokens && Open(s, t) && ReservationKey(t) == txn
    ensures var s := Run(INIT, steps);
            forall t :: t in s.db.tokens && Open(s, t) ==>
              ReservationKey(t) in Imbalances(s.db.ledger) &&
              Imbalances(s.db.ledger)[ReservationKey(t)] == s.db.tokens[t].value
  {
    var s := Run(INIT, steps);
    Reachable(steps);
    assert TokenGroupsOk(s) && TokensOk(s.db) && SettlementGroupsOk(s) && EntriesOk(s);
    LedgerCheck(s);
  }

  lemma LedgerCheck(s: State)
    requires TokenGroupsOk(s) && TokensOk(s.db) && SettlementGroupsOk(s) && EntriesOk(s)
    ensures forall txn :: txn in Imbalances(s.db.ledger) <==>
              exists t :: t in s.db.tokens && Open(s, t) && ReservationKey(t) == txn
    ensures forall t :: t in s.db.tokens && Open(s, t) ==>
              ReservationKey(t) in Imbalances(s.db.ledger) &&
              Imbalances(s.db.ledger)[ReservationKey(t)] == s.db.tokens[t].value
  {
    hide TokenGroup, SettlementGroup, Group, Net;
    forall t | t in s.db.tokens && Open(s, t)
      ensures ReservationKey(t) in Imbalances(s.db.ledger)
      ensures Imbalances(s.db.ledger)[ReservationKey(t)] == s.db.tokens[t].value
    {
      TokenNet(s, t);
      GroupInTxnIds(s.db.ledger, ReservationKey(t));
    }
    forall txn | txn in Imbalances(s.db.ledger)
      ensures exists t :: t in s.db.tokens && Open(s, t) && ReservationKey(t) == txn
    {
      ImbalanceIsOpenToken(s, txn);
    }
  }

  lemma ImbalanceIsOpenToken(s: State, txn: string)
    requires TokenGroupsOk(s) && TokensOk(s.db) && SettlementGroupsOk(s) && EntriesOk(s)
    requires txn in TxnIds(s.db.ledger) && Net(Group(s.db.ledger, txn)) != 0
    ensures exists t :: t in s.db.tokens && Open(s, t) && ReservationKey(t) == txn
  {
    hide TokenGroup, SettlementGroup, Group, Net;
    var e :| e in s.db.ledger && e.txn == txn;
    assert EntryOk(s, e);
    if i :| i in s.sagas && Committed(s.sagas[i]) && s.sagas[i].p.txn == txn {
      SettlementNet(s, i);
      assert false;
    } else {
      var t :| t in s.db.tokens && ReservationKey(t) == txn;
      TokenNet(s, t);
    }
  }

  /** The saga of a settlement leaves its debit and credit, or nothing at all. */
  lemma SettlementIsAllOrNothing(steps: seq<Step>, i: nat)
    requires i in Run(INIT, steps).sagas
    ensures var s := Run(INIT, steps);
            if Committed(s.sagas[i]) then SettlementGroup(Group(s.db.ledger, s.sagas[i].p.txn), s.sagas[i].p)
            else Standing(s.sagas[i]) >= 1 ==> Group(s.db.ledger, s.sagas[i].p.txn) == []
  {
    var s := Run(INIT, steps);
    Reachable(steps);
    assert Rows(s) && EntriesOk(s) && SettlementGroupsOk(s);
    if !Committed(s.sagas[i]) && Standing(s.sagas[i]) >= 1 {
      UncommittedTxnUnused(s, i);
      UnusedKey(s, s.sagas[i].p.txn);
    }
  }

  // ---- Reserved balances ----

  function LiveLocks(s: State, a: string): map<string, int>
  {
    map t | t in s.db.tokens :: Lock(a, s.db.tokens[t], false, false)
  }

  /** Tokens of `a` in `which`, a set of tokens that are neither ISSUED nor HELD. */
  function DeadLocks(s: State, a: string, which: set<string>): map<string, int>
  {
    map t | t in s.db.tokens :: if s.db.tokens[t].owner == a && t in which then s.db.tokens[t].value else 0
  }

  /**
   * The reserved balance covers the ISSUED and HELD tokens of its owner. The excess is exactly
   * the value of the tokens that undoing a hold invalidated, plus that of the tokens spent on
   * payments to oneself.
   */
  lemma ReservedCoversTokens(steps: seq<Step>, a: string)
    requires a in Run(INIT, steps).db.accounts
    ensures var s := Run(INIT, steps);
            s.db.accounts[a].reserved ==
            Sum(LiveLocks(s, a)) + Sum(DeadLocks(s, a, s.frozen)) + Sum(DeadLocks(s, a, s.selfPaid.Keys))
  {
    var s := Run(INIT, steps);
    Reachable(steps);
    assert HistoryOk(s) && Covered(s);
    ReservedSplit(s, a);
  }

  lemma ReservedSplit(s: State, a: string)
    requires HistoryOk(s) && Covered(s) && a in s.db.accounts
    ensures s.db.accounts[a].reserved ==
            Sum(LiveLocks(s, a)) + Sum(DeadLocks(s, a, s.frozen)) + Sum(DeadLocks(s, a, s.selfPaid.Keys))
  {
    hide Sum;
    var locks, live := Locks(s, a), LiveLocks(s, a);
    var frozen, own := DeadLocks(s, a, s.frozen), DeadLocks(s, a, s.selfPaid.Keys);
    var dead := map t | t in s.db.tokens :: frozen[t] + own[t];
    SumAdd(frozen, own, dead);
    forall t | t in locks
      ensures locks[t] == live[t] + dead[t]
    {
      LockSplit(s, a, t);
    }
    SumAdd(live, dead, locks);
  }

  lemma LockSplit(s: State, a: string, t: string)
    requires HistoryOk(s) && t in s.db.tokens
    ensures Locks(s, a)[t] == LiveLocks(s, a)[t] + DeadLocks(s, a, s.frozen)[t] + DeadLocks(s, a, s.selfPaid.Keys)[t]
  {
  }

  /** What the ledger check reports for each token of `a`. */
  function Reported(db: Db, a: string): map<string, int>
  {
    var found := Imbalances(db.ledger);
    map t | t in db.tokens ::
      if db.tokens[t].owner == a && ReservationKey(t) in found then found[ReservationKey(t)] else 0
  }

  lemma ReportedIsOpen(s: State, a: string, t: string)
    requires HistoryOk(s) && TokenGroupsOk(s) && TokensOk(s.db) && SettlementGroupsOk(s) && EntriesOk(s)
             && t in s.db.tokens
    ensures Reported(s.db, a)[t] == LiveLocks(s, a)[t] + DeadLocks(s, a, s.frozen)[t]
  {
    hide TokenGroupsOk, SettlementGroupsOk, EntriesOk, Imbalances, TokensOk;
    LedgerCheck(s);
    if u :| u in s.db.tokens && Open(s, u) && ReservationKey(u) == ReservationKey(t) {
      assert u == ReservationKey(u)[8..] && t == ReservationKey(t)[8..];
    }
  }

  /**
   * The imbalances that the ledger check reports for the tokens of an account add up to its
   * reserved balance, but for the tokens spent on payments to oneself.
   */
  lemma ImbalancesAddUpToReserved(steps: seq<Step>, a: string)
    requires a in Run(INIT, steps).db.accounts
    ensures var s := Run(INIT, steps);
            s.db.accounts[a].reserved == Sum(Reported(s.db, a)) + Sum(DeadLocks(s, a, s.selfPaid.Keys))
  {
    hide Sum, Run, Reported, TokenGroupsOk, SettlementGroupsOk, EntriesOk;
    hide TokensOk, SagasOk, Exclusive, Money, HistoryOk;
    var s := Run(INIT, steps);
    Reachable(steps);
    ReservedCoversTokens(steps, a);
    ReportedKeys(s.db, a);
    forall t | t in s.db.tokens
      ensures Reported(s.db, a)[t] == LiveLocks(s, a)[t] + DeadLocks(s, a, s.frozen)[t]
    {
      ReportedIsOpen(s, a, t);
    }
    SumAdd(LiveLocks(s, a), DeadLocks(s, a, s.frozen), Reported(s.db, a));
  }

  lemma ReportedKeys(db: Db, a: string)
    ensures Reported(db, a).Keys == db.tokens.Keys
  {
  }

  /** The frozen tokens can be read off the tables: invalidated, and never released in the ledger. */
  lemma FrozenIsVisible(steps: seq<Step>, t: string)
    requires t in Run(INIT, steps).db.tokens
    ensures var s := Run(INIT, steps);
            t in s.frozen <==>
            s.db.tokens[t].status == Invalidated && Net(Group(s.db.ledger, ReservationKey(t))) == s.db.tokens[t].value
  {
    var s := Run(INIT, steps);
    Reachable(steps);
    assert HistoryOk(s) && TokenGroupsOk(s) && TokensOk(s.db);
    hide Net, Group, TokenGroup;
    TokenNet(s, t);
  }

  // ---- Conservation ----

  /**
   * Money is conserved exactly as long as nobody has been paid by themselves: the balances
   * add up to the opening balances plus the amounts of the self-payments.
   */
  lemma MoneyIsConserved(steps: seq<Step>)
    ensures var s := Run(INIT, steps);
            Sum(Worth(s.db.accounts)) == Sum(s.minted) + Sum(s.selfPaid)
    ensures var s := Run(INIT, steps);
            Sum(Worth(s.db.accounts)) == Sum(s.minted) <==>
            !exists i :: i in s.sagas && Committed(s.sagas[i]) && s.sagas[i].p.sender == s.sagas[i].p.receiver
  {
    var s := Run(INIT, steps);
    Reachable(steps);
    assert HistoryOk(s) && SelfPaidOk(s) && Conserved(s);
    if t :| t in s.selfPaid {
      SumDominates(s.selfPaid, t, t);
      var i :| i in s.sagas && IsSelfPayment(s.sagas[i], t, s.selfPaid[t]);
      assert Committed(s.sagas[i]) && s.sagas[i].p.sender == s.sagas[i].p.receiver;
    } else {
      assert |s.selfPaid.Keys| == 0;
    }
  }

  /**
   * Undoing a settlement's balances, at any later time, takes back what committing it created:
   * nothing, or the amount if the sender is the receiver.
   */
  lemma UndoConservesMoney(accounts: map<string, Balance>, p: Payload, value: int64, after: map<string, Balance>)
    requires AccountsOk(accounts) && 0 < p.amount <= value
    requires UndoCommitBalances(accounts, p, value) == Some(after)
    ensures Sum(Worth(after)) == Sum(Worth(accounts)) - if p.sender == p.receiver then p.amount as int else 0
  {
    hide Sum;
    if p.sender == p.receiver {
      WorthAt(accounts, after, p.sender, -p.amount, 0);
    } else {
      WorthAtTwo(accounts, after, p.sender, -(value - p.amount), value, p.receiver, -p.amount, 0);
    }
  }

  /** If the opening balances fit in 64 bits and nobody was paid by themselves, all the money always fits. */
  lemma MoneyFits(steps: seq<Step>)
    requires var s := Run(INIT, steps);
             && Sum(s.minted) <= MAX_INT64
             && !exists i :: i in s.sagas && Committed(s.sagas[i]) && s.sagas[i].p.sender == s.sagas[i].p.receiver
    ensures Sum(Worth(Run(INIT, steps).db.accounts)) <= MAX_INT64
  {
    hide Run, Sum, Worth;
    MoneyIsConserved(steps);
  }

  // ---- No transaction fails on arithmetic ----

  lemma ReservationHolds(s: State, t: string)
    requires TokensOk(s.db) && Covered(s) && t in s.db.tokens && s.db.tokens[t].status in {Issued, Held}
    ensures s.db.accounts[s.db.tokens[t].owner].reserved >= s.db.tokens[t].value
  {
    hide Sum;
    SumDominates(Locks(s, s.db.tokens[t].owner), t, t);
  }

  lemma WorthBounds(accounts: map<string, Balance>, a: string, b: string)
    requires AccountsOk(accounts) && a in accounts && b in accounts
    ensures Worth(accounts)[a] <= Sum(Worth(accounts))
    ensures a != b ==> Worth(accounts)[a] + Worth(accounts)[b] <= Sum(Worth(accounts))
  {
    hide Sum;
    SumDominates(Worth(accounts), a, b);
  }

  /**
   * If all the money fits in 64 bits, the commit of a saga that has held its token succeeds
   * exactly when the token is still HELD and the amount is positive: no balance goes
   * negative and no sum overflows.
   */
  lemma CommitSucceedsExactly(steps: seq<Step>, i: nat)
    requires var s := Run(INIT, steps);
             i in s.sagas && s.sagas[i].pc == Forward(2) && Sum(Worth(s.db.accounts)) <= MAX_INT64
    ensures var s := Run(INIT, steps);
            CommitTx(s.db, s.sagas[i].p, s.sagas[i].value).Some? <==>
            HeldIn(s.db, s.sagas[i].p.token) && s.sagas[i].p.amount > 0
  {
    var s := Run(INIT, steps);
    Reachable(steps);
    assert SagaOk(s.db, s.sagas[i]) && TokensOk(s.db) && Covered(s) && AccountsOk(s.db.accounts);
    CommitFits(s, s.sagas[i]);
  }

  lemma CommitFits(s: State, sg: Saga)
    requires SagaOk(s.db, sg) && TokensOk(s.db) && Covered(s) && AccountsOk(s.db.accounts)
    requires sg.pc == Forward(2) && Sum(Worth(s.db.accounts)) <= MAX_INT64
    ensures CommitTx(s.db, sg.p, sg.value).Some? <==> HeldIn(s.db, sg.p.token) && sg.p.amount > 0
  {
    hide Sum, Covered, TokensOk, CommitTx, Locks;
    var p := sg.p;
    if HeldIn(s.db, p.token) && p.amount > 0 {
      ReservationHolds(s, p.token);
      PlaceholderKept(s.db, p.token);
      WorthBounds(s.db.accounts, p.sender, p.receiver);
      CommitGoesThrough(s.db, p, sg.value);
    } else {
      CommitRefused(s.db, p, sg.value);
    }
  }

  lemma PlaceholderKept(db: Db, t: string)
    requires TokensOk(db) && t in db.tokens
    ensures ReservationKey(t) in db.intents && db.tokens[t].value > 0
  {
  }

  lemma CommitRefused(db: Db, p: Payload, value: int64)
    requires p.token in db.tokens && db.tokens[p.token].status in {Held, Invalidated}
    requires db.tokens[p.token].status == Invalidated || p.amount <= 0
    ensures CommitTx(db, p, value) == None
  {
  }

  lemma CommitGoesThrough(db: Db, p: Payload, value: int64)
    requires HeldIn(db, p.token) && p.sender in db.accounts && p.receiver in db.accounts
    requires p.txn in db.intents && ReservationKey(p.token) in db.intents
    requires 0 < p.amount <= value <= db.accounts[p.sender].reserved
    requires db.accounts[p.sender].available >= 0
    requires db.accounts[p.receiver].available >= 0 && db.accounts[p.receiver].reserved >= 0
    requires db.accounts[p.sender].available + db.accounts[p.sender].reserved <= MAX_INT64
    requires p.sender != p.receiver ==>
               db.accounts[p.sender].reserved + db.accounts[p.receiver].available <= MAX_INT64
    ensures CommitTx(db, p, value).Some?
  {
  }

  /** Releasing a token that is neither consumed nor released never finds too little reserved. */
  lemma ReleaseSucceeds(steps: seq<Step>, t: string)
    requires var s := Run(INIT, steps);
             && t in s.db.tokens && !s.db.tokens[t].consumed && !s.db.tokens[t].released
             && Sum(Worth(s.db.accounts)) <= MAX_INT64
    ensures var s := Run(INIT, steps);
            ReleaseTx(s.db, t).Some? && Releases(s.db, ReleaseTx(s.db, t).value, t)
  {
    var s := Run(INIT, steps);
    Reachable(steps);
    assert TokensOk(s.db) && Covered(s) && AccountsOk(s.db.accounts);
    ReleaseFits(s, t);
  }

  lemma ReleaseFits(s: State, t: string)
    requires TokensOk(s.db) && Covered(s) && AccountsOk(s.db.accounts)
    requires t in s.db.tokens && !s.db.tokens[t].consumed && !s.db.tokens[t].released
    requires Sum(Worth(s.db.accounts)) <= MAX_INT64
    ensures ReleaseTx(s.db, t).Some? && Releases(s.db, ReleaseTx(s.db, t).value, t)
  {
    hide Sum, Covered, Releases, ReleaseTx, Locks;
    var owner := s.db.tokens[t].owner;
    assert s.db.tokens[t].status in {Issued, Held};
    ReservationHolds(s, t);
    WorthBounds(s.db.accounts, owner, owner);
    ReleaseGoesThrough(s.db, t);
    ReleaseEffect(s.db, t, ReleaseTx(s.db, t).value);
  }

  lemma ReleaseGoesThrough(db: Db, t: string)
    requires t in db.tokens && db.tokens[t].status in {Issued, Held} && !db.tokens[t].consumed && !db.tokens[t].released
    requires ReservationKey(t) in db.intents && db.tokens[t].owner in db.accounts
    requires 0 < db.tokens[t].value <= db.accounts[db.tokens[t].owner].reserved
    requires 0 <= db.accounts[db.tokens[t].owner].available
    requires db.accounts[db.tokens[t].owner].available + db.accounts[db.tokens[t].owner].reserved <= MAX_INT64
    ensures ReleaseTx(db, t).Some?
  {
  }

  /** Issuing fails only for the reasons it names: the amount, the account, the funds, the identifiers. */
  lemma IssueSucceedsExactly(steps: seq<Step>, id: string, owner: string, value: int64, expiry: int)
    requires Sum(Worth(Run(INIT, steps).db.accounts)) <= MAX_INT64
    ensures var db := Run(INIT, steps).db;
            IssueTx(db, id, owner, value, expiry).Some? <==>
            && value > 0 && owner in db.accounts && value <= db.accounts[owner].available
            && id !in db.tokens && ReservationKey(id) !in db.intents
  {
    var db := Run(INIT, steps).db;
    Reachable(steps);
    assert AccountsOk(db.accounts);
    IssueFits(db, id, owner, value, expiry);
  }

  lemma IssueFits(db: Db, id: string, owner: string, value: int64, expiry: int)
    requires AccountsOk(db.accounts) && Sum(Worth(db.accounts)) <= MAX_INT64
    ensures IssueTx(db, id, owner, value, expiry).Some? <==>
            && value > 0 && owner in db.accounts && value <= db.accounts[owner].available
            && id !in db.tokens && ReservationKey(id) !in db.intents
  {
    hide Sum;
    if owner in db.accounts {
      WorthBounds(db.accounts, owner, owner);
    }
  }

  /**
   * So from opening balances that fit in 64 bits, without self-payments, no issue, release or
   * commit ever fails on arithmetic.
   */
  lemma NoArithmeticFailure(steps: seq<Step>, i: nat, t: string, id: string, owner: string, value: int64, expiry: int)
    requires var s := Run(INIT, steps);
             && Sum(s.minted) <= MAX_INT64
             && !exists j :: j in s.sagas && Committed(s.sagas[j]) && s.sagas[j].p.sender == s.sagas[j].p.receiver
    ensures var s := Run(INIT, steps);
            i in s.sagas && s.sagas[i].pc == Forward(2) ==>
              (CommitTx(s.db, s.sagas[i].p, s.sagas[i].value).Some? <==>
               HeldIn(s.db, s.sagas[i].p.token) && s.sagas[i].p.amount > 0)
    ensures var s := Run(INIT, steps);
            t in s.db.tokens && !s.db.tokens[t].consumed && !s.db.tokens[t].released ==> ReleaseTx(s.db, t).Some?
    ensures var db := Run(INIT, steps).db;
            IssueTx(db, id, owner, value, expiry).Some? <==>
            && value > 0 && owner in db.accounts && value <= db.accounts[owner].available
            && id !in db.tokens && ReservationKey(id) !in db.intents
  {
    hide Run, Sum, Worth, CommitTx, ReleaseTx, IssueTx, Releases;
    var s := Run(INIT, steps);
    MoneyFits(steps);
    if i in s.sagas && s.sagas[i].pc == Forward(2) {
      CommitSucceedsExactly(steps, i);
    }
    if t in s.db.tokens && !s.db.tokens[t].consumed && !s.db.tokens[t].released {
      ReleaseSucceeds(steps, t);
    }
    IssueSucceedsExactly(steps, id, owner, value, expiry);
  }
}
