/** The reconciliation scan: release expired tokens, expire overdue intents, check the ledger. */
module Reconciliation {
  import opened Basics
  import opened Sums
  import opened Tables
  import opened Transactions
  import opened Machine
  import opened Invariants
  import opened Storage
  import opened Guarantees
  import opened Services
  import opened ReleasePass
  import opened Permanence

  /** The statuses the stuck-intent query selects. */
  const IN_FLIGHT: set<IntentStatus> := {Created, Signed, Encrypted, Broadcast, Relayed, Validated,
      IntentStatus.Reserved}

  /** In flight, not updated since the cutoff (`aged`) and past its expiry (`late`). */
  predicate Overdue(db: Db, txn: string, aged: set<string>, late: set<string>)
  {
    txn in db.intents && db.intents[txn].status in IN_FLIGHT && txn in aged && txn in late
  }

  /** The tables after expiring each intent in turn. */
  function ExpireAll(db: Db, txns: seq<string>): Db
  {
    if |txns| == 0 then db else ExpireIntentTx(ExpireAll(db, txns[..|txns| - 1]), txns[|txns| - 1])
  }

  class ReconciliationService {
    const repo: Repository
    const tokens: TokenService

    constructor (tokens: TokenService)
      ensures this.tokens == tokens && repo == tokens.repo
    {
      this.tokens := tokens;
      repo := tokens.repo;
    }

    /**
     * `runScan`, with the ages and expiries of the intents as inputs. A release whose
     * transaction meets a `down` database and a status write in `down` change nothing.
     */
    method RunScan(now: int, aged: set<string>, late: set<string>, down: set<string>)
      returns (imbalances: map<string, int>, ghost scanned: seq<string>, ghost expired: seq<string>)
      requires repo == tokens.repo
      modifies repo
      ensures forall i, j :: 0 <= i < j < |scanned| ==> scanned[i] != scanned[j]
      ensures forall t :: t in scanned <==> ExpiredIn(old(repo.Contents()), t, now)
      ensures var released := ReleaseAll(old(repo.Contents()), scanned, down);
              && (forall txn :: txn in expired <==> Overdue(released, txn, aged, late) && txn !in down)
              && repo.Contents() == ExpireAll(released, expired)
      ensures imbalances == Imbalances(repo.ledger)
    {
      hide ReleaseAll, CountReleased;
      var count;
      count, scanned := tokens.ReleaseExpiredTokens(now, down);
      ghost var released := repo.Contents();
      var rest := set txn | txn in repo.intents && repo.intents[txn].status in IN_FLIGHT && txn in aged;
      expired := [];
      while rest != {}
        invariant forall txn :: txn in rest ==>
                    txn in released.intents && released.intents[txn].status in IN_FLIGHT && txn in aged
        invariant forall txn :: txn in expired <==> txn !in rest && Overdue(released, txn, aged, late) && txn !in down
        invariant repo.Contents() == ExpireAll(released, expired)
        decreases |rest|
      {
        var txn :| txn in rest;
        rest := rest - {txn};
        if txn in late && txn !in down {
          repo.UpdatePaymentIntentStatus(txn, IntentStatus.Expired);
          assert (expired + [txn])[..|expired|] == expired;
          expired := expired + [txn];
        }
      }
      imbalances := repo.CheckLedgerInconsistencies();
    }
  }

  // ---- The scan as steps of the settlement machine ----

  function ReleaseSteps(ids: seq<string>, down: set<string>): seq<Step>
  {
    if |ids| == 0 then []
    else
      var front, id := ReleaseSteps(ids[..|ids| - 1], down), ids[|ids| - 1];
      if id in down then front else front + [ReleaseToken(id)]
  }

  function ExpireSteps(txns: seq<string>): seq<Step>
  {
    if |txns| == 0 then [] else ExpireSteps(txns[..|txns| - 1]) + [ExpireIntent(txns[|txns| - 1])]
  }

  lemma {:induction false} ReleasesAreSteps(s: State, ids: seq<string>, down: set<string>)
    ensures Run(s, ReleaseSteps(ids, down)) == s.(db := ReleaseAll(s.db, ids, down))
  {
    hide ReleaseTx, Run;
    if |ids| == 0 {
      RunNothing(s);
    } else {
      var front, id := ids[..|ids| - 1], ids[|ids| - 1];
      ReleasesAreSteps(s, front, down);
      RunOneMore(s, ReleaseSteps(front, down), ReleaseToken(id));
    }
  }

  lemma RunNothing(s: State)
    ensures Run(s, []) == s
  {
  }

  lemma {:induction false} ExpiriesAreSteps(s: State, txns: seq<string>)
    ensures Run(s, ExpireSteps(txns)) == s.(db := ExpireAll(s.db, txns))
  {
    hide ExpireIntentTx, Run;
    if |txns| == 0 {
      RunNothing(s);
    } else {
      var front, txn := txns[..|txns| - 1], txns[|txns| - 1];
      ExpiriesAreSteps(s, front);
      RunOneMore(s, ExpireSteps(front), ExpireIntent(txn));
    }
  }

  function ScanSteps(scanned: seq<string>, down: set<string>, expired: seq<string>): seq<Step>
  {
    ReleaseSteps(scanned, down) + ExpireSteps(expired)
  }

  /** A scan is a run of the settlement machine, so whatever every run guarantees holds after it. */
  lemma ScanIsARun(steps: seq<Step>, scanned: seq<string>, down: set<string>, expired: seq<string>)
    ensures var s := Run(INIT, steps);
            Run(INIT, steps + ScanSteps(scanned, down, expired)) ==
            s.(db := ExpireAll(ReleaseAll(s.db, scanned, down), expired))
  {
    hide ReleaseAll, ExpireAll, ReleaseSteps, ExpireSteps, Run;
    var s := Run(INIT, steps);
    RunConcat(INIT, steps, ScanSteps(scanned, down, expired));
    RunConcat(s, ReleaseSteps(scanned, down), ExpireSteps(expired));
    ReleasesAreSteps(s, scanned, down);
    ExpiriesAreSteps(s.(db := ReleaseAll(s.db, scanned, down)), expired);
  }

  lemma {:induction false} ExpireTouchesIntentsOnly(db: Db, txns: seq<string>)
    ensures ExpireAll(db, txns) == db.(intents := ExpireAll(db, txns).intents)
  {
    if |txns| != 0 {
      ExpireTouchesIntentsOnly(db, txns[..|txns| - 1]);
    }
  }

  /**
   * After a scan in which every transaction went through, the ledger check reports a token past
   * its expiry exactly if undoing a hold had invalidated it: no other money stays reserved.
   */
  lemma ScanReportsOnlyFrozen(steps: seq<Step>, now: int, scanned: seq<string>, expired: seq<string>, t: string)
    requires Distinct(scanned)
    requires forall x :: x in scanned <==> ExpiredIn(Run(INIT, steps).db, x, now)
    requires Sum(Worth(Run(INIT, steps).db.accounts)) <= MAX_INT64
    requires t in Run(INIT, steps).db.tokens && Run(INIT, steps).db.tokens[t].expiry < now
    ensures var s := Run(INIT, steps);
            ReservationKey(t) in Imbalances(ExpireAll(ReleaseAll(s.db, scanned, {}), expired).ledger) <==> t in s.frozen
  {
    hide Run, ReleaseAll, ExpireAll, ExpiredIn, Imbalances, Sum, Worth, CountReleased, BalancesReleased;
    var s := Run(INIT, steps);
    var released := ReleaseAll(s.db, scanned, {});
    ExpiredTokensAreReleased(steps, now, scanned);
    ExpireTouchesIntentsOnly(released, expired);
    ScanIsARun(steps, scanned, {}, expired);
    LedgerCheckReportsOpenTokens(steps + ScanSteps(scanned, {}, expired));
    var s' := Run(INIT, steps + ScanSteps(scanned, {}, expired));
    assert s'.db.tokens == released.tokens && s'.frozen == s.frozen;
    assert t in released.tokens && released.tokens[t].expiry < now;
    if u :| u in s'.db.tokens && Open(s', u) && ReservationKey(u) == ReservationKey(t) {
      assert u == ReservationKey(u)[8..] && t == ReservationKey(t)[8..];
    }
  }

  /**
   * The status write does not look at the current status. A scan that read its list before a
   * settlement committed marks the settled intent EXPIRED; the settlement itself stands.
   */
  lemma StaleScanOverwritesStatus(steps: seq<Step>, i: nat)
    requires i in Run(INIT, steps).sagas && Committed(Run(INIT, steps).sagas[i])
    ensures var p := Run(INIT, steps).sagas[i].p;
            var s' := Run(INIT, steps + [ExpireIntent(p.txn)]);
            && p.txn in s'.db.intents && s'.db.intents[p.txn].status == IntentStatus.Expired
            && SettlementGroup(Group(s'.db.ledger, p.txn), p)
  {
    hide SettlementGroup, Group;
    var p := Run(INIT, steps).sagas[i].p;
    SettlementIsFinal(steps, [], i);
    SettlementIsFinal(steps, [ExpireIntent(p.txn)], i);
    assert steps + [] == steps;
    RunOneMore(INIT, steps, ExpireIntent(p.txn));
  }

  /** Reconciliation looks at an intent exactly until it reaches one of the final states. */
  lemma InFlightExactly(status: IntentStatus)
    ensures status in IN_FLIGHT <==>
            status !in {IntentStatus.Settled, Rejected, IntentStatus.Failed, IntentStatus.Expired, Duplicate,
                        Reconciled}
  {
    match status
    case Settled => case Rejected => case Failed => case Duplicate => case Created => case Signed => case Encrypted =>
    case Broadcast => case Relayed => case Validated => case Reserved => case Expired => case Reconciled =>
  }

  lemma {:induction false} ExpireAllAt(db: Db, txns: seq<string>, txn: string)
    ensures txn in ExpireAll(db, txns).intents <==> txn in db.intents
    ensures txn in db.intents ==>
              ExpireAll(db, txns).intents[txn] ==
              if txn in txns then db.intents[txn].(status := IntentStatus.Expired) else db.intents[txn]
  {
    if |txns| != 0 {
      ExpireAllAt(db, txns[..|txns| - 1], txn);
      assert txns == txns[..|txns| - 1] + [txns[|txns| - 1]];
    }
  }

  /**
   * A scan expires exactly the overdue intents that it could write to: after it none of those is
   * overdue, and every other intent is as it was.
   */
  lemma ScanLeavesNothingOverdue(db: Db, aged: set<string>, late: set<string>, down: set<string>, expired: seq<string>,
                                 txn: string)
    requires forall x :: x in expired <==> Overdue(db, x, aged, late) && x !in down
    ensures var db' := ExpireAll(db, expired);
            && (Overdue(db', txn, aged, late) ==> txn in down)
            && (txn in db.intents ==>
                  && txn in db'.intents
                  && db'.intents[txn] ==
                     if db.intents[txn].status in IN_FLIGHT && txn in aged && txn in late && txn !in down
                     then db.intents[txn].(status := IntentStatus.Expired)
                     else db.intents[txn])
  {
    hide ExpireAll;
    ExpireAllAt(db, expired, txn);
  }
}
