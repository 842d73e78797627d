/** What becomes of the status of a settled intent. */
module Statuses {
  import opened Basics
  import opened Tables
  import opened Transactions
  import opened Machine
  import opened Invariants
  import opened StepProof
  import opened Guarantees
  import opened Permanence
  import opened Services
  import opened Reconciliation

  /** The intent of a committed saga is there, with this status. */
  predicate HasStatus(db: Db, txn: string, status: IntentStatus)
  {
    txn in db.intents && db.intents[txn].status == status
  }

  lemma UndoKeepsStatus(db: Db, k: nat, p: Payload, value: int64, txn: string, status: IntentStatus)
    requires HasStatus(db, txn, status) && status != Reserved && k < 2
    ensures var r := UndoTx(db, k, p, value); r.Some? ==> HasStatus(r.value, txn, status)
  {
  }

  lemma ActionKeepsStatus(db: Db, k: nat, p: Payload, value: int64, txn: string, status: IntentStatus)
    requires HasStatus(db, txn, status) && (k == 2 ==> p.txn != txn)
    ensures var r := ActionTx(db, k, p, value); r.Some? ==> HasStatus(r.value, txn, status)
  {
  }

  /** No saga changes the status of an intent whose settlement has committed. */
  lemma SagaKeepsStatus(s: State, i: nat, j: nat, down: bool, status: IntentStatus)
    requires SagasOk(s) && Exclusive(s.sagas) && i in s.sagas && Committed(s.sagas[i]) && j in s.sagas
    requires HasStatus(s.db, s.sagas[i].p.txn, status) && status != Reserved
    ensures HasStatus(AdvanceSaga(s, j, down).db, s.sagas[i].p.txn, status)
  {
    hide ActionTx, UndoTx, HasStatus, OwnsRows;
    var sg, txn := s.sagas[j], s.sagas[i].p.txn;
    assert SagaOk(s.db, sg) && (i == j || Apart(s.sagas[i], sg));
    match sg.pc {
      case Forward(n) =>
        if n < STEPS {
          ActionKeepsStatus(s.db, n, sg.p, sg.value, txn, status);
        }
      case Undoing(n, tries) =>
        if n == 3 {
          UndoCommitBlocked(s, j);
          UndoOfCommit(s.db, sg.p, sg.value);
        } else if n > 0 {
          UndoKeepsStatus(s.db, n - 1, sg.p, sg.value, txn, status);
        }
      case Halted(n) =>
    }
  }

  /** Of all steps only a reconciliation write changes the status of an intent that has settled. */
  lemma StepKeepsStatus(s: State, step: Step, i: nat, status: IntentStatus)
    requires SagasOk(s) && Exclusive(s.sagas) && i in s.sagas && Committed(s.sagas[i])
    requires HasStatus(s.db, s.sagas[i].p.txn, status) && status != Reserved
    ensures var txn := s.sagas[i].p.txn;
            HasStatus(Apply(s, step).db, txn, if step == ExpireIntent(txn) then Expired else status)
  {
    hide AdvanceSaga, SagasOk, Exclusive;
    if step.Advance? && step.saga in s.sagas {
      SagaKeepsStatus(s, i, step.saga, step.down, status);
    }
  }

  lemma RunStep(steps: seq<Step>, i: nat, status: IntentStatus)
    requires |steps| > 0
    requires var s := Run(INIT, steps[..|steps| - 1]);
             i in s.sagas && Committed(s.sagas[i]) && HasStatus(s.db, s.sagas[i].p.txn, status) && status != Reserved
    ensures var s := Run(INIT, steps[..|steps| - 1]);
            var txn := s.sagas[i].p.txn;
            HasStatus(Run(INIT, steps).db, txn, if steps[|steps| - 1] == ExpireIntent(txn) then Expired else status)
  {
    hide Apply, HasStatus, AccountsOk, TokensOk, HistoryOk, SagasOk, Exclusive, Books, Money;
    Reachable(steps[..|steps| - 1]);
    StepKeepsStatus(Run(INIT, steps[..|steps| - 1]), steps[|steps| - 1], i, status);
  }

  /** The status that `more` steps leave on an intent that was SETTLED before them. */
  function StatusAfter(more: seq<Step>, txn: string): IntentStatus
  {
    if ExpireIntent(txn) in more then Expired else Settled
  }

  /**
   * A settled intent stays SETTLED exactly until reconciliation writes to it: after any
   * continuation its status is EXPIRED if one of its steps was such a write, and otherwise SETTLED.
   */
  lemma {:induction false} SettledStatusExactly(steps: seq<Step>, more: seq<Step>, i: nat)
    requires var s := Run(INIT, steps);
             i in s.sagas && Committed(s.sagas[i]) && HasStatus(s.db, s.sagas[i].p.txn, Settled)
    ensures var txn := Run(INIT, steps).sagas[i].p.txn;
            HasStatus(Run(INIT, steps + more).db, txn, StatusAfter(more, txn))
    decreases |more|
  {
    hide Run, HasStatus, SettlementGroup;
    if |more| == 0 {
      assert steps + more == steps;
    } else {
      var front, last, all := more[..|more| - 1], more[|more| - 1], steps + more;
      assert all[..|all| - 1] == steps + front && all[|all| - 1] == last;
      assert more == front + [last];
      SettledStatusExactly(steps, front, i);
      SettlementIsFinal(steps, front, i);
      var txn := Run(INIT, steps).sagas[i].p.txn;
      RunStep(all, i, StatusAfter(front, txn));
    }
  }

  lemma OnlyItsOwnStepCommits(s: State, i: nat, step: Step)
    requires i in Apply(s, step).sagas && Committed(Apply(s, step).sagas[i])
    requires i in s.sagas ==> !Committed(s.sagas[i])
    ensures i in s.sagas && step.Advance? && step.saga == i && Apply(s, step) == AdvanceSaga(s, i, step.down)
  {
    hide UndoTx, ActionTx, IssueTx, ReleaseTx, CreateAccountTx, SaveFailedTx, ExpireIntentTx;
  }

  /** The step that commits a saga leaves its intent SETTLED. */
  lemma CommitMarksSettled(s: State, i: nat, down: bool)
    requires i in s.sagas && SagaOk(s.db, s.sagas[i]) && !Committed(s.sagas[i])
    requires Committed(AdvanceSaga(s, i, down).sagas[i])
    ensures HasStatus(AdvanceSaga(s, i, down).db, s.sagas[i].p.txn, Settled)
  {
    hide UndoTx, ReserveTx, HoldTx, OwnsRows;
  }

  /** So in every run the intent of a committed saga is SETTLED or, after such a write, EXPIRED. */
  lemma {:induction false} SettledOrExpired(steps: seq<Step>, i: nat)
    requires i in Run(INIT, steps).sagas && Committed(Run(INIT, steps).sagas[i])
    ensures var s := Run(INIT, steps);
            HasStatus(s.db, s.sagas[i].p.txn, Settled) || HasStatus(s.db, s.sagas[i].p.txn, Expired)
  {
    hide Apply, HasStatus, AccountsOk, TokensOk, HistoryOk, Exclusive, Books, Money, SagaOk, SettlementGroup;
    if |steps| != 0 {
      var front, last := steps[..|steps| - 1], steps[|steps| - 1];
      var s := Run(INIT, front);
      Reachable(front);
      assert front + [last] == steps;
      if i in s.sagas && Committed(s.sagas[i]) {
        SettledOrExpired(front, i);
        SettlementIsFinal(front, [last], i);
        var status := if HasStatus(s.db, s.sagas[i].p.txn, Settled) then Settled else Expired;
        RunStep(steps, i, status);
      } else {
        OnlyItsOwnStepCommits(s, i, last);
        CommitMarksSettled(s, i, last.down);
      }
    }
  }

  // ---- A scan that reads after the commit ----

  lemma {:induction false} ReleaseKeepsIntents(db: Db, ids: seq<string>, down: set<string>)
    ensures ReleaseAll(db, ids, down).intents == db.intents
  {
    if |ids| != 0 {
      ReleaseKeepsIntents(db, ids[..|ids| - 1], down);
    }
  }

  lemma {:induction false} ReleaseStepsOnlyRelease(ids: seq<string>, down: set<string>, step: Step)
    requires step in ReleaseSteps(ids, down)
    ensures step.ReleaseToken?
  {
    if step in ReleaseSteps(ids[..|ids| - 1], down) {
      ReleaseStepsOnlyRelease(ids[..|ids| - 1], down, step);
    }
  }

  lemma {:induction false} ExpireStepsOnlyListed(txns: seq<string>, txn: string)
    requires ExpireIntent(txn) in ExpireSteps(txns)
    ensures txn in txns
  {
    if ExpireIntent(txn) in ExpireSteps(txns[..|txns| - 1]) {
      ExpireStepsOnlyListed(txns[..|txns| - 1], txn);
    }
  }

  /** A scan that reads its list after the commit leaves the intent SETTLED: it is no longer in flight. */
  lemma LateScanSparesSettled(steps: seq<Step>, i: nat, scanned: seq<string>, down: set<string>,
                              aged: set<string>, late: set<string>, expired: seq<string>)
    requires var s := Run(INIT, steps);
             && i in s.sagas && Committed(s.sagas[i]) && HasStatus(s.db, s.sagas[i].p.txn, Settled)
             && forall txn :: txn in expired ==> Overdue(ReleaseAll(s.db, scanned, down), txn, aged, late)
    ensures var txn := Run(INIT, steps).sagas[i].p.txn;
            && txn !in expired
            && HasStatus(Run(INIT, steps + ScanSteps(scanned, down, expired)).db, txn, Settled)
  {
    hide Run, ReleaseAll, ReleaseSteps, ExpireSteps;
    var s, more := Run(INIT, steps), ScanSteps(scanned, down, expired);
    var txn := s.sagas[i].p.txn;
    ReleaseKeepsIntents(s.db, scanned, down);
    assert txn !in expired;
    if ExpireIntent(txn) in more {
      if ExpireIntent(txn) in ReleaseSteps(scanned, down) {
        ReleaseStepsOnlyRelease(scanned, down, ExpireIntent(txn));
      } else {
        ExpireStepsOnlyListed(expired, txn);
      }
      assert false;
    }
    SettledStatusExactly(steps, more, i);
  }
}
