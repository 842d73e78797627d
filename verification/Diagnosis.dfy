/** Why recovery acts: every operation, and so every request, goes back to a failure that called for it. */
module Diagnosis {
  import opened Basics
  import opened Recovery

  /** The failure is within the amount and the time that the policy allows. */
  predicate WithinBudget(p: Policy, f: Failure, occurred: int, now: int)
  {
    f.amount <= p.maxAmount && now - occurred <= p.maxElapsed
  }

  /** The step recorded the operation, for a failure that calls for its action and no other. */
  predicate Justifies(p: Policy, step: Step, id: string, op: Operation)
  {
    && step.Record? && step.id == id && step.f.txn == op.txn && op.txn != "" && step.f.amount >= 0
    && op.created == step.time
    && var within := WithinBudget(p, step.f, Occurred(step.f, step.readings.0), step.readings.1);
    && var confident := step.c.confidence >= 0.7;
       match op.action
       case Retry => within && confident && step.c.category in {NetworkFailure, InfrastructureFailure}
       case Compensate => within && confident && step.c.category == PaymentFailure
       case Escalate => !within || (confident && step.c.category in {SecurityFailure, ConsistencyFailure})
       case Abstain => within && (!confident || step.c.category == UnknownFailure)
       case GiveUp => false
  }

  predicate Justified(p: Policy, steps: seq<Step>, id: string, op: Operation)
  {
    exists k :: 0 <= k < |steps| && Justifies(p, steps[k], id, op)
  }

  /** Justification does not depend on how far the operation has come. */
  lemma JustifiedStays(p: Policy, steps: seq<Step>, id: string, op: Operation, op': Operation)
    requires |steps| > 0 && Justified(p, steps[..|steps| - 1], id, op)
    requires op'.txn == op.txn && op'.action == op.action && op'.created == op.created
    ensures Justified(p, steps, id, op')
  {
    var k :| 0 <= k < |steps| - 1 && Justifies(p, steps[..|steps| - 1][k], id, op);
    assert Justifies(p, steps[k], id, op');
  }

  lemma PassKeepsKeys(p: Policy, s: Store, step: Step)
    requires p.Valid() && Inv(p, s) && step.Pass?
    ensures Apply(p, s, step).ops.Keys == s.ops.Keys
  {
    hide Inv, PassTx;
    if IsBatch(s.ops, step.batch, step.time) && IsClock(step.batch, step.time, step.nows) {
      PassSucceedsExactly(p, s, step.batch, step.time, step.nows);
    }
  }

  lemma NewIsJustified(p: Policy, s: Store, step: Step, id: string)
    requires p.Valid() && step.Record? && id in Apply(p, s, step).ops && id !in s.ops
    ensures Justifies(p, step, id, Apply(p, s, step).ops[id])
  {
    hide Policy.NextAttempt, HasOperation;
  }

  /** In every run each operation goes back to a recorded failure that called for its action. */
  lemma {:induction false} OperationsAreJustified(p: Policy, steps: seq<Step>, id: string)
    requires p.Valid() && id in Run(p, steps).ops
    ensures Justified(p, steps, id, Run(p, steps).ops[id])
  {
    hide Apply, Inv, Justified, Justifies;
    if |steps| != 0 {
      var front, last := steps[..|steps| - 1], steps[|steps| - 1];
      var s := Run(p, front);
      InvRun(p, front);
      ApplyIsLater(p, s, last);
      if id in s.ops {
        OperationsAreJustified(p, front, id);
        JustifiedStays(p, steps, id, s.ops[id], Run(p, steps).ops[id]);
      } else {
        if last.Pass? {
          PassKeepsKeys(p, s, last);
        }
        NewIsJustified(p, s, last, id);
        JustJustified(p, steps, id, Run(p, steps).ops[id]);
      }
    }
  }

  lemma JustJustified(p: Policy, steps: seq<Step>, id: string, op: Operation)
    requires |steps| > 0 && Justifies(p, steps[|steps| - 1], id, op)
    ensures Justified(p, steps, id, op)
  {
  }

  /**
   * Recovery acts by itself only within its budgets and on a confident diagnosis: a retry is
   * requested only for a network or infrastructure failure, and a review only for a payment
   * failure. A security, consistency or unknown failure never leads to a request.
   */
  lemma RequestsAreJustified(p: Policy, steps: seq<Step>, m: Message)
    requires p.Valid() && m in Run(p, steps).outbox && !m.Diagnosed?
    ensures exists k :: 0 <= k < |steps|
              && steps[k].Record? && steps[k].id == m.id && steps[k].f.txn == m.txn
              && WithinBudget(p, steps[k].f, Occurred(steps[k].f, steps[k].readings.0), steps[k].readings.1)
              && steps[k].c.confidence >= 0.7
              && (m.RetryRequested? ==> steps[k].c.category in {NetworkFailure, InfrastructureFailure})
              && (m.ReviewRequested? ==> steps[k].c.category == PaymentFailure)
  {
    hide Run, Attempts, WithinBudget;
    InvRun(p, steps);
    var s := Run(p, steps);
    var i :| 0 <= i < |s.outbox| && s.outbox[i] == m;
    assert MessageOk(p, s.ops, s.outbox[i]);
    OperationsAreJustified(p, steps, m.id);
    var k :| 0 <= k < |steps| && Justifies(p, steps[k], m.id, s.ops[m.id]);
  }

  // ---- One diagnosis each ----

  function Diagnoses(outbox: seq<Message>, id: string): int
  {
    if |outbox| == 0 then 0
    else
      var last := outbox[|outbox| - 1];
      Diagnoses(outbox[..|outbox| - 1], id) + if last.Diagnosed? && last.id == id then 1 else 0
  }

  predicate DiagnosedOnce(s: Store, id: string)
  {
    Diagnoses(s.outbox, id) == if id in s.ops then 1 else 0
  }

  lemma DiagnosesAppend(outbox: seq<Message>, m: Message, id: string)
    ensures Diagnoses(outbox + [m], id) == Diagnoses(outbox, id) + if m.Diagnosed? && m.id == id then 1 else 0
  {
    assert (outbox + [m])[..|outbox|] == outbox;
  }

  lemma RecordDiagnoses(p: Policy, s: Store, step: Step, id: string)
    requires step.Record? && DiagnosedOnce(s, id)
    ensures DiagnosedOnce(Apply(p, s, step), id)
  {
    hide Policy.NextAttempt, Policy.Decide, HasOperation, Diagnoses;
    var s' := Apply(p, s, step);
    if s' != s {
      DiagnosesAppend(s.outbox, s'.outbox[|s.outbox|], id);
    }
  }

  lemma AttemptDiagnoses(p: Policy, s: Store, x: string, time: int, now: int, id: string)
    requires x in s.ops
    ensures var r := AttemptTx(p, s, x, time, now);
            r.Some? ==> r.value.ops.Keys == s.ops.Keys && Diagnoses(r.value.outbox, id) == Diagnoses(s.outbox, id)
  {
    hide Policy.NextAttempt, Diagnoses;
    var r := AttemptTx(p, s, x, time, now);
    if r.Some? && |r.value.outbox| > |s.outbox| {
      DiagnosesAppend(s.outbox, r.value.outbox[|s.outbox|], id);
    }
  }

  lemma {:induction false} PassDiagnoses(p: Policy, s: Store, batch: seq<string>, time: int, nows: seq<int>, id: string)
    requires |batch| == |nows| && forall x :: x in batch ==> x in s.ops
    ensures var r := PassTx(p, s, batch, time, nows);
            r.Some? ==> r.value.ops.Keys == s.ops.Keys && Diagnoses(r.value.outbox, id) == Diagnoses(s.outbox, id)
  {
    hide AttemptTx, Diagnoses;
    if |batch| != 0 {
      PassDiagnoses(p, s, batch[..|batch| - 1], time, nows[..|nows| - 1], id);
      var rest := PassTx(p, s, batch[..|batch| - 1], time, nows[..|nows| - 1]);
      if rest.Some? && batch[|batch| - 1] in rest.value.ops {
        AttemptDiagnoses(p, rest.value, batch[|batch| - 1], time, nows[|nows| - 1], id);
      }
    }
  }

  /** In every run exactly one message announces each operation. */
  lemma {:induction false} EveryOperationIsDiagnosedOnce(p: Policy, steps: seq<Step>, id: string)
    ensures DiagnosedOnce(Run(p, steps), id)
  {
    hide PassTx, Policy.Decide;
    if |steps| != 0 {
      var s, last := Run(p, steps[..|steps| - 1]), steps[|steps| - 1];
      EveryOperationIsDiagnosedOnce(p, steps[..|steps| - 1], id);
      if last.Record? {
        RecordDiagnoses(p, s, last, id);
      } else if IsBatch(s.ops, last.batch, last.time) && IsClock(last.batch, last.time, last.nows) {
        PassDiagnoses(p, s, last.batch, last.time, last.nows, id);
      }
    }
  }

  // ---- The policy ----

  /** What the policy decides, for any failure and any number of attempts already made. */
  lemma DecidesExactly(p: Policy, f: Failure, occurred: int, c: Classification, attempts: int, now: int)
    ensures var action, within := p.Decide(f, occurred, c, attempts, now), WithinBudget(p, f, occurred, now);
            var left, confident := attempts < p.maxAttempts, c.confidence >= 0.7;
            && (action == GiveUp <==> within && !left)
            && (action == Retry <==>
                within && left && confident && c.category in {NetworkFailure, InfrastructureFailure})
            && (action == Compensate <==> within && left && confident && c.category == PaymentFailure)
            && (action == Abstain <==> within && left && (!confident || c.category == UnknownFailure))
            && (action == Escalate <==>
                !within || (left && confident && c.category in {SecurityFailure, ConsistencyFailure}))
  {
  }

  /**
   * Tightening a policy is safe: an operation that already made the attempts allowed is closed at its
   * next pass, without a request.
   */
  lemma TightenedPolicyCloses(p: Policy, s: Store, id: string, time: int, now: int)
    requires id in s.ops && s.ops[id].attempts >= p.maxAttempts
    ensures var r := AttemptTx(p, s, id, time, now);
            && r.Some? && r.value.outbox == s.outbox
            && r.value.ops == s.ops[id := s.ops[id].(state := Exhausted, next := None)]
  {
  }

  // ---- Requests are made when they are due ----

  lemma AttemptAdds(p: Policy, s: Store, id: string, time: int, now: int, m: Message)
    requires id in s.ops
    ensures var r := AttemptTx(p, s, id, time, now);
            r.Some? && m in r.value.outbox ==> m in s.outbox || (!m.Diagnosed? && m.id == id && m.at == time)
  {
    hide Policy.NextAttempt;
  }

  lemma {:induction false} PassAdds(p: Policy, s: Store, batch: seq<string>, time: int, nows: seq<int>, m: Message)
    requires |batch| == |nows| && forall x :: x in batch ==> x in s.ops
    ensures var r := PassTx(p, s, batch, time, nows);
            r.Some? && m in r.value.outbox ==> m in s.outbox || (!m.Diagnosed? && m.id in batch && m.at == time)
  {
    hide AttemptTx;
    if |batch| != 0 {
      var front := PassTx(p, s, batch[..|batch| - 1], time, nows[..|nows| - 1]);
      PassAdds(p, s, batch[..|batch| - 1], time, nows[..|nows| - 1], m);
      if front.Some? && batch[|batch| - 1] in front.value.ops {
        AttemptAdds(p, front.value, batch[|batch| - 1], time, nows[|nows| - 1], m);
      }
    }
  }

  /** Step `k` of the run is a pass that made the request, at a time when its operation was due. */
  predicate Requested(p: Policy, steps: seq<Step>, k: nat, m: Message)
    requires k < |steps|
  {
    steps[k].Pass? && !m.Diagnosed? && steps[k].time == m.at && IsDue(Run(p, steps[..k]).ops, m.id, m.at)
  }

  lemma StepAdds(p: Policy, s: Store, step: Step, m: Message)
    requires !m.Diagnosed? && m in Apply(p, s, step).outbox && m !in s.outbox
    ensures step.Pass? && step.time == m.at && IsDue(s.ops, m.id, m.at)
  {
    hide PassTx, Policy.Decide, Policy.NextAttempt;
    if step.Pass? && IsBatch(s.ops, step.batch, step.time) && IsClock(step.batch, step.time, step.nows) {
      PassAdds(p, s, step.batch, step.time, step.nows, m);
    }
  }

  /** In every run each request was made by a pass at which its operation was due. */
  lemma {:induction false} RequestsAreDue(p: Policy, steps: seq<Step>, m: Message)
    requires m in Run(p, steps).outbox && !m.Diagnosed?
    ensures exists k :: 0 <= k < |steps| && Requested(p, steps, k, m)
  {
    hide Apply, IsDue;
    var front := steps[..|steps| - 1];
    if m in Run(p, front).outbox {
      RequestsAreDue(p, front, m);
      var k :| 0 <= k < |front| && Requested(p, front, k, m);
      assert front[..k] == steps[..k];
      assert Requested(p, steps, k, m);
    } else {
      StepAdds(p, Run(p, front), steps[|steps| - 1], m);
      assert Requested(p, steps, |steps| - 1, m);
    }
  }
}
