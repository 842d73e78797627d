/** Bounded recovery: the policy, the recovery operations and the passes that drive them. */
module Recovery {
  import opened Basics

  datatype Category =
    | NetworkFailure | PaymentFailure | SecurityFailure | ConsistencyFailure | InfrastructureFailure | UnknownFailure

  datatype Classification = Classification(category: Category, confidence: real)

  datatype Action = Retry | Compensate | Escalate | Abstain | GiveUp

  datatype OpState = Pending | Diagnosing | Scheduled | Recovering | Compensated | Escalated | Exhausted

  /** The transition table of recovery states; no operation of this program consults it. */
  predicate IsValidTransition(from: OpState, next: OpState)
  {
    from == next ||
    match from
    case Pending => next == Diagnosing
    case Diagnosing => next in {Scheduled, Escalated}
    case Scheduled => next in {Recovering, Exhausted, Escalated}
    case Recovering => next in {Scheduled, Compensated, Escalated, Exhausted}
    case _ => false
  }

  datatype Failure = Failure(txn: string, amount: int, occurredAt: Option<int>)

  datatype Operation = Operation(txn: string, action: Action, state: OpState, attempts: int, next: Option<int>,
      created: int)

  /** What recovery writes to the outbox; `at` is the time of the writing transaction. */
  datatype Message =
    | Diagnosed(id: string, txn: string, action: Action)
    | RetryRequested(id: string, txn: string, attempt: int, at: int)
    | ReviewRequested(id: string, txn: string, attempt: int, at: int)

  const MINIMUM_CONFIDENCE: real := 0.7
  /** The CHECK constraint on `attempt_count`. */
  const ATTEMPT_LIMIT := 3

  // ---- The policy ----

  /** The moves of the transition table, besides staying. */
  const MOVES: set<(OpState, OpState)> :=
    {(Pending, Diagnosing), (Diagnosing, Scheduled), (Diagnosing, Escalated), (Scheduled, Recovering),
     (Scheduled, Exhausted), (Scheduled, Escalated), (Recovering, Scheduled), (Recovering, Compensated),
     (Recovering, Escalated), (Recovering, Exhausted)}

  lemma MovesExactly(from: OpState, next: OpState)
    ensures IsValidTransition(from, next) <==> from == next || (from, next) in MOVES
  {
    match from
    case Pending => case Diagnosing => case Scheduled => case Recovering => case Compensated =>
    case Exhausted => case Escalated =>
  }

  /** No chain of valid transitions revives an operation that is COMPENSATED, EXHAUSTED or ESCALATED. */
  lemma {:induction false} NeverRevived(chain: seq<OpState>, k: nat)
    requires k < |chain| && chain[0] in {Compensated, Exhausted, Escalated}
    requires forall i :: 0 <= i < |chain| - 1 ==> IsValidTransition(chain[i], chain[i + 1])
    ensures chain[k] == chain[0]
  {
    if k > 0 {
      NeverRevived(chain, k - 1);
      assert IsValidTransition(chain[k - 1], chain[k - 1 + 1]);
    }
  }

  datatype Policy = Policy(maxAttempts: int, maxAmount: int, maxElapsed: int, cooldown: int)
  {
    predicate Valid()
    {
      maxAttempts > 0 && maxAmount > 0 && maxElapsed > 0 && cooldown > 0
    }

    function Decide(f: Failure, occurredAt: int, c: Classification, attempts: int, now: int): Action
    {
      if f.amount > maxAmount || occurredAt + maxElapsed < now then Escalate
      else if attempts >= maxAttempts then GiveUp
      else if c.confidence < MINIMUM_CONFIDENCE then Abstain
      else
        match c.category
        case NetworkFailure => Retry
        case InfrastructureFailure => Retry
        case PaymentFailure => Compensate
        case SecurityFailure => Escalate
        case ConsistencyFailure => Escalate
        case UnknownFailure => Abstain
    }

    function NextAttempt(attempt: int, now: int): int
    {
      now + Shift(cooldown, if attempt < 1 then 0 else attempt - 1)
    }
  }

  /** `d << n`. */
  function Shift(d: int, n: nat): int
  {
    if n == 0 then d else 2 * Shift(d, n - 1)
  }

  lemma {:induction false} ShiftGrows(d: int, n: nat)
    requires d > 0
    ensures Shift(d, n) >= d
  {
    if n > 0 {
      ShiftGrows(d, n - 1);
    }
  }

  function StateFor(action: Action): OpState
  {
    match action
    case Retry => Scheduled
    case Compensate => Scheduled
    case GiveUp => Exhausted
    case Escalate => Escalated
    case Abstain => Escalated
  }

  // ---- Transactions ----

  datatype Store = Store(ops: map<string, Operation>, outbox: seq<Message>)

  /** The unique idempotency key is made of the payment's identifier alone. */
  predicate HasOperation(ops: map<string, Operation>, txn: string)
  {
    exists id :: id in ops && ops[id].txn == txn
  }

  function RecordTx(p: Policy, s: Store, txn: string, action: Action, id: string, time: int, now: int): Option<Store>
  {
    if HasOperation(s.ops, txn) then Some(s)
    else if id in s.ops then None
    else
      var next := if StateFor(action) == Scheduled then Some(p.NextAttempt(1, now)) else None;
      Some(Store(s.ops[id := Operation(txn, action, StateFor(action), 0, next, time)],
          s.outbox + [Diagnosed(id, txn, action)]))
  }

  /** One operation of a pass. */
  function AttemptTx(p: Policy, s: Store, id: string, time: int, now: int): Option<Store>
    requires id in s.ops
  {
    var op := s.ops[id];
    var attempt := op.attempts + 1;
    if op.attempts >= p.maxAttempts then Some(s.(ops := s.ops[id := op.(state := Exhausted, next := None)]))
    else if attempt > ATTEMPT_LIMIT then None
    else if op.action == Compensate then
      Some(Store(s.ops[id := op.(state := Escalated, attempts := attempt, next := None)],
                 s.outbox + [ReviewRequested(id, op.txn, attempt, time)]))
    else
      var done := attempt == p.maxAttempts;
      Some(Store(s.ops[id := op.(state := if done then Exhausted else Scheduled, attempts := attempt,
                                 next := if done then None else Some(p.NextAttempt(attempt + 1, now)))],
                 s.outbox + [RetryRequested(id, op.txn, attempt, time)]))
  }

  /** A pass is one transaction: a failed statement undoes all of it. */
  function PassTx(p: Policy, s: Store, batch: seq<string>, time: int, nows: seq<int>): Option<Store>
    requires |batch| == |nows| && forall id :: id in batch ==> id in s.ops
  {
    if |batch| == 0 then Some(s)
    else
      var rest := PassTx(p, s, batch[..|batch| - 1], time, nows[..|nows| - 1]);
      if rest.None? || batch[|batch| - 1] !in rest.value.ops then None
      else AttemptTx(p, rest.value, batch[|batch| - 1], time, nows[|nows| - 1])
  }

  predicate IsDue(ops: map<string, Operation>, id: string, time: int)
  {
    id in ops && ops[id].state == Scheduled && ops[id].next.Some? && ops[id].next.value <= time
  }

  /** What the claiming query can return, whatever rows other passes have locked. */
  predicate IsBatch(ops: map<string, Operation>, batch: seq<string>, time: int)
  {
    && (forall id :: id in batch ==> IsDue(ops, id, time))
    && (forall i, j :: 0 <= i < j < |batch| ==> batch[i] != batch[j])
  }

  lemma BatchIsKnown(ops: map<string, Operation>, batch: seq<string>, time: int)
    requires IsBatch(ops, batch, time)
    ensures forall k :: 0 <= k < |batch| ==> batch[k] in ops
  {
    assert forall k :: 0 <= k < |batch| ==> batch[k] in batch;
  }

  /** The clock readings of a pass, none before the start of its transaction. */
  predicate IsClock(batch: seq<string>, time: int, nows: seq<int>)
  {
    |nows| == |batch| && forall i :: 0 <= i < |nows| ==> nows[i] >= time
  }

  class Manager {
    const policy: Policy
    var ops: map<string, Operation>
    var outbox: seq<Message>

    constructor (p: Policy)
      requires p.Valid()
      ensures policy == p && Contents() == Store(map[], [])
    {
      policy := p;
      ops, outbox := map[], [];
    }

    function Contents(): Store
      reads this
    {
      Store(ops, outbox)
    }

    /** `stored` says whether the failure row is accepted; `readings` are the three clock readings. */
    method RecordFailure(f: Failure, c: Classification, stored: bool, id: string, time: int, readings: (int, int, int))
      returns (action: Option<Action>, ok: bool)
      modifies this
      ensures action.None? <==> f.txn == "" || f.amount < 0
      ensures action.Some? ==>
                action.value ==
                policy.Decide(f, if f.occurredAt.Some? then f.occurredAt.value else readings.0, c, 0, readings.1)
      ensures ok <==>
              action.Some? && stored &&
              RecordTx(policy, old(Contents()), f.txn, action.value, id, time, readings.2).Some?
      ensures ok ==> RecordTx(policy, old(Contents()), f.txn, action.value, id, time, readings.2) == Some(Contents())
      ensures !ok ==> Contents() == old(Contents())
      ensures ok <==> f.txn != "" && f.amount >= 0 && stored && (HasOperation(old(ops), f.txn) || id !in old(ops))
      ensures HasOperation(old(ops), f.txn) ==> Contents() == old(Contents())
    {
      if f.txn == "" || f.amount < 0 {
        return None, false;
      }
      var occurredAt := if f.occurredAt.Some? then f.occurredAt.value else readings.0;
      var decision := policy.Decide(f, occurredAt, c, 0, readings.1);
      if !stored {
        return Some(decision), false;
      }
      if HasOperation(ops, f.txn) {
        return Some(decision), true;
      }
      if id in ops {
        return Some(decision), false;
      }
      var state := StateFor(decision);
      var next := if decision == Retry || decision == Compensate then Some(policy.NextAttempt(1, readings.2)) else None;
      ops := ops[id := Operation(f.txn, decision, state, 0, next, time)];
      outbox := outbox + [Diagnosed(id, f.txn, decision)];
      return Some(decision), true;
    }

    /** Drive the claimed operations; an aborted pass leaves everything as it was. */
    method RunOnce(batch: seq<string>, time: int, nows: seq<int>) returns (ok: bool)
      requires IsBatch(ops, batch, time) && IsClock(batch, time, nows)
      modifies this
      ensures ok <==> PassTx(policy, old(Contents()), batch, time, nows).Some?
      ensures Contents() == if ok then PassTx(policy, old(Contents()), batch, time, nows).value else old(Contents())
    {
      hide Policy.NextAttempt, IsBatch, PassTx;
      ghost var s := Contents();
      var newOps, newOutbox := ops, outbox;
      BatchIsKnown(ops, batch, time);
      PassNone(policy, s, batch, time, nows);
      for i := 0 to |batch|
        invariant newOps.Keys == s.ops.Keys
        invariant forall k :: 0 <= k < |batch| ==> batch[k] in s.ops
        invariant PassTx(policy, s, batch[..i], time, nows[..i]) == Some(Store(newOps, newOutbox))
        invariant Contents() == s
      {
        PassTurn(policy, s, batch, time, nows, i);
        var id := batch[i];
        var op := newOps[id];
        if op.attempts >= policy.maxAttempts {
          newOps := newOps[id := op.(state := Exhausted, next := None)];
          continue;
        }
        var attempts := op.attempts + 1;
        var terminal, next := Scheduled, Some(policy.NextAttempt(attempts + 1, nows[i]));
        if attempts == policy.maxAttempts {
          terminal, next := Exhausted, None;
        }
        if op.action == Compensate {
          terminal, next := Escalated, None;
        }
        if attempts > ATTEMPT_LIMIT {
          AbortedPass(policy, s, batch, time, nows, i + 1);
          return false;
        }
        newOutbox := newOutbox + [if op.action == Compensate then ReviewRequested(id, op.txn, attempts, time)
                                  else RetryRequested(id, op.txn, attempts, time)];
        newOps := newOps[id := op.(state := terminal, attempts := attempts, next := next)];
      }
      assert batch[..|batch|] == batch && nows[..|nows|] == nows;
      ops, outbox := newOps, newOutbox;
      return true;
    }
  }

  lemma PassNone(p: Policy, s: Store, batch: seq<string>, time: int, nows: seq<int>)
    requires |batch| == |nows|
    ensures PassTx(p, s, batch[..0], time, nows[..0]) == Some(s)
  {
  }

  /** One turn of a pass. */
  lemma PassTurn(p: Policy, s: Store, batch: seq<string>, time: int, nows: seq<int>, i: nat)
    requires |batch| == |nows| && i < |batch| && forall k :: 0 <= k < |batch| ==> batch[k] in s.ops
    ensures var before := PassTx(p, s, batch[..i], time, nows[..i]);
            PassTx(p, s, batch[..i + 1], time, nows[..i + 1]) ==
            if before.None? || batch[i] !in before.value.ops then None
            else AttemptTx(p, before.value, batch[i], time, nows[i])
  {
    hide AttemptTx;
    assert batch[..i + 1][..i] == batch[..i] && nows[..i + 1][..i] == nows[..i];
  }

  lemma {:induction false} AbortedPass(p: Policy, s: Store, batch: seq<string>, time: int, nows: seq<int>, i: nat)
    requires |batch| == |nows| && i <= |batch| && forall id :: id in batch ==> id in s.ops
    requires PassTx(p, s, batch[..i], time, nows[..i]).None?
    ensures PassTx(p, s, batch, time, nows).None?
    decreases |batch|
  {
    hide AttemptTx;
    if i == |batch| {
      assert batch[..i] == batch && nows[..i] == nows;
    } else {
      var front, fronts := batch[..|batch| - 1], nows[..|nows| - 1];
      assert front[..i] == batch[..i] && fronts[..i] == nows[..i];
      AbortedPass(p, s, front, time, fronts, i);
    }
  }

  // ---- Runs ----

  datatype Step =
    | Record(f: Failure, c: Classification, id: string, time: int, readings: (int, int, int))
    | Pass(batch: seq<string>, time: int, nows: seq<int>)

  function Occurred(f: Failure, now: int): int
  {
    if f.occurredAt.Some? then f.occurredAt.value else now
  }

  /** Record failures in any order and run passes at any time; a step that cannot happen changes nothing. */
  function Apply(p: Policy, s: Store, step: Step): Store
  {
    match step
    case Record(f, c, id, time, readings) =>
      if f.txn == "" || f.amount < 0 || readings.2 < time then s
      else
        var action := p.Decide(f, Occurred(f, readings.0), c, 0, readings.1);
        var r := RecordTx(p, s, f.txn, action, id, time, readings.2);
        if r.Some? then r.value else s
    case Pass(batch, time, nows) =>
      if !IsBatch(s.ops, batch, time) || !IsClock(batch, time, nows) then s
      else var r := PassTx(p, s, batch, time, nows); if r.Some? then r.value else s
  }

  function Run(p: Policy, steps: seq<Step>): Store
  {
    if |steps| == 0 then Store(map[], []) else Apply(p, Run(p, steps[..|steps| - 1]), steps[|steps| - 1])
  }

  // ---- The invariant ----

  /** The attempt numbers requested for an operation, in order. */
  function Attempts(outbox: seq<Message>, id: string): seq<int>
  {
    if |outbox| == 0 then []
    else Attempts(outbox[..|outbox| - 1], id) + AttemptIn(outbox[|outbox| - 1], id)
  }

  function AttemptIn(m: Message, id: string): seq<int>
  {
    if m.Diagnosed? || m.id != id then [] else [m.attempt]
  }

  function OneUpTo(n: int): seq<int>
  {
    if n <= 0 then [] else OneUpTo(n - 1) + [n]
  }

  /** The earliest time of attempt `k`: cooldown * (2^k - 1) after the operation was created. */
  function Earliest(p: Policy, op: Operation, k: nat): int
  {
    op.created + Shift(p.cooldown, k) - p.cooldown
  }

  predicate OperationOk(p: Policy, op: Operation)
  {
    && 0 <= op.attempts <= p.maxAttempts && op.attempts <= ATTEMPT_LIMIT
    && (op.state == Scheduled <==> op.next.Some?)
    && (op.state == Scheduled ==> op.attempts < p.maxAttempts && op.next.value >= Earliest(p, op, op.attempts + 1))
    && match op.action
       case Retry => op.state in {Scheduled, Exhausted} && (op.state == Exhausted ==> op.attempts == p.maxAttempts)
       case Compensate => op.state in {Scheduled, Escalated} && op.attempts == if op.state == Scheduled then 0 else 1
       case Escalate => op.state == Escalated && op.attempts == 0
       case Abstain => op.state == Escalated && op.attempts == 0
       case GiveUp => op.state == Exhausted && op.attempts == 0
  }

  /** A message is about an operation, of the kind its action asks for, and not early. */
  predicate MessageOk(p: Policy, ops: map<string, Operation>, m: Message)
  {
    && m.id in ops && ops[m.id].txn == m.txn
    && match m
       case Diagnosed(id, _, action) => ops[id].action == action
       case RetryRequested(id, _, k, at) => ops[id].action == Retry && k >= 1 && at >= Earliest(p, ops[id], k)
       case ReviewRequested(id, _, k, at) => ops[id].action == Compensate && k == 1 && at >= Earliest(p, ops[id], 1)
  }

  predicate OneEach(ops: map<string, Operation>)
  {
    forall i, j :: i in ops && j in ops && ops[i].txn == ops[j].txn ==> i == j
  }

  ghost predicate Inv(p: Policy, s: Store)
  {
    && OneEach(s.ops)
    && (forall id :: id in s.ops ==> OperationOk(p, s.ops[id]))
    && (forall i :: 0 <= i < |s.outbox| ==> MessageOk(p, s.ops, s.outbox[i]))
    && (forall id :: Attempts(s.outbox, id) == if id in s.ops then OneUpTo(s.ops[id].attempts) else [])
  }

  lemma AttemptsAppend(outbox: seq<Message>, m: Message, id: string)
    ensures Attempts(outbox + [m], id) == Attempts(outbox, id) + AttemptIn(m, id)
  {
  }

  /** Messages stay true when rows keep their payment, action and creation time. */
  predicate Kept(ops: map<string, Operation>, ops': map<string, Operation>)
  {
    forall id :: id in ops ==>
      id in ops' && ops'[id].txn == ops[id].txn && ops'[id].action == ops[id].action
          && ops'[id].created == ops[id].created
  }

  lemma AppendKeepsInv(p: Policy, s: Store, id: string, op: Operation, m: Message)
    requires Inv(p, s) && OperationOk(p, op)
    requires if id in s.ops then Kept(s.ops, s.ops[id := op]) && !m.Diagnosed? && op.attempts == s.ops[id].attempts + 1
             else !HasOperation(s.ops, op.txn) && m.Diagnosed? && op.attempts == 0
    requires !m.Diagnosed? ==> m.attempt == op.attempts
    requires m.id == id && MessageOk(p, s.ops[id := op], m)
    ensures Inv(p, Store(s.ops[id := op], s.outbox + [m]))
  {
    hide OperationOk, Shift, Attempts;
    var s' := Store(s.ops[id := op], s.outbox + [m]);
    forall x: string
      ensures Attempts(s'.outbox, x) == if x in s'.ops then OneUpTo(s'.ops[x].attempts) else []
    {
      AttemptsAppend(s.outbox, m, x);
    }
    assert OneEach(s'.ops);
    forall i | 0 <= i < |s'.outbox|
      ensures MessageOk(p, s'.ops, s'.outbox[i])
    {
      if i < |s.outbox| {
        assert MessageOk(p, s.ops, s.outbox[i]);
      }
    }
  }

  lemma RecordKeepsInv(p: Policy, s: Store, txn: string, action: Action, id: string, time: int, now: int)
    requires p.Valid() && Inv(p, s) && now >= time
    ensures var r := RecordTx(p, s, txn, action, id, time, now); r.Some? ==> Inv(p, r.value)
  {
    hide Inv, HasOperation;
    if !HasOperation(s.ops, txn) && id !in s.ops {
      var r := RecordTx(p, s, txn, action, id, time, now);
      assert Shift(p.cooldown, 1) == 2 * Shift(p.cooldown, 0);
      AppendKeepsInv(p, s, id, r.value.ops[id], Diagnosed(id, txn, action));
    }
  }

  lemma OperationFacts(p: Policy, s: Store, id: string)
    requires Inv(p, s) && id in s.ops
    ensures OperationOk(p, s.ops[id])
  {
  }

  lemma AttemptKeepsInv(p: Policy, s: Store, id: string, time: int, now: int)
    requires p.Valid() && Inv(p, s) && IsDue(s.ops, id, time) && now >= time
    ensures var r := AttemptTx(p, s, id, time, now);
            && s.ops[id].attempts < p.maxAttempts
            && (r.Some? <==> s.ops[id].attempts < ATTEMPT_LIMIT)
            && (r.Some? ==> Inv(p, r.value) && r.value.ops.Keys == s.ops.Keys &&
                            forall x :: x in s.ops && x != id ==> r.value.ops[x] == s.ops[x])
  {
    hide Inv;
    var op := s.ops[id];
    OperationFacts(p, s, id);
    var k: nat := op.attempts + 1;
    assert Shift(p.cooldown, k + 1) == 2 * Shift(p.cooldown, k);
    ShiftGrows(p.cooldown, k);
    if k <= ATTEMPT_LIMIT {
      var r := AttemptTx(p, s, id, time, now);
      AppendKeepsInv(p, s, id, r.value.ops[id], r.value.outbox[|s.outbox|]);
    }
  }

  /**
   * A pass succeeds exactly when no operation it claimed has used up the attempts that the
   * table allows; under a policy of at most three attempts it therefore always does.
   */
  lemma {:induction false} PassSucceedsExactly(p: Policy, s: Store, batch: seq<string>, time: int, nows: seq<int>)
    requires p.Valid() && Inv(p, s) && IsBatch(s.ops, batch, time) && IsClock(batch, time, nows)
    ensures var r := PassTx(p, s, batch, time, nows);
            && (r.Some? <==> forall id :: id in batch ==> s.ops[id].attempts < 3)
            && (p.maxAttempts <= 3 ==> r.Some?)
            && (r.Some? ==> Inv(p, r.value) && r.value.ops.Keys == s.ops.Keys &&
                            forall x :: x in s.ops && x !in batch ==> r.value.ops[x] == s.ops[x])
  {
    hide Inv, AttemptTx;
    if |batch| != 0 {
      var front, fronts, id := batch[..|batch| - 1], nows[..|nows| - 1], batch[|batch| - 1];
      PassSucceedsExactly(p, s, front, time, fronts);
      assert id in batch && id !in front;
      assert forall x :: x in batch <==> x in front || x == id;
      OperationFacts(p, s, id);
      var rest := PassTx(p, s, front, time, fronts);
      if rest.Some? {
        AttemptKeepsInv(p, rest.value, id, time, nows[|nows| - 1]);
      }
    }
  }

  /** In every run the invariant holds. */
  lemma {:induction false} InvRun(p: Policy, steps: seq<Step>)
    requires p.Valid()
    ensures Inv(p, Run(p, steps))
  {
    if |steps| != 0 {
      InvRun(p, steps[..|steps| - 1]);
      ApplyKeepsInv(p, Run(p, steps[..|steps| - 1]), steps[|steps| - 1]);
    }
  }

  lemma ApplyKeepsInv(p: Policy, s: Store, step: Step)
    requires p.Valid() && Inv(p, s)
    ensures Inv(p, Apply(p, s, step))
  {
    hide Inv, RecordTx, PassTx, IsBatch, IsClock;
    match step {
      case Record(f, c, id, time, readings) =>
        if readings.2 >= time {
          RecordKeepsInv(p, s, f.txn, p.Decide(f, Occurred(f, readings.0), c, 0, readings.1), id, time, readings.2);
        }
      case Pass(batch, time, nows) =>
        if IsBatch(s.ops, batch, time) && IsClock(batch, time, nows) {
          PassSucceedsExactly(p, s, batch, time, nows);
        }
    }
  }

  // ---- What every run guarantees ----

  lemma {:induction false} AttemptsLength(n: nat)
    ensures |OneUpTo(n)| == n && forall i :: 0 <= i < n ==> OneUpTo(n)[i] == i + 1
  {
    if n > 0 {
      AttemptsLength(n - 1);
    }
  }

  /**
   * Recovery is bounded: a payment has at most one operation; the requests written for an
   * operation are numbered 1, 2, ... up to its attempt count, with none missing or repeated;
   * there are at most MaxAttempts of them, and at most one if the action is to compensate.
   */
  lemma RecoveryIsBounded(p: Policy, steps: seq<Step>, id: string)
    requires p.Valid()
    ensures var s := Run(p, steps);
            && OneEach(s.ops)
            && var numbers := Attempts(s.outbox, id);
               && |numbers| <= p.maxAttempts && |numbers| <= 3
               && (forall i :: 0 <= i < |numbers| ==> numbers[i] == i + 1)
               && (|numbers| > 0 ==> id in s.ops)
               && (id in s.ops ==> |numbers| == s.ops[id].attempts &&
                                   (s.ops[id].action == Compensate ==> |numbers| <= 1) &&
                                   (s.ops[id].action !in {Retry, Compensate} ==> |numbers| == 0))
  {
    hide Run, Attempts;
    InvRun(p, steps);
    var s := Run(p, steps);
    if id in s.ops {
      AttemptsLength(s.ops[id].attempts);
    }
  }

  /** Attempt `k` is never requested before cooldown * (2^k - 1) has passed since the failure was recorded. */
  lemma BackoffIsKept(p: Policy, steps: seq<Step>, m: Message)
    requires p.Valid() && m in Run(p, steps).outbox && !m.Diagnosed?
    ensures var s := Run(p, steps);
            m.id in s.ops && m.attempt >= 1 && m.at >= s.ops[m.id].created + Shift(p.cooldown, m.attempt) - p.cooldown
  {
    hide Run, Attempts, Shift;
    InvRun(p, steps);
    var s := Run(p, steps);
    var i :| 0 <= i < |s.outbox| && s.outbox[i] == m;
    assert MessageOk(p, s.ops, s.outbox[i]);
  }

  /** A pass never meets an operation with no attempts left, so the branch for that case never runs. */
  lemma DueMeansAttemptsLeft(p: Policy, steps: seq<Step>, id: string, time: int)
    requires p.Valid() && IsDue(Run(p, steps).ops, id, time)
    ensures Run(p, steps).ops[id].attempts < p.maxAttempts
  {
    hide Run;
    InvRun(p, steps);
    OperationFacts(p, Run(p, steps), id);
  }

  /**
   * Rows are never deleted, keep their payment and action, follow the transition table, and never
   * leave a final state: the only changes of state are from SCHEDULED to EXHAUSTED or ESCALATED.
   */
  predicate Later(ops: map<string, Operation>, ops': map<string, Operation>)
  {
    && Kept(ops, ops')
    && forall id :: id in ops && id in ops' ==>
         IsValidTransition(ops[id].state, ops'[id].state) && (ops[id].state != Scheduled ==> ops'[id] == ops[id])
         && ops'[id].state in {ops[id].state, Exhausted, Escalated}
  }

  lemma AttemptIsLater(p: Policy, ops: map<string, Operation>, s: Store, id: string, time: int, now: int)
    requires Later(ops, s.ops) && id in ops && ops[id].state == Scheduled && id in s.ops
    ensures var r := AttemptTx(p, s, id, time, now); r.Some? ==> Later(ops, r.value.ops)
  {
    hide Policy.NextAttempt;
  }

  lemma {:induction false} PassIsLater(p: Policy, s: Store, batch: seq<string>, time: int, nows: seq<int>)
    requires |batch| == |nows| && forall id :: id in batch ==> id in s.ops && s.ops[id].state == Scheduled
    ensures var r := PassTx(p, s, batch, time, nows); r.Some? ==> Later(s.ops, r.value.ops)
  {
    hide AttemptTx;
    if |batch| != 0 {
      var rest, id := PassTx(p, s, batch[..|batch| - 1], time, nows[..|nows| - 1]), batch[|batch| - 1];
      PassIsLater(p, s, batch[..|batch| - 1], time, nows[..|nows| - 1]);
      assert id in batch;
      if rest.Some? && id in rest.value.ops {
        AttemptIsLater(p, s.ops, rest.value, id, time, nows[|nows| - 1]);
      }
    }
  }

  lemma ApplyIsLater(p: Policy, s: Store, step: Step)
    ensures Later(s.ops, Apply(p, s, step).ops)
  {
    hide Policy.NextAttempt, PassTx;
    if step.Pass? && IsBatch(s.ops, step.batch, step.time) && IsClock(step.batch, step.time, step.nows) {
      PassIsLater(p, s, step.batch, step.time, step.nows);
    }
  }

  /** A final operation stays as it is in every continuation of the run. */
  lemma {:induction false} FinalIsFinal(p: Policy, steps: seq<Step>, more: seq<Step>)
    ensures Later(Run(p, steps).ops, Run(p, steps + more).ops)
  {
    hide Apply;
    if |more| == 0 {
      assert steps + more == steps;
    } else {
      var all := steps + more;
      assert all[..|all| - 1] == steps + more[..|more| - 1];
      FinalIsFinal(p, steps, more[..|more| - 1]);
      ApplyIsLater(p, Run(p, all[..|all| - 1]), all[|all| - 1]);
    }
  }

  /**
   * A policy of more attempts than the table allows blocks itself: once an operation has used
   * three, every pass that claims it aborts and changes nothing.
   */
  lemma OverLimitBlocks(p: Policy, steps: seq<Step>, id: string, batch: seq<string>, time: int, nows: seq<int>)
    requires p.Valid() && IsBatch(Run(p, steps).ops, batch, time) && IsClock(batch, time, nows)
    requires id in batch && Run(p, steps).ops[id].attempts == 3
    ensures p.maxAttempts > 3 && Apply(p, Run(p, steps), Pass(batch, time, nows)) == Run(p, steps)
  {
    hide Run, PassTx;
    InvRun(p, steps);
    PassSucceedsExactly(p, Run(p, steps), batch, time, nows);
    DueMeansAttemptsLeft(p, steps, id, time);
  }

  // ---- Such an operation exists exactly under such a policy ----

  /** One retry operation, alone, recorded at time 0, with `k` attempts made and the next due on time. */
  predicate Waiting(p: Policy, s: Store, k: nat)
  {
    "r" in s.ops && s.ops["r"] == Operation("x", Retry, Scheduled, k, Some(DueAt(p, k)), 0)
  }

  /** The earliest time of the next attempt: cooldown * (2^(k + 1) - 1). */
  function DueAt(p: Policy, k: nat): int
  {
    Shift(p.cooldown, k + 1) - p.cooldown
  }

  /** A network failure of a payment of nothing, diagnosed with certainty. */
  const FIRST_FAILURE: Step :=
    Record(Failure("x", 0, Some(0)), Classification(NetworkFailure, 1.0), "r", 0, (0, 0, 0))

  lemma FirstWait(p: Policy)
    requires p.Valid()
    ensures Waiting(p, Apply(p, Store(map[], []), FIRST_FAILURE), 0)
  {
    assert Shift(p.cooldown, 1) == 2 * Shift(p.cooldown, 0);
  }

  lemma NextWait(p: Policy, s: Store, k: nat)
    requires p.Valid() && Waiting(p, s, k) && k + 1 < p.maxAttempts && k < ATTEMPT_LIMIT
    ensures Waiting(p, Apply(p, s, Pass(["r"], DueAt(p, k), [DueAt(p, k)])), k + 1)
  {
    var time := DueAt(p, k);
    assert ["r"][..0] == [] && [time][..0] == [];
    assert PassTx(p, s, ["r"], time, [time]) == AttemptTx(p, s, "r", time, time);
    assert Shift(p.cooldown, k + 2) == 2 * Shift(p.cooldown, k + 1);
  }

  lemma {:induction false} WaitFor(p: Policy, k: nat) returns (steps: seq<Step>)
    requires p.Valid() && k < p.maxAttempts && k <= ATTEMPT_LIMIT
    ensures Waiting(p, Run(p, steps), k)
  {
    hide Waiting, Apply;
    if k == 0 {
      FirstWait(p);
      steps := [FIRST_FAILURE];
      assert steps[..0] == [];
    } else {
      var front := WaitFor(p, k - 1);
      var last := Pass(["r"], DueAt(p, k - 1), [DueAt(p, k - 1)]);
      NextWait(p, Run(p, front), k - 1);
      steps := front + [last];
      assert steps[..|steps| - 1] == front;
    }
  }

  /** Some run leaves an operation scheduled with all the attempts used that the table allows. */
  ghost predicate CanBlock(p: Policy)
  {
    exists steps, id :: Blocked(Run(p, steps), id)
  }

  predicate Blocked(s: Store, id: string)
  {
    id in s.ops && s.ops[id].state == Scheduled && s.ops[id].attempts == ATTEMPT_LIMIT
  }

  /** A policy can block itself if and only if it allows more attempts than the table does. */
  lemma BlocksExactly(p: Policy)
    requires p.Valid()
    ensures CanBlock(p) <==> p.maxAttempts > 3
  {
    hide Run;
    if p.maxAttempts > ATTEMPT_LIMIT {
      var steps := WaitFor(p, ATTEMPT_LIMIT);
      assert Blocked(Run(p, steps), "r");
    }
    if CanBlock(p) {
      var steps, id :| Blocked(Run(p, steps), id);
      InvRun(p, steps);
      OperationFacts(p, Run(p, steps), id);
    }
  }
}
