/**
 * The order in which transactions take explicit row locks, and why no set of them can wait
 * for each other in a circle. Row locks that PostgreSQL takes by itself are not modelled.
 */
module Locks {

  // ---- `sort.Strings` on two identifiers ----

  /** The lexicographic order of strings, as Go's `<` compares them. */
  predicate Below(a: string, b: string)
  {
    |b| > 0 && (|a| == 0 || a[0] < b[0] || (a[0] == b[0] && Below(a[1..], b[1..])))
  }

  lemma {:induction false} BelowIrreflexive(a: string)
    ensures !Below(a, a)
  {
    if |a| > 0 {
      BelowIrreflexive(a[1..]);
    }
  }

  lemma {:induction false} BelowTransitive(a: string, b: string, c: string)
    requires Below(a, b) && Below(b, c)
    ensures Below(a, c)
  {
    if |a| > 0 && a[0] == b[0] == c[0] {
      BelowTransitive(a[1..], b[1..], c[1..]);
    }
  }

  lemma {:induction false} BelowTotal(a: string, b: string)
    ensures a == b || Below(a, b) || Below(b, a)
  {
    if |a| > 0 && |b| > 0 && a[0] == b[0] {
      BelowTotal(a[1..], b[1..]);
      assert a == [a[0]] + a[1..] && b == [b[0]] + b[1..];
    }
  }

  function SortedPair(a: string, b: string): (r: seq<string>)
    ensures |r| == 2 && multiset(r) == multiset{a, b}
  {
    if Below(b, a) then [b, a] else [a, b]
  }

  // ---- Rows and programs ----

  datatype Row = TokenRow(id: string) | AccountRow(id: string) | NonceRow(id: string) | IntentRow(id: string)

  function Rank(r: Row): nat
  {
    match r case TokenRow(_) => 0 case AccountRow(_) => 1 case NonceRow(_) => 2 case IntentRow(_) => 3
  }

  /** Tokens first, then accounts, nonces and intents; rows of one table by identifier. */
  predicate Before(r: Row, q: Row)
  {
    Rank(r) < Rank(q) || (Rank(r) == Rank(q) && Below(r.id, q.id))
  }

  lemma BeforeIrreflexive(r: Row)
    ensures !Before(r, r)
  {
    BelowIrreflexive(r.id);
  }

  lemma BeforeTransitive(p: Row, q: Row, r: Row)
    requires Before(p, q) && Before(q, r)
    ensures Before(p, r)
  {
    if Rank(p) == Rank(q) == Rank(r) {
      BelowTransitive(p.id, q.id, r.id);
    }
  }

  /** The transactions that lock rows explicitly. */
  datatype Kind =
    | Issue(owner: string)
    | Release(token: string, owner: string)
    | Reserve(sender: string, receiver: string)
    | Hold(token: string)
    | Commit(token: string, sender: string, receiver: string, txn: string)
    | UndoReserve(nonce: string, txn: string)
    | UndoHold(token: string)
    | UndoCommit(sender: string, receiver: string, txn: string)
    | Expire(txn: string)

  function AccountRows(sender: string, receiver: string): seq<Row>
  {
    var ids := SortedPair(sender, receiver);
    [AccountRow(ids[0]), AccountRow(ids[1])]
  }

  /** The rows a transaction reads for update, updates or deletes, in order; a row can be locked again. */
  function Program(kind: Kind): seq<Row>
  {
    match kind
    case Issue(owner) => [AccountRow(owner), AccountRow(owner)]
    case Release(token, owner) => [TokenRow(token), AccountRow(owner), AccountRow(owner), TokenRow(token)]
    case Reserve(sender, receiver) => AccountRows(sender, receiver)
    case Hold(token) => [TokenRow(token), TokenRow(token)]
    case Commit(token, sender, receiver, txn) =>
      [TokenRow(token)] + AccountRows(sender, receiver) + [AccountRow(sender), AccountRow(receiver), IntentRow(txn)]
    case UndoReserve(nonce, txn) => [NonceRow(nonce), IntentRow(txn), IntentRow(txn)]
    case UndoHold(token) => [TokenRow(token), TokenRow(token)]
    case UndoCommit(sender, receiver, txn) =>
      AccountRows(sender, receiver) + [AccountRow(sender), AccountRow(receiver), IntentRow(txn)]
    case Expire(txn) => [IntentRow(txn)]
  }

  /** A transaction that had locked `before` has since followed the program of its kind, to its end or not. */
  predicate Follows(before: seq<Row>, after: seq<Row>, kind: Kind)
  {
    before <= after <= before + Program(kind)
  }

  /** How far LEDGER_COMMIT can have come, from its token to the intent that follows the balance updates. */
  lemma CommitFollows(before: seq<Row>, locked: seq<Row>, updated: seq<Row>, token: string, sender: string,
                      receiver: string, txn: string)
    requires locked <= AccountRows(sender, receiver) && updated <= [AccountRow(sender), AccountRow(receiver)]
    requires |updated| > 0 ==> locked == AccountRows(sender, receiver)
    ensures Follows(before, before + [TokenRow(token)] + locked + updated, Commit(token, sender, receiver, txn))
    ensures Follows(before, before + [TokenRow(token)] + locked, Commit(token, sender, receiver, txn))
    ensures Follows(before, before + [TokenRow(token)], Commit(token, sender, receiver, txn))
    ensures |updated| == 2 ==>
      Follows(before, before + [TokenRow(token)] + locked + updated + [IntentRow(txn)],
          Commit(token, sender, receiver, txn))
  {
  }

  lemma UndoCommitFollows(before: seq<Row>, locked: seq<Row>, updated: seq<Row>, sender: string, receiver: string,
                          txn: string)
    requires locked <= AccountRows(sender, receiver) && updated <= [AccountRow(sender), AccountRow(receiver)]
    requires |updated| > 0 ==> locked == AccountRows(sender, receiver)
    ensures Follows(before, before + locked + updated, UndoCommit(sender, receiver, txn))
    ensures Follows(before, before + locked, UndoCommit(sender, receiver, txn))
    ensures |updated| == 2
            ==> Follows(before, before + locked + updated + [IntentRow(txn)], UndoCommit(sender, receiver, txn))
  {
  }

  /** Every request is for a row already locked, or for one above every row locked so far. */
  predicate Ascending(program: seq<Row>)
  {
    forall i, j :: 0 <= i < j < |program| ==>
      Before(program[i], program[j]) || program[j] in program[..j]
  }

  lemma AscendAppend(program: seq<Row>, r: Row)
    requires Ascending(program) && (r in program || forall k :: 0 <= k < |program| ==> Before(program[k], r))
    ensures Ascending(program + [r])
  {
    var longer := program + [r];
    assert longer[..|program|] == program;
    forall i, j | 0 <= i < j < |longer|
      ensures Before(longer[i], longer[j]) || longer[j] in longer[..j]
    {
      if j < |program| {
        assert longer[..j] == program[..j];
      }
    }
  }

  /** A balance-moving transaction: `first`, then both accounts in order, both again, then the intent. */
  lemma AccountsAscend(first: seq<Row>, sender: string, receiver: string, txn: string)
    requires |first| <= 1 && (|first| == 1 ==> first[0].TokenRow?)
    ensures var rows := AccountRows(sender, receiver);
            Ascending(first + rows)
                && Ascending(first + rows + [AccountRow(sender), AccountRow(receiver), IntentRow(txn)])
  {
    hide Ascending, Before, SortedPair;
    var rows, accounts := AccountRows(sender, receiver), first + AccountRows(sender, receiver);
    AccountsInOrder(first, sender, receiver);
    AscendAppend(accounts, AccountRow(sender));
    var two := accounts + [AccountRow(sender)];
    assert AccountRow(receiver) in two;
    AscendAppend(two, AccountRow(receiver));
    var three := two + [AccountRow(receiver)];
    IntentLast(three, txn);
    AscendAppend(three, IntentRow(txn));
    assert three + [IntentRow(txn)] == first + rows + [AccountRow(sender), AccountRow(receiver), IntentRow(txn)];
  }

  lemma AccountsInOrder(first: seq<Row>, sender: string, receiver: string)
    requires |first| <= 1 && (|first| == 1 ==> first[0].TokenRow?)
    ensures var accounts := first + AccountRows(sender, receiver);
            Ascending(accounts) && AccountRow(sender) in accounts && AccountRow(receiver) in accounts
  {
    var rows := AccountRows(sender, receiver);
    BelowTotal(sender, receiver);
    AscendAppend(first, rows[0]);
    AscendAppend(first + [rows[0]], rows[1]);
    assert first + [rows[0]] + [rows[1]] == first + rows;
    assert (first + rows)[|first|] == rows[0] && (first + rows)[|first| + 1] == rows[1];
  }

  lemma IntentLast(program: seq<Row>, txn: string)
    requires forall r :: r in program ==> r.TokenRow? || r.AccountRow?
    ensures forall k :: 0 <= k < |program| ==> Before(program[k], IntentRow(txn))
  {
  }

  lemma AscendShort(r: Row, q: Row)
    ensures Ascending([r]) && (q == r || Before(r, q) ==> Ascending([r, q]))
  {
    assert [r, q][..1] == [r];
  }

  lemma ReleaseAscends(token: string, owner: string)
    ensures Ascending([TokenRow(token), AccountRow(owner), AccountRow(owner), TokenRow(token)])
  {
    hide Ascending;
    var two := [TokenRow(token), AccountRow(owner)];
    AscendShort(TokenRow(token), AccountRow(owner));
    AscendAppend(two, AccountRow(owner));
    AscendAppend(two + [AccountRow(owner)], TokenRow(token));
    assert two + [AccountRow(owner)] + [TokenRow(token)] ==
           [TokenRow(token), AccountRow(owner), AccountRow(owner), TokenRow(token)];
  }

  lemma UndoReserveAscends(nonce: string, txn: string)
    ensures Ascending([NonceRow(nonce), IntentRow(txn), IntentRow(txn)])
  {
    hide Ascending;
    var two := [NonceRow(nonce), IntentRow(txn)];
    AscendShort(NonceRow(nonce), IntentRow(txn));
    AscendAppend(two, IntentRow(txn));
    assert two + [IntentRow(txn)] == [NonceRow(nonce), IntentRow(txn), IntentRow(txn)];
  }

  lemma ProgramsAscend(kind: Kind)
    ensures Ascending(Program(kind))
  {
    hide Ascending;
    match kind {
      case Commit(token, sender, receiver, txn) => AccountsAscend([TokenRow(token)], sender, receiver, txn);
      case UndoCommit(sender, receiver, txn) =>
        AccountsAscend([], sender, receiver, txn);
        assert [] + AccountRows(sender, receiver) == AccountRows(sender, receiver);
      case Reserve(sender, receiver) =>
        AccountsAscend([], sender, receiver, "");
        assert [] + AccountRows(sender, receiver) == AccountRows(sender, receiver);
      case Release(token, owner) => ReleaseAscends(token, owner);
      case UndoReserve(nonce, txn) => UndoReserveAscends(nonce, txn);
      case Issue(owner) => AscendShort(AccountRow(owner), AccountRow(owner));
      case Hold(token) => AscendShort(TokenRow(token), TokenRow(token));
      case UndoHold(token) => AscendShort(TokenRow(token), TokenRow(token));
      case Expire(txn) => AscendShort(IntentRow(txn), IntentRow(txn));
    }
  }

  // ---- Transactions running concurrently ----

  /** A running transaction has locked the first `taken` rows of its program. */
  datatype Running = Running(program: seq<Row>, taken: nat)

  type LockTable = map<nat, Running>

  predicate Holds(tx: Running, r: Row)
  {
    tx.taken <= |tx.program| && r in tx.program[..tx.taken]
  }

  predicate Requests(tx: Running)
  {
    tx.taken < |tx.program|
  }

  /** A row lock is granted when no other transaction holds the row. */
  predicate Free(locks: LockTable, i: nat, r: Row)
  {
    forall j :: j in locks && j != i ==> !Holds(locks[j], r)
  }

  datatype LockStep = Start(tx: nat, kind: Kind) | Take(tx: nat) | End(tx: nat)

  /** Ending, by commit or rollback, releases every lock. */
  function ApplyLock(locks: LockTable, step: LockStep): LockTable
  {
    match step
    case Start(i, kind) => if i in locks then locks else locks[i := Running(Program(kind), 0)]
    case Take(i) =>
      if i in locks && Requests(locks[i]) && Free(locks, i, locks[i].program[locks[i].taken])
      then locks[i := locks[i].(taken := locks[i].taken + 1)] else locks
    case End(i) => locks - {i}
  }

  function RunLocks(steps: seq<LockStep>): LockTable
  {
    if |steps| == 0 then map[] else ApplyLock(RunLocks(steps[..|steps| - 1]), steps[|steps| - 1])
  }

  ghost predicate LocksOk(locks: LockTable)
  {
    && (forall i :: i in locks ==> Ascending(locks[i].program) && locks[i].taken <= |locks[i].program|)
    && (forall i, j, r :: i in locks && j in locks && i != j ==> !(Holds(locks[i], r) && Holds(locks[j], r)))
  }

  lemma {:induction false} LocksStayOk(steps: seq<LockStep>)
    ensures LocksOk(RunLocks(steps))
  {
    if |steps| != 0 {
      var locks, step := RunLocks(steps[..|steps| - 1]), steps[|steps| - 1];
      LocksStayOk(steps[..|steps| - 1]);
      match step
      case Start(i, kind) => ProgramsAscend(kind);
      case Take(i) => TakeStaysOk(locks, i);
      case End(i) =>
    }
  }

  lemma TakeStaysOk(locks: LockTable, i: nat)
    requires LocksOk(locks)
    ensures LocksOk(ApplyLock(locks, Take(i)))
  {
    var locks' := ApplyLock(locks, Take(i));
    if locks' != locks {
      var tx, tx' := locks[i], locks'[i];
      assert tx'.program[..tx'.taken] == tx.program[..tx.taken] + [tx.program[tx.taken]];
    }
  }

  // ---- No deadlock ----

  function Wanted(tx: Running): Row
    requires Requests(tx)
  {
    tx.program[tx.taken]
  }

  /** `i` is blocked on a row that `j` holds. */
  predicate WaitsFor(locks: LockTable, i: nat, j: nat)
  {
    i in locks && j in locks && i != j && Requests(locks[i]) && Holds(locks[j], Wanted(locks[i]))
  }

  /** Whoever holds what `i` wants is itself, if blocked, blocked on a later row. */
  lemma WaitsUpward(locks: LockTable, i: nat, j: nat, k: nat)
    requires LocksOk(locks) && WaitsFor(locks, i, j) && WaitsFor(locks, j, k)
    ensures Before(Wanted(locks[i]), Wanted(locks[j]))
  {
  }

  predicate Circle(locks: LockTable, c: seq<nat>)
  {
    |c| > 0 && WaitsFor(locks, c[|c| - 1], c[0]) &&
    forall k :: 0 <= k < |c| - 1 ==> WaitsFor(locks, c[k], c[k + 1])
  }

  lemma {:induction false} CircleClimbs(locks: LockTable, c: seq<nat>, k: nat)
    requires LocksOk(locks) && Circle(locks, c) && 0 < k < |c|
    ensures c[0] in locks && c[k] in locks && Requests(locks[c[0]]) && Requests(locks[c[k]])
    ensures Before(Wanted(locks[c[0]]), Wanted(locks[c[k]]))
  {
    assert WaitsFor(locks, c[k - 1], c[k]);
    var next := if k == |c| - 1 then c[0] else c[k + 1];
    assert WaitsFor(locks, c[k], next);
    WaitsUpward(locks, c[k - 1], c[k], next);
    if k > 1 {
      CircleClimbs(locks, c, k - 1);
      BeforeTransitive(Wanted(locks[c[0]]), Wanted(locks[c[k - 1]]), Wanted(locks[c[k]]));
    }
  }

  /** In no run of any transactions is there a circle of transactions waiting for each other. */
  lemma NoCircularWait(steps: seq<LockStep>, c: seq<nat>)
    ensures !Circle(RunLocks(steps), c)
  {
    var locks := RunLocks(steps);
    LocksStayOk(steps);
    if Circle(locks, c) && |c| > 1 {
      var last := |c| - 1;
      CircleClimbs(locks, c, last);
      assert WaitsFor(locks, c[0], c[1]);
      WaitsUpward(locks, c[last], c[0], c[1]);
      BeforeTransitive(Wanted(locks[c[0]]), Wanted(locks[c[last]]), Wanted(locks[c[0]]));
      BeforeIrreflexive(Wanted(locks[c[0]]));
    }
  }

  predicate CanProceed(locks: LockTable, i: nat)
  {
    i in locks && (Requests(locks[i]) ==> Free(locks, i, Wanted(locks[i])))
  }

  lemma {:induction false} FollowTheWaits(locks: LockTable, i: nat, rest: set<nat>) returns (j: nat)
    requires LocksOk(locks) && i in locks && i in rest
    requires Requests(locks[i]) ==>
               forall k :: k in locks && Requests(locks[k]) && Before(Wanted(locks[i]), Wanted(locks[k])) ==> k in rest
    ensures CanProceed(locks, j)
    decreases rest
  {
    j := i;
    if !CanProceed(locks, i) {
      var h :| h in locks && h != i && Holds(locks[h], Wanted(locks[i]));
      j := h;
      if !CanProceed(locks, h) {
        var g :| g in locks && g != h && Holds(locks[g], Wanted(locks[h]));
        WaitsUpward(locks, i, h, g);
        BeforeIrreflexive(Wanted(locks[i]));
        forall k | k in locks && Requests(locks[k]) && Before(Wanted(locks[h]), Wanted(locks[k]))
          ensures k in rest - {i}
        {
          BeforeTransitive(Wanted(locks[i]), Wanted(locks[h]), Wanted(locks[k]));
        }
        j := FollowTheWaits(locks, h, rest - {i});
      }
    }
  }

  /** As long as any transaction runs, some transaction can take its next lock or end. */
  lemma SomeoneCanProceed(steps: seq<LockStep>)
    requires RunLocks(steps) != map[]
    ensures exists j :: CanProceed(RunLocks(steps), j)
  {
    var locks := RunLocks(steps);
    LocksStayOk(steps);
    assert locks.Keys != {};
    var i :| i in locks;
    var j := FollowTheWaits(locks, i, locks.Keys);
  }

  // ---- Everyone can finish ----

  ghost function PickTx(locks: LockTable): (i: nat)
    requires locks != map[]
    ensures i in locks
  {
    assert locks.Keys != {};
    var i :| i in locks; i
  }

  /** How many locks the transactions still want. */
  ghost function Left(locks: LockTable): nat
    decreases |locks|
  {
    if locks == map[] then 0 else LeftOf(locks[PickTx(locks)]) + Left(locks - {PickTx(locks)})
  }

  function LeftOf(tx: Running): nat
  {
    if tx.taken <= |tx.program| then |tx.program| - tx.taken else 0
  }

  lemma {:induction false} LeftRemove(locks: LockTable, i: nat)
    requires i in locks
    ensures Left(locks) == LeftOf(locks[i]) + Left(locks - {i})
    decreases |locks|
  {
    var j := PickTx(locks);
    if j != i {
      var a, b := locks - {j}, locks - {i};
      LeftRemove(a, i);
      LeftRemove(b, j);
      assert a - {i} == b - {j};
    }
  }

  lemma TakeLeavesFewer(locks: LockTable, i: nat)
    requires i in locks && Requests(locks[i]) && CanProceed(locks, i)
    ensures var locks' := ApplyLock(locks, Take(i)); |locks'| == |locks| && Left(locks') < Left(locks)
  {
    var locks' := ApplyLock(locks, Take(i));
    LeftRemove(locks, i);
    LeftRemove(locks', i);
    assert locks - {i} == locks' - {i};
    assert locks'.Keys == locks.Keys;
  }

  /** From every reachable lock table, taking locks and ending is enough for all transactions to finish. */
  lemma {:induction false} EveryoneCanFinish(steps: seq<LockStep>) returns (more: seq<LockStep>)
    ensures RunLocks(steps + more) == map[]
    ensures forall k :: 0 <= k < |more| ==> !more[k].Start?
    decreases |RunLocks(steps)|, Left(RunLocks(steps))
  {
    hide CanProceed, RunLocks, ApplyLock, Left;
    var locks := RunLocks(steps);
    if locks == map[] {
      more := [];
      assert steps + more == steps;
    } else {
      SomeoneCanProceed(steps);
      var i :| CanProceed(locks, i);
      var step := Onward(locks, i);
      RunLocksAppend(steps, step);
      var rest := EveryoneCanFinish(steps + [step]);
      more := [step] + rest;
      assert steps + more == steps + [step] + rest;
    }
  }

  lemma RunLocksAppend(steps: seq<LockStep>, step: LockStep)
    ensures RunLocks(steps + [step]) == ApplyLock(RunLocks(steps), step)
  {
    assert (steps + [step])[..|steps|] == steps;
  }

  lemma Onward(locks: LockTable, i: nat) returns (step: LockStep)
    requires CanProceed(locks, i)
    ensures !step.Start?
    ensures var locks' := ApplyLock(locks, step);
            |locks'| < |locks| || (|locks'| == |locks| && Left(locks') < Left(locks))
  {
    if Requests(locks[i]) {
      step := Take(i);
      TakeLeavesFewer(locks, i);
    } else {
      step := End(i);
      assert (locks - {i}).Keys == locks.Keys - {i};
    }
  }
}
