/**
 * The settlement machine: the tables, any number of sagas in flight, and every event that
 * can happen to them. A run is a list of steps; a step that is not enabled changes nothing,
 * so the runs are all interleavings of all callers, with a failure or a crash at any point.
 */
module Machine {
  import opened Basics
  import opened Tables
  import opened Transactions

  /**
   * Where `Execute` stands in its four steps.
   * `Forward(n)`: the first `n` actions have committed (4 is COMPLETED).
   * `Undoing(n, tries)`: an action failed, `n` actions still stand, and undoing the last of
   * them has failed `tries` times.
   * `Halted(n)`: FAILED with `n` actions still standing (0 is fully compensated).
   */
  datatype Pc = Forward(n: nat) | Undoing(n: nat, tries: nat) | Halted(n: nat)

  const STEPS: nat := 4
  const MAX_TRIES: nat := 3

  /** `alive` turns false when the process running the saga crashes. */
  datatype Saga = Saga(p: Payload, value: int64, pc: Pc, alive: bool)

  /** How many actions of the saga have committed and have not been undone. */
  function Standing(sg: Saga): nat
  {
    sg.pc.n
  }

  predicate Committed(sg: Saga)
  {
    Standing(sg) >= 3
  }

  /**
   * The last three fields are history that no transaction reads: the opening balance of each
   * account, the tokens invalidated by undoing a hold, and the amount of each settlement
   * whose sender was its own receiver, by token.
   */
  datatype State = State(db: Db, sagas: map<nat, Saga>,
                         minted: map<string, int>, frozen: set<string>, selfPaid: map<string, int>)

  const INIT: State := State(Db(map[], map[], map[], map[], []), map[], map[], {}, map[])

  datatype Step =
    | OpenAccount(account: string, initial: int64)
    | IssueToken(token: string, owner: string, value: int64, expiry: int)
    | ReleaseToken(token: string)
    | Begin(saga: nat, p: Payload, now: int)
    | Advance(saga: nat, down: bool)
    | Crash(saga: nat)
    | SaveFailed(txn: string, nonce: string, status: IntentStatus)
    | ExpireIntent(txn: string)

  /** The next transaction of a saga; `down` makes it fail for a reason outside the tables. */
  function AdvanceSaga(s: State, i: nat, down: bool): State
    requires i in s.sagas
  {
    var sg := s.sagas[i];
    match sg.pc
    case Forward(n) =>
      if n >= STEPS then s
      else
        var r := if down then None else ActionTx(s.db, n, sg.p, sg.value);
        if r.None? then Move(s, i, if n == 0 then Halted(0) else Undoing(n, 0))
        else Move(s, i, Forward(n + 1)).(db := r.value,
             selfPaid := if n == 2 && sg.p.sender == sg.p.receiver
                         then s.selfPaid[sg.p.token := sg.p.amount] else s.selfPaid)
    case Undoing(n, tries) =>
      if n == 0 then s
      else
        var r := if down then None else UndoTx(s.db, n - 1, sg.p, sg.value);
        if r.None? then Move(s, i, if tries + 1 >= MAX_TRIES then Halted(n) else Undoing(n, tries + 1))
        else Move(s, i, if n == 1 then Halted(0) else Undoing(n - 1, 0)).(db := r.value,
             frozen := if n == 2 && HeldIn(s.db, sg.p.token) then s.frozen + {sg.p.token} else s.frozen)
    case Halted(n) => s
  }

  predicate HeldIn(db: Db, token: string)
  {
    token in db.tokens && db.tokens[token].status == Held
  }

  function Move(s: State, i: nat, pc: Pc): State
    requires i in s.sagas
  {
    s.(sagas := s.sagas[i := s.sagas[i].(pc := pc)])
  }

  /** `Settle` reads the intent before the token, so when a saga begins nothing is known of the intent. */
  function Apply(s: State, step: Step): State
  {
    match step
    case OpenAccount(id, initial) =>
      var r := CreateAccountTx(s.db, id, initial);
      if r.None? then s
      else s.(db := r.value, minted := if id in s.db.accounts then s.minted else s.minted[id := initial])
    case IssueToken(id, owner, value, expiry) =>
      var r := IssueTx(s.db, id, owner, value, expiry);
      if r.None? then s else s.(db := r.value)
    case ReleaseToken(id) =>
      var r := ReleaseTx(s.db, id);
      if r.None? then s else s.(db := r.value)
    case Begin(i, p, now) =>
      if i in s.sagas || !TokenAdmits(s.db, p, now) then s
      else s.(sagas := s.sagas[i := Saga(p, s.db.tokens[p.token].value, Forward(0), true)])
    case Advance(i, down) =>
      if i in s.sagas && s.sagas[i].alive then AdvanceSaga(s, i, down) else s
    case Crash(i) =>
      if i in s.sagas then s.(sagas := s.sagas[i := s.sagas[i].(alive := false)]) else s
    case SaveFailed(txn, nonce, status) =>
      s.(db := SaveFailedTx(s.db, txn, nonce, status))
    case ExpireIntent(txn) =>
      s.(db := ExpireIntentTx(s.db, txn))
  }

  function Run(s: State, steps: seq<Step>): State
  {
    if |steps| == 0 then s else Apply(Run(s, steps[..|steps| - 1]), steps[|steps| - 1])
  }

  lemma RunOneMore(s: State, steps: seq<Step>, step: Step)
    ensures Run(s, steps + [step]) == Apply(Run(s, steps), step)
  {
    assert (steps + [step])[..|steps|] == steps;
  }

  lemma {:induction false} RunConcat(s: State, a: seq<Step>, b: seq<Step>)
    ensures Run(s, a + b) == Run(Run(s, a), b)
    decreases |b|
  {
    if |b| == 0 {
      assert a + b == a;
    } else {
      var front := b[..|b| - 1];
      assert (a + b)[..|a + b| - 1] == a + front;
      RunConcat(s, a, front);
    }
  }
}
