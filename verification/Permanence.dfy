/** What one step, and so every continuation of a run, can no longer change. */
module Permanence {
  import opened Basics
  import opened Tables
  import opened Transactions
  import opened Machine
  import opened Invariants
  import opened Effects
  import opened RowsProof
  import opened BooksProof
  import opened StepProof
  import opened Guarantees

  predicate Terminal(status: TokenStatus)
  {
    status == Consumed || status == Invalidated
  }

  predicate SameGrant(tok: Token, tok': Token)
  {
    tok'.owner == tok.owner && tok'.value == tok.value && tok'.expiry == tok.expiry
  }

  /** A token keeps its owner and value, and never leaves CONSUMED or INVALIDATED. */
  predicate TokenLater(tok: Token, tok': Token)
  {
    && SameGrant(tok, tok')
    && (Terminal(tok.status) ==> tok'.status == tok.status)
    && (tok.status != Issued ==> tok'.status != Issued)
  }

  predicate TokensLater(tokens: map<string, Token>, tokens': map<string, Token>)
  {
    forall t :: t in tokens ==> t in tokens' && TokenLater(tokens[t], tokens'[t])
  }

  predicate SagasLater(sagas: map<nat, Saga>, sagas': map<nat, Saga>)
  {
    forall i :: i in sagas ==>
      i in sagas' && sagas'[i].p == sagas[i].p && sagas'[i].value == sagas[i].value
      && (Committed(sagas[i]) ==> Committed(sagas'[i]))
  }

  predicate Later(s: State, s': State)
  {
    && s.db.ledger <= s'.db.ledger
    && s.db.accounts.Keys <= s'.db.accounts.Keys
    && TokensLater(s.db.tokens, s'.db.tokens)
    && SagasLater(s.sagas, s'.sagas)
  }

  lemma LaterTransitive(a: State, b: State, c: State)
    requires Later(a, b) && Later(b, c)
    ensures Later(a, c)
  {
  }

  lemma CommitIsLater(s: State, i: nat, db: Db)
    requires SagasOk(s) && i in s.sagas && s.sagas[i].pc == Forward(2)
    requires CommitTx(s.db, s.sagas[i].p, s.sagas[i].value) == Some(db)
    ensures Later(s, AfterCommit(s, i, db))
  {
  }

  lemma ForwardIsLater(s: State, i: nat, down: bool)
    requires SagasOk(s) && i in s.sagas && s.sagas[i].pc.Forward?
    ensures Later(s, AdvanceSaga(s, i, down))
  {
    hide CommitTx, SagasOk;
    var sg := s.sagas[i];
    if sg.pc.n == 2 && !down && CommitTx(s.db, sg.p, sg.value).Some? {
      CommitIsLater(s, i, CommitTx(s.db, sg.p, sg.value).value);
    }
  }

  /** Undoing never lowers a committed saga: the undo of LEDGER_COMMIT is blocked. */
  lemma UndoingIsLater(s: State, i: nat, down: bool)
    requires SagasOk(s) && i in s.sagas && s.sagas[i].pc.Undoing?
    ensures Later(s, AdvanceSaga(s, i, down))
  {
    hide UndoTx, OwnsRows, TokensLater;
    var sg := s.sagas[i];
    assert SagaOk(s.db, sg);
    TokensLaterReflexive(s.db.tokens);
    if Committed(sg) {
      UndoCommitBlocked(s, i);
      UndoOfCommit(s.db, sg.p, sg.value);
    } else if sg.pc.n > 0 {
      UndoKeepsRows(s.db, sg.pc.n - 1, sg.p, sg.value);
    }
  }

  lemma TokensLaterReflexive(tokens: map<string, Token>)
    ensures TokensLater(tokens, tokens)
  {
  }

  lemma UndoOfCommit(db: Db, p: Payload, value: int64)
    ensures UndoTx(db, 2, p, value) == UndoCommitTx(db, p, value)
  {
  }

  lemma UndoKeepsRows(db: Db, k: nat, p: Payload, value: int64)
    requires k < 2
    ensures var r := UndoTx(db, k, p, value);
            r.Some? ==>
              r.value.ledger == db.ledger && r.value.accounts == db.accounts && TokensLater(db.tokens, r.value.tokens)
  {
  }

  lemma StepIsLater(s: State, step: Step)
    requires SagasOk(s) && TokensOk(s.db)
    ensures Later(s, Apply(s, step))
  {
    hide SagasOk, TokensOk, Later;
    match step
    case Advance(i, down) =>
      if i in s.sagas && s.sagas[i].alive && s.sagas[i].pc.Forward? {
        ForwardIsLater(s, i, down);
      } else if i in s.sagas && s.sagas[i].alive && s.sagas[i].pc.Undoing? {
        UndoingIsLater(s, i, down);
      } else {
        LaterReflexive(s);
      }
    case OpenAccount(_, _) => QuietIsLater(s, step);
    case IssueToken(_, _, _, _) => QuietIsLater(s, step);
    case ReleaseToken(_) => ReleaseIsLater(s, step);
    case Begin(_, _, _) => QuietIsLater(s, step);
    case Crash(_) => QuietIsLater(s, step);
    case SaveFailed(_, _, _) => QuietIsLater(s, step);
    case ExpireIntent(_) => QuietIsLater(s, step);
  }

  lemma LaterReflexive(s: State)
    ensures Later(s, s)
  {
  }

  lemma QuietIsLater(s: State, step: Step)
    requires !step.Advance? && !step.ReleaseToken?
    ensures Later(s, Apply(s, step))
  {
  }

  lemma ReleaseIsLater(s: State, step: Step)
    requires TokensOk(s.db) && step.ReleaseToken?
    ensures Later(s, Apply(s, step))
  {
  }

  lemma {:induction false} RunIsLater(s: State, steps: seq<Step>)
    requires Inv(s)
    ensures Later(s, Run(s, steps)) && Inv(Run(s, steps))
    decreases |steps|
  {
    hide Inv, Later;
    if |steps| == 0 {
      LaterReflexive(s);
    } else {
      var m := Run(s, steps[..|steps| - 1]);
      RunIsLater(s, steps[..|steps| - 1]);
      InvRows(m);
      StepIsLater(m, steps[|steps| - 1]);
      InvStep(m, steps[|steps| - 1]);
      LaterTransitive(s, m, Run(s, steps));
    }
  }

  lemma InvRows(s: State)
    requires Inv(s)
    ensures SagasOk(s) && TokensOk(s.db)
  {
  }

  /** The state after `more` steps of a run that has already taken `steps`. */
  lemma Continue(steps: seq<Step>, more: seq<Step>)
    ensures Run(INIT, steps + more) == Run(Run(INIT, steps), more)
    ensures Later(Run(INIT, steps), Run(INIT, steps + more))
  {
    hide Inv, Later;
    InvInit();
    InvRun(INIT, steps);
    RunIsLater(Run(INIT, steps), more);
    RunConcat(INIT, steps, more);
  }

  // ---- Consequences ----

  /** The ledger is append-only, although the code contains a statement that deletes from it. */
  lemma LedgerIsImmutable(steps: seq<Step>, more: seq<Step>)
    ensures Run(INIT, steps).db.ledger <= Run(INIT, steps + more).db.ledger
  {
    Continue(steps, more);
  }

  /**
   * Point of no return: whatever happens after LEDGER_COMMIT -- a failed PUBLISH, compensation,
   * crashes, other callers -- the settlement stands, with its intent, its nonce and its entries.
   */
  lemma SettlementIsFinal(steps: seq<Step>, more: seq<Step>, i: nat)
    requires i in Run(INIT, steps).sagas && Committed(Run(INIT, steps).sagas[i])
    ensures var s, s' := Run(INIT, steps), Run(INIT, steps + more);
            && i in s'.sagas && Committed(s'.sagas[i]) && s'.sagas[i].p == s.sagas[i].p
            && OwnsRows(s'.db, s.sagas[i].p)
            && s.sagas[i].p.token in s'.db.tokens
            && s'.db.tokens[s.sagas[i].p.token].status == Consumed
            && SettlementGroup(Group(s'.db.ledger, s.sagas[i].p.txn), s.sagas[i].p)
  {
    var s' := Run(INIT, steps + more);
    Continue(steps, more);
    Reachable(steps + more);
    assert SagaOk(s'.db, s'.sagas[i]) && SettlementGroupsOk(s');
  }

  /** A released or invalidated token is never spent and never released again, by anyone, ever. */
  lemma InvalidatedIsFinal(steps: seq<Step>, more: seq<Step>, t: string, p: Payload, value: int64)
    requires t in Run(INIT, steps).db.tokens && Run(INIT, steps).db.tokens[t].status == Invalidated
    requires p.token == t
    ensures var db := Run(INIT, steps + more).db;
            && t in db.tokens && db.tokens[t].status == Invalidated
            && HoldTx(db, p) == None && CommitTx(db, p, value) == None
            && ReleaseTx(db, t) == Some(db)
  {
    var db := Run(INIT, steps + more).db;
    Continue(steps, more);
    Reachable(steps + more);
    assert TokensOk(db);
  }

  /**
   * Every change of a token's status is a transition of the token state machine, in any state at all,
   * and nothing changes its owner, value or expiry.
   */
  lemma TokensFollowTheirStateMachine(s: State, step: Step, t: string)
    requires t in s.db.tokens
    ensures var db' := Apply(s, step).db;
            && t in db'.tokens
            && var before, after := s.db.tokens[t].status, db'.tokens[t].status;
               && IsValidTokenTransition(before, after)
               && SameGrant(s.db.tokens[t], db'.tokens[t])
               && (before != after ==>
                     match after
                     case Issued => false
                     case Held => before == Issued
                     case Consumed => before == Held
                     case Invalidated => before == Issued || before == Held)
  {
    hide AdvanceSaga;
    if step.Advance? && step.saga in s.sagas {
      SagaFollowsTokenMachine(s, step.saga, step.down, t);
    }
  }

  lemma SagaFollowsTokenMachine(s: State, i: nat, down: bool, t: string)
    requires t in s.db.tokens && i in s.sagas
    ensures var db' := AdvanceSaga(s, i, down).db;
            && t in db'.tokens && SameGrant(s.db.tokens[t], db'.tokens[t])
            && IsValidTokenTransition(s.db.tokens[t].status, db'.tokens[t].status)
  {
    hide ActionTx, UndoTx;
    var sg := s.sagas[i];
    if sg.pc.Forward? && sg.pc.n < STEPS {
      ActionFollowsTokenMachine(s.db, sg.pc.n, sg.p, sg.value, t);
    } else if sg.pc.Undoing? && sg.pc.n > 0 {
      UndoFollowsTokenMachine(s.db, sg.pc.n - 1, sg.p, sg.value, t);
    }
  }

  lemma ActionFollowsTokenMachine(db: Db, k: nat, p: Payload, value: int64, t: string)
    requires t in db.tokens && k < STEPS
    ensures var r := ActionTx(db, k, p, value);
            r.Some? ==>
              && t in r.value.tokens && SameGrant(db.tokens[t], r.value.tokens[t])
              && IsValidTokenTransition(db.tokens[t].status, r.value.tokens[t].status)
  {
  }

  lemma UndoFollowsTokenMachine(db: Db, k: nat, p: Payload, value: int64, t: string)
    requires t in db.tokens
    ensures var r := UndoTx(db, k, p, value);
            r.Some? ==>
              && t in r.value.tokens && SameGrant(db.tokens[t], r.value.tokens[t])
              && IsValidTokenTransition(db.tokens[t].status, r.value.tokens[t].status)
  {
  }

  /** Of all the transactions of a saga, only LEDGER_COMMIT touches balances or the ledger. */
  lemma OnlyCommitMovesMoney(steps: seq<Step>, i: nat, down: bool)
    requires i in Run(INIT, steps).sagas
    ensures var s, s' := Run(INIT, steps), Apply(Run(INIT, steps), Advance(i, down));
            || (s'.db.accounts == s.db.accounts && s'.db.ledger == s.db.ledger)
            || (s.sagas[i].pc == Forward(2) && i in s'.sagas && s'.sagas[i].pc == Forward(3)
                && Commits(s.db, s'.db, s.sagas[i].p, s.sagas[i].value))
  {
    hide AccountsOk, TokensOk, HistoryOk, SagasOk, Exclusive, Books, Money, Commits, AdvanceSaga;
    Reachable(steps);
    SagaTransaction(Run(INIT, steps), i, down);
  }

  lemma SagaTransaction(s: State, i: nat, down: bool)
    requires i in s.sagas && SagasOk(s) && AccountsOk(s.db.accounts)
    ensures var s' := AdvanceSaga(s, i, down);
            || (s'.db.accounts == s.db.accounts && s'.db.ledger == s.db.ledger)
            || (s.sagas[i].pc == Forward(2) && i in s'.sagas && s'.sagas[i].pc == Forward(3)
                && Commits(s.db, s'.db, s.sagas[i].p, s.sagas[i].value))
  {
    hide Commits, CommitTx, UndoCommitTx;
    var sg := s.sagas[i];
    assert SagaOk(s.db, sg);
    if sg.pc == Forward(2) && !down && CommitTx(s.db, sg.p, sg.value).Some? {
      CommitEffect(s.db, sg.p, sg.value, CommitTx(s.db, sg.p, sg.value).value);
    }
    if sg.pc.Undoing? && Committed(sg) {
      UndoCommitBlocked(s, i);
    }
  }

  /** A saga whose process crashed never takes another step. */
  lemma {:induction false} CrashIsFinal(s: State, i: nat, more: seq<Step>)
    requires i in s.sagas
    ensures var s' := Run(Apply(s, Crash(i)), more); i in s'.sagas && s'.sagas[i] == s.sagas[i].(alive := false)
    decreases |more|
  {
    hide Apply;
    if |more| == 0 {
      Crashed(s, i);
    }
    if |more| != 0 {
      CrashIsFinal(s, i, more[..|more| - 1]);
      CrashedStays(Run(Apply(s, Crash(i)), more[..|more| - 1]), more[|more| - 1], i);
    }
  }

  lemma Crashed(s: State, i: nat)
    requires i in s.sagas
    ensures Apply(s, Crash(i)) == s.(sagas := s.sagas[i := s.sagas[i].(alive := false)])
  {
  }

  lemma CrashedStays(s: State, step: Step, i: nat)
    requires i in s.sagas && !s.sagas[i].alive
    ensures i in Apply(s, step).sagas && Apply(s, step).sagas[i] == s.sagas[i]
  {
    hide ActionTx, UndoTx, IssueTx, ReleaseTx, CreateAccountTx, SaveFailedTx, ExpireIntentTx;
  }
}
