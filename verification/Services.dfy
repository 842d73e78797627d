/** The token and settlement services: the transactions as sequences of repository statements. */
module Services {
  import opened Basics
  import opened Tables
  import opened Transactions
  import opened Storage
  import opened Orchestrator
  import Locks

  /** What `WithTx` leaves behind: the transaction's result, or the tables as they were. */
  function Kept(db: Db, r: Option<Db>): Db
  {
    if r.Some? then r.value else db
  }

  /** The four steps of a settlement, for the orchestrator. */
  function SettlementSteps(p: Payload, value: int64): seq<SagaStep<Db>>
  {
    [SagaStep(db => ReserveTx(db, p, value), Some(db => UndoReserveTx(db, p))),
     SagaStep(db => HoldTx(db, p), Some(db => UndoHoldTx(db, p))),
     SagaStep(db => CommitTx(db, p, value), Some(db => UndoCommitTx(db, p, value))),
     SagaStep((db: Db) => Some(db), Some((db: Db) => Some(db)))]
  }

  lemma StepCount(p: Payload, value: int64)
    ensures |SettlementSteps(p, value)| == 4
  {
  }

  /** One turn of the compensation of a settlement. */
  lemma UndoTurn(db: Db, p: Payload, value: int64, n: nat, tries: nat, down: nat -> bool, clock: nat)
    requires n < 4 && tries < Orchestrator.MAX_RETRIES
    ensures var steps := SettlementSteps(p, value);
            var o := Backward(db, steps, n, tries, down, clock);
            if n == 0 then o == Outcome(db, [], Compensated)
            else
              var r := if down(clock) then None else UndoTx(db, n - 1, p, value);
              if r.Some? then o == Prepend(Undid(n - 1), Backward(r.value, steps, n - 1, 0, down, clock + 1))
              else if tries + 1 == Orchestrator.MAX_RETRIES then o == Outcome(db, [Stumbled(n - 1)], Critical(n - 1))
              else o == Prepend(Stumbled(n - 1), Backward(db, steps, n, tries + 1, down, clock + 1))
  {
  }

  /** One turn of the forward run of a settlement. */
  lemma ActionTurn(db: Db, p: Payload, value: int64, n: nat, down: nat -> bool)
    requires n <= 4
    ensures var steps := SettlementSteps(p, value);
            && |steps| == 4
            && var o := Forward(db, steps, n, down, n);
               if n == 4 then o == Outcome(db, [], Completed)
               else
                 var r := if down(n) then None else ActionTx(db, n, p, value);
                 if r.Some? then o == Prepend(Did(n), Forward(r.value, steps, n + 1, down, n + 1))
                 else o == Prepend(Event.Failed(n), Backward(db, steps, n, 0, down, n + 1)) && !o.status.Completed?
  {
    hide ReserveTx, HoldTx, CommitTx, Backward;
    var steps := SettlementSteps(p, value);
    if n < 4 {
      BackwardStops(db, steps, n, 0, down, n + 1);
    }
  }

  lemma CommitHasIntent(db: Db, p: Payload, value: int64)
    ensures var r := ActionTx(db, 2, p, value); r.Some? ==> p.txn in r.value.intents
    ensures ActionTx(db, 3, p, value) == Some(db)
  {
  }

  class TokenService {
    const repo: Repository

    constructor (repo: Repository)
      ensures this.repo == repo
    {
      this.repo := repo;
    }

    /** `IssueToken`, with the identifier, the expiry and the owner's credit limit as inputs; `false` is an error. */
    method IssueToken(id: string, owner: string, value: int64, expiry: int, limit: int64) returns (ok: bool)
      modifies repo`accounts, repo`tokens, repo`intents, repo`nonces, repo`ledger, repo`locks
      ensures ok <==> value <= limit && IssueTx(old(repo.Contents()), id, owner, value, expiry).Some?
      ensures repo.Contents() ==
              if ok then IssueTx(old(repo.Contents()), id, owner, value, expiry).value else old(repo.Contents())
      ensures Locks.Follows(old(repo.locks), repo.locks, Locks.Issue(owner))
    {
      if value <= 0 {
        return false;
      }
      if value > limit {
        return false;
      }
      var saved := repo.Contents();
      ok := IssueBody(id, owner, value, expiry);
      if !ok {
        repo.Rollback(saved);
      }
    }

    method IssueBody(id: string, owner: string, value: int64, expiry: int) returns (ok: bool)
      requires value > 0
      modifies repo`accounts, repo`tokens, repo`intents, repo`nonces, repo`ledger, repo`locks
      ensures ok <==> IssueTx(old(repo.Contents()), id, owner, value, expiry).Some?
      ensures ok ==> repo.Contents() == IssueTx(old(repo.Contents()), id, owner, value, expiry).value
      ensures Locks.Follows(old(repo.locks), repo.locks, Locks.Issue(owner))
    {
      var bal := repo.GetBalanceForUpdate(owner);
      if bal.None? || bal.value.available < value {
        return false;
      }
      var newAvailable := Sub64(bal.value.available, value);
      var newReserved := Add64(bal.value.reserved, value);
      ok := repo.UpdateBalance(owner, newAvailable, newReserved);
      if !ok {
        return false;
      }
      ok := repo.CreateToken(id, Token(owner, value, expiry, false, false, Issued));
      if !ok {
        return false;
      }
      ok := repo.CreatePaymentIntent(ReservationKey(id), Placeholder(id, owner, value));
      if !ok {
        return false;
      }
      ok := repo.CreateLedgerEntry(ReservationEntry(id, owner, value, newAvailable));
    }

    /** One transaction of `ReleaseExpiredTokens`; `released` says whether it gave money back. */
    method ReleaseOne(id: string) returns (released: bool)
      modifies repo`accounts, repo`tokens, repo`intents, repo`nonces, repo`ledger, repo`locks
      ensures repo.Contents() == Kept(old(repo.Contents()), ReleaseTx(old(repo.Contents()), id))
      ensures released <==> Unresolved(old(repo.Contents()), id) && ReleaseTx(old(repo.Contents()), id).Some?
      ensures id in old(repo.tokens) ==>
                Locks.Follows(old(repo.locks), repo.locks, Locks.Release(id, old(repo.tokens)[id].owner))
    {
      var saved := repo.Contents();
      var locked := repo.GetTokenForUpdate(id);
      if locked.None? || locked.value.consumed || locked.value.released {
        return false;
      }
      released := ReleaseBody(id, locked.value);
      if !released {
        repo.Rollback(saved);
      }
    }

    method ReleaseBody(id: string, tok: Token) returns (ok: bool)
      requires id in repo.tokens && repo.tokens[id] == tok && !tok.consumed && !tok.released
      modifies repo`accounts, repo`tokens, repo`intents, repo`nonces, repo`ledger, repo`locks
      ensures ok <==> ReleaseTx(old(repo.Contents()), id).Some?
      ensures ok ==> repo.Contents() == ReleaseTx(old(repo.Contents()), id).value
      ensures old(repo.locks) <= repo.locks <= old(repo.locks) + Locks.Program(Locks.Release(id, tok.owner))[1..]
    {
      var bal := repo.GetBalanceForUpdate(tok.owner);
      if bal.None? || bal.value.reserved < tok.value {
        return false;
      }
      var newAvailable := Add64(bal.value.available, tok.value);
      var newReserved := Sub64(bal.value.reserved, tok.value);
      ok := repo.UpdateBalance(tok.owner, newAvailable, newReserved);
      if !ok {
        return false;
      }
      ok := repo.SetTokenStatus(id, Invalidated);
      if !ok {
        return false;
      }
      ok := repo.CreateLedgerEntry(ReleaseEntry(id, tok.owner, tok.value, newAvailable));
    }

    /**
     * `ReleaseExpiredTokens`: one transaction per token found expired. A transaction that
     * fails, for its own reasons or because the database is `down`, is skipped.
     */
    method ReleaseExpiredTokens(now: int, down: set<string>) returns (count: nat, ghost scanned: seq<string>)
      modifies repo`accounts, repo`tokens, repo`intents, repo`nonces, repo`ledger, repo`locks
      ensures forall i, j :: 0 <= i < j < |scanned| ==> scanned[i] != scanned[j]
      ensures forall t :: t in scanned <==> ExpiredIn(old(repo.Contents()), t, now)
      ensures repo.Contents() == ReleaseAll(old(repo.Contents()), scanned, down)
      ensures count == CountReleased(old(repo.Contents()), scanned, down)
    {
      var ids := repo.GetExpiredTokens(now);
      scanned := ids;
      ghost var start := repo.Contents();
      count := 0;
      for i := 0 to |ids|
        invariant repo.Contents() == ReleaseAll(start, ids[..i], down)
        invariant count == CountReleased(start, ids[..i], down)
      {
        assert ids[..i + 1][..i] == ids[..i];
        if ids[i] !in down {
          var released := ReleaseOne(ids[i]);
          if released {
            count := count + 1;
          }
        }
      }
      assert ids[..|ids|] == ids;
    }
  }

  predicate Unresolved(db: Db, id: string)
  {
    id in db.tokens && !db.tokens[id].consumed && !db.tokens[id].released
  }

  predicate ExpiredIn(db: Db, id: string, now: int)
  {
    Unresolved(db, id) && db.tokens[id].expiry < now
  }

  /** The tables after trying to release each token in turn. */
  function ReleaseAll(db: Db, ids: seq<string>, down: set<string>): Db
  {
    if |ids| == 0 then db
    else
      var before, id := ReleaseAll(db, ids[..|ids| - 1], down), ids[|ids| - 1];
      if id in down then before else Kept(before, ReleaseTx(before, id))
  }

  /** How many of those releases gave money back. */
  function CountReleased(db: Db, ids: seq<string>, down: set<string>): nat
  {
    if |ids| == 0 then 0
    else
      var before, id := ReleaseAll(db, ids[..|ids| - 1], down), ids[|ids| - 1];
      CountReleased(db, ids[..|ids| - 1], down) +
      if id !in down && Unresolved(before, id) && ReleaseTx(before, id).Some? then 1 else 0
  }

  /** Which of the three statements of `saveFailedIntent` the database carries out; each fails by itself. */
  datatype Accepted = Accepted(intent: bool, message: bool, event: bool)

  function Recorded(db: Db, p: Payload, status: IntentStatus, saved: Accepted): Db
  {
    if saved.intent then SaveFailedTx(db, p.txn, p.nonce, status) else db
  }

  /** The message about a failed payment, and the event, which needs the intent's row. */
  function FailureMessages(p: Payload, status: IntentStatus, hops: int, saved: Accepted): seq<Notice>
  {
    if saved.message then [FailedNotice(p.txn, status, hops)] else []
  }

  function FailureEvents(db: Db, p: Payload, status: IntentStatus, hops: int, saved: Accepted): seq<Notice>
  {
    if saved.event && p.txn in db.intents then [FailedNotice(p.txn, status, hops)] else []
  }

  function Success(p: Payload, hops: int): Notice
  {
    SettledNotice(p.txn, p.sender, p.receiver, p.amount, hops)
  }

  class SettlementService {
    const repo: Repository

    constructor (repo: Repository)
      ensures this.repo == repo
    {
      this.repo := repo;
    }

    /** Lock the two accounts in alphabetical order and keep the rows read, by account. */
    method LockBalances(sender: string, receiver: string)
      returns (r: Option<map<string, Balance>>, ghost rows: seq<Locks.Row>)
      modifies repo`locks
      ensures repo.locks == old(repo.locks) + rows && rows <= Locks.AccountRows(sender, receiver)
      ensures r.Some? ==> rows == Locks.AccountRows(sender, receiver)
      ensures r.Some? <==> sender in repo.accounts && receiver in repo.accounts
      ensures r.Some? ==> r.value.Keys == {sender, receiver}
                          && r.value[sender] == repo.accounts[sender] && r.value[receiver] == repo.accounts[receiver]
    {
      var ids := Locks.SortedPair(sender, receiver);
      var balances: map<string, Balance> := map[];
      rows := [];
      for i := 0 to |ids|
        invariant rows == Locks.AccountRows(sender, receiver)[..i] && repo.locks == old(repo.locks) + rows
        invariant balances.Keys == (set k | 0 <= k < i :: ids[k])
        invariant forall a :: a in balances ==> a in repo.accounts && balances[a] == repo.accounts[a]
      {
        var bal := repo.GetBalanceForUpdate(ids[i]);
        rows := rows + [Locks.AccountRow(ids[i])];
        if bal.None? {
          assert ids[i] in multiset(ids);
          return None, rows;
        }
        balances := balances[ids[i] := bal.value];
      }
      assert sender in multiset(ids) && receiver in multiset(ids);
      assert forall k :: 0 <= k < |ids| ==> ids[k] in multiset(ids);
      return Some(balances), rows;
    }

    method ReserveAction(p: Payload, value: int64) returns (ok: bool)
      modifies repo`accounts, repo`tokens, repo`intents, repo`nonces, repo`ledger, repo`locks
      ensures ok <==> ReserveTx(old(repo.Contents()), p, value).Some?
      ensures ok ==> repo.Contents() == ReserveTx(old(repo.Contents()), p, value).value
      ensures ok ==>
                && repo.intents ==
                   old(repo.intents)[p.txn := Intent(p.sender, p.receiver, p.amount, p.nonce, p.token, Reserved)]
                && repo.nonces == old(repo.nonces)[p.nonce := p.txn]
      ensures Locks.Follows(old(repo.locks), repo.locks, Locks.Reserve(p.sender, p.receiver))
    {
      var balances, rows := LockBalances(p.sender, p.receiver);
      if balances.None? || balances.value[p.sender].reserved < value {
        return false;
      }
      ok := repo.CreatePaymentIntent(p.txn, Intent(p.sender, p.receiver, p.amount, p.nonce, p.token, Reserved));
      if !ok {
        return false;
      }
      ok := repo.RegisterNonce(p.nonce, p.txn);
    }

    method HoldAction(p: Payload) returns (ok: bool)
      modifies repo`accounts, repo`tokens, repo`intents, repo`nonces, repo`ledger, repo`locks
      ensures ok <==> HoldTx(old(repo.Contents()), p).Some?
      ensures ok ==> repo.Contents() == HoldTx(old(repo.Contents()), p).value
      ensures Locks.Follows(old(repo.locks), repo.locks, Locks.Hold(p.token))
    {
      var locked := repo.GetTokenForUpdate(p.token);
      if locked.None? || locked.value.status != Issued {
        return false;
      }
      ok := repo.SetTokenStatus(p.token, Held);
    }

    method CommitAction(p: Payload, value: int64) returns (ok: bool)
      modifies repo`accounts, repo`tokens, repo`intents, repo`nonces, repo`ledger, repo`locks
      ensures ok <==> CommitTx(old(repo.Contents()), p, value).Some?
      ensures ok ==> repo.Contents() == CommitTx(old(repo.Contents()), p, value).value
      ensures Locks.Follows(old(repo.locks), repo.locks, Locks.Commit(p.token, p.sender, p.receiver, p.txn))
    {
      hide Locks.Program, Locks.AccountRows, Locks.Follows;
      ghost var before := repo.locks;
      ok := repo.SetTokenStatus(p.token, Consumed);
      ghost var accounts := Locks.AccountRows(p.sender, p.receiver);
      Locks.CommitFollows(before, [], [], p.token, p.sender, p.receiver, p.txn);
      if !ok {
        return false;
      }
      var balances, rows := LockBalances(p.sender, p.receiver);
      Locks.CommitFollows(before, rows, [], p.token, p.sender, p.receiver, p.txn);
      if balances.None? {
        return false;
      }
      var sender, receiver := balances.value[p.sender], balances.value[p.receiver];
      var newSenderAvailable := Add64(sender.available, Sub64(value, p.amount));
      var newReceiverAvailable := Add64(receiver.available, p.amount);
      ok, rows := WriteBalances(p.sender, Balance(newSenderAvailable, Sub64(sender.reserved, value)),
                                p.receiver, Balance(newReceiverAvailable, receiver.reserved));
      Locks.CommitFollows(before, accounts, rows, p.token, p.sender, p.receiver, p.txn);
      if !ok {
        return false;
      }
      repo.UpdatePaymentIntentStatus(p.txn, IntentStatus.Settled);
      ok := WriteSettlement(p, value, newSenderAvailable, newReceiverAvailable);
    }

    /** The two balance updates of a settlement, the sender's first. */
    method WriteBalances(sender: string, newSender: Balance, receiver: string, newReceiver: Balance)
      returns (ok: bool, ghost rows: seq<Locks.Row>)
      requires sender in repo.accounts && receiver in repo.accounts
      modifies repo`accounts, repo`locks
      ensures ok <==> newSender.available >= 0 && newSender.reserved >= 0 &&
                      newReceiver.available >= 0 && newReceiver.reserved >= 0
      ensures ok ==> repo.accounts == old(repo.accounts)[sender := newSender][receiver := newReceiver]
      ensures repo.locks == old(repo.locks) + rows && rows <= [Locks.AccountRow(sender), Locks.AccountRow(receiver)]
      ensures ok ==> |rows| == 2
    {
      ok := repo.UpdateBalance(sender, newSender.available, newSender.reserved);
      rows := [Locks.AccountRow(sender)];
      if !ok {
        return;
      }
      ok := repo.UpdateBalance(receiver, newReceiver.available, newReceiver.reserved);
      rows := rows + [Locks.AccountRow(receiver)];
    }

    /** The double entry of the payment, and the release of the token's reservation. */
    method WriteSettlement(p: Payload, value: int64, senderAfter: int64, receiverAfter: int64) returns (ok: bool)
      requires p.sender in repo.accounts && p.receiver in repo.accounts
      modifies repo`ledger
      ensures ok <==> p.amount > 0 && value > 0 && p.txn in repo.intents && ReservationKey(p.token) in repo.intents
      ensures ok ==> repo.ledger == old(repo.ledger) + [DebitEntry(p, senderAfter)] + [CreditEntry(p, receiverAfter)]
                                    + [ReleaseEntry(p.token, p.sender, value, senderAfter)]
    {
      ok := repo.CreateLedgerEntry(DebitEntry(p, senderAfter));
      if !ok {
        return false;
      }
      ok := repo.CreateLedgerEntry(CreditEntry(p, receiverAfter));
      if !ok {
        return false;
      }
      ok := repo.CreateLedgerEntry(ReleaseEntry(p.token, p.sender, value, senderAfter));
    }

    method UndoReserveAction(p: Payload) returns (ok: bool)
      modifies repo`accounts, repo`tokens, repo`intents, repo`nonces, repo`ledger, repo`locks
      ensures ok <==> UndoReserveTx(old(repo.Contents()), p).Some?
      ensures ok ==> repo.Contents() == UndoReserveTx(old(repo.Contents()), p).value
      ensures Locks.Follows(old(repo.locks), repo.locks, Locks.UndoReserve(p.nonce, p.txn))
    {
      repo.DeleteNonce(p.nonce);
      var status := repo.GetIntentStatusForUpdate(p.txn);
      ok := true;
      if status == Some(Reserved) {
        ok := repo.DeletePaymentIntent(p.txn);
      }
    }

    method UndoHoldAction(p: Payload) returns (ok: bool)
      modifies repo`accounts, repo`tokens, repo`intents, repo`nonces, repo`ledger, repo`locks
      ensures ok && UndoHoldTx(old(repo.Contents()), p) == Some(repo.Contents())
      ensures Locks.Follows(old(repo.locks), repo.locks, Locks.UndoHold(p.token))
    {
      var locked := repo.GetTokenForUpdate(p.token);
      ok := true;
      if locked.Some? && locked.value.status == Held {
        ok := repo.SetTokenStatus(p.token, Invalidated);
      }
    }

    method UndoCommitAction(p: Payload, value: int64) returns (ok: bool)
      modifies repo`accounts, repo`tokens, repo`intents, repo`nonces, repo`ledger, repo`locks
      ensures ok <==> UndoCommitTx(old(repo.Contents()), p, value).Some?
      ensures ok ==> repo.Contents() == UndoCommitTx(old(repo.Contents()), p, value).value
      ensures Locks.Follows(old(repo.locks), repo.locks, Locks.UndoCommit(p.sender, p.receiver, p.txn))
    {
      hide WithoutSettlement, NonceRefers, EntryRefers, Locks.Program, Locks.AccountRows, Locks.Follows;
      ghost var before, accounts := repo.locks, Locks.AccountRows(p.sender, p.receiver);
      var balances, rows := LockBalances(p.sender, p.receiver);
      Locks.UndoCommitFollows(before, rows, [], p.sender, p.receiver, p.txn);
      if balances.None? {
        return false;
      }
      var sender, receiver := balances.value[p.sender], balances.value[p.receiver];
      ok, rows := WriteBalances(p.sender,
          Balance(Sub64(sender.available, Sub64(value, p.amount)), Add64(sender.reserved, value)),
                                p.receiver, Balance(Sub64(receiver.available, p.amount), receiver.reserved));
      Locks.UndoCommitFollows(before, accounts, rows, p.sender, p.receiver, p.txn);
      if !ok {
        return false;
      }
      repo.DeleteSettlementEntries(p);
      NoSettlementLeft(old(repo.ledger), p);
      ok := repo.DeletePaymentIntent(p.txn);
    }

    /**
     * `Settle`: admit the payment, then run its saga. `rejection` is the verdict of the checks
     * on signatures, devices, expiry and risk; `failStatus` is what the text of a saga's error
     * maps to; `saved` says what could be written about a failed payment.
     */
    method Settle(p: Payload, hops: int, now: int, rejection: Option<IntentStatus>, failStatus: IntentStatus,
                  saved: Accepted, down: nat -> bool)
      returns (r: IntentStatus, saga: Option<Status>)
      modifies repo
      ensures saga.Some? <==> rejection.None? && Admits(old(repo.Contents()), p, now)
      ensures saga.Some? <==>
              && rejection.None? && !AlreadyProcessed(old(repo.Contents()), p.txn) && p.token in old(repo.tokens)
              && var tok := old(repo.tokens)[p.token];
                 tok.owner == p.sender && now <= tok.expiry && !tok.consumed && p.amount <= tok.value
      ensures AlreadyProcessed(old(repo.Contents()), p.txn) ==>
                r == Duplicate && repo.Contents() == old(repo.Contents()) && unchanged(repo`outbox, repo`events)
      ensures saga.None? && !AlreadyProcessed(old(repo.Contents()), p.txn) ==>
                && repo.Contents() == Recorded(old(repo.Contents()), p, r, saved)
                && (rejection.Some? ==> r == rejection.value)
                && (rejection.None? ==> r == Rejected || r == Duplicate)
                && (rejection.None? ==>
                      (r == Duplicate <==>
                       && p.token in old(repo.tokens)
                       && var tok := old(repo.tokens)[p.token];
                          tok.owner == p.sender && now <= tok.expiry && tok.consumed))
      ensures saga.Some? ==>
                var o := LoneOutcome(old(repo.Contents()), p, old(repo.tokens)[p.token].value, down);
                && saga.value == o.status && r == (if o.status.Completed? then IntentStatus.Settled else failStatus)
                && repo.Contents() == if o.status.Completed? then o.state else Recorded(o.state, p, failStatus, saved)
      ensures saga == Some(Completed) ==>
                && repo.outbox == old(repo.outbox) + [Success(p, hops)]
                && repo.events == old(repo.events) + [Success(p, hops)]
      ensures saga != Some(Completed) && !AlreadyProcessed(old(repo.Contents()), p.txn) ==>
                && repo.outbox == old(repo.outbox) + FailureMessages(p, r, hops, saved)
                && repo.events == old(repo.events) + FailureEvents(repo.Contents(), p, r, hops, saved)
    {
      hide LoneOutcome;
      if AlreadyProcessed(repo.Contents(), p.txn) {
        return Duplicate, None;
      }
      r := Rejected;
      if rejection.Some? {
        r := rejection.value;
      } else if p.token in repo.tokens && repo.tokens[p.token].owner == p.sender && now <= repo.tokens[p.token].expiry {
        if repo.tokens[p.token].consumed {
          r := Duplicate;
        } else if p.amount <= repo.tokens[p.token].value {
          var status := RunSaga(p, hops, repo.tokens[p.token].value, down);
          saga := Some(status);
          if status.Completed? {
            return IntentStatus.Settled, saga;
          }
          r := failStatus;
          SaveFailedIntent(p, failStatus, hops, saved);
          return;
        }
      }
      SaveFailedIntent(p, r, hops, saved);
      saga := None;
    }

    /** `saveFailedIntent`: the intent, the message and the event; an error of any of them is ignored. */
    method SaveFailedIntent(p: Payload, status: IntentStatus, hops: int, saved: Accepted)
      modifies repo
      ensures repo.Contents() == Recorded(old(repo.Contents()), p, status, saved)
      ensures saved.intent && p.txn !in old(repo.intents) && "UNKNOWN" in repo.tokens ==>
                && p.txn in repo.intents
                && repo.intents[p.txn] == Intent("UNKNOWN", "UNKNOWN", 0, p.nonce, "UNKNOWN", status)
      ensures p.txn in old(repo.intents) || "UNKNOWN" !in repo.tokens ==> repo.intents == old(repo.intents)
      ensures repo.outbox == old(repo.outbox) + FailureMessages(p, status, hops, saved)
      ensures repo.events == old(repo.events) + FailureEvents(repo.Contents(), p, status, hops, saved)
    {
      if saved.intent {
        var ok := repo.CreatePaymentIntent(p.txn, FailedIntent(p.nonce, status));
      }
      if saved.message {
        repo.CreateOutboxEvent(FailedNotice(p.txn, status, hops));
      }
      if saved.event {
        var ok := repo.CreatePaymentEvent(FailedNotice(p.txn, status, hops));
      }
    }

    method RunSaga(p: Payload, hops: int, value: int64, down: nat -> bool) returns (status: Status)
      modifies repo
      ensures var o := LoneOutcome(old(repo.Contents()), p, value, down);
              status == o.status && repo.Contents() == o.state
      ensures var told := if status.Completed? then [Success(p, hops)] else [];
              repo.outbox == old(repo.outbox) + told && repo.events == old(repo.events) + told
    {
      hide Forward, Backward, SettlementSteps, ActionTx;
      ghost var steps, start := SettlementSteps(p, value), repo.Contents();
      StepCount(p, value);
      var n: nat := 0;
      while n < 4
        invariant n <= 4
        invariant n == 3 ==> p.txn in repo.intents
        invariant Forward(repo.Contents(), steps, n, down, n).state == LoneOutcome(start, p, value, down).state
        invariant Forward(repo.Contents(), steps, n, down, n).status == LoneOutcome(start, p, value, down).status
        invariant var told := if n == 4 then [Success(p, hops)] else [];
                  repo.outbox == old(repo.outbox) + told && repo.events == old(repo.events) + told
      {
        ActionTurn(repo.Contents(), p, value, n, down);
        CommitHasIntent(repo.Contents(), p, value);
        var ok := RunAction(n, p, hops, value, down(n));
        if !ok {
          status := UndoSaga(p, value, n, down, n + 1);
          return;
        }
        n := n + 1;
      }
      ActionTurn(repo.Contents(), p, value, n, down);
      status := Completed;
    }

    method UndoSaga(p: Payload, value: int64, executed: nat, down: nat -> bool, clock0: nat) returns (status: Status)
      requires executed < 4
      modifies repo`accounts, repo`tokens, repo`intents, repo`nonces, repo`ledger, repo`locks
      ensures var o := Backward(old(repo.Contents()), SettlementSteps(p, value), executed, 0, down, clock0);
              status == o.status && repo.Contents() == o.state
    {
      hide Backward, SettlementSteps, UndoTx;
      ghost var steps := SettlementSteps(p, value);
      StepCount(p, value);
      ghost var result := Backward(repo.Contents(), steps, executed, 0, down, clock0);
      var n: nat, tries: nat, clock: nat := executed, 0, clock0;
      while n > 0
        invariant n < 4 && 0 <= tries < MAX_RETRIES
        invariant Backward(repo.Contents(), steps, n, tries, down, clock).state == result.state
        invariant Backward(repo.Contents(), steps, n, tries, down, clock).status == result.status
        decreases n, MAX_RETRIES - tries
      {
        UndoTurn(repo.Contents(), p, value, n, tries, down, clock);
        var ok := RunUndo(n - 1, p, value, down(clock));
        clock := clock + 1;
        if ok {
          n, tries := n - 1, 0;
        } else if tries + 1 == MAX_RETRIES {
          return Critical(n - 1);
        } else {
          tries := tries + 1;
        }
      }
      UndoTurn(repo.Contents(), p, value, n, tries, down, clock);
      return Compensated;
    }

    /** `WithTx` around the `k`th action; `down` makes the database unreachable. */
    method RunAction(k: nat, p: Payload, hops: int, value: int64, down: bool) returns (ok: bool)
      requires k < 4
      modifies repo
      ensures repo.outbox == old(repo.outbox) + if ok && k == 3 then [Success(p, hops)] else []
      ensures repo.events == old(repo.events) + if ok && k == 3 && p.txn in repo.intents then [Success(p, hops)] else []
      ensures ok <==> !down && ActionTx(old(repo.Contents()), k, p, value).Some?
      ensures repo.Contents() == if ok then ActionTx(old(repo.Contents()), k, p, value).value else old(repo.Contents())
    {
      if down {
        return false;
      }
      var saved := repo.Contents();
      if k == 0 {
        ok := ReserveAction(p, value);
      } else if k == 1 {
        ok := HoldAction(p);
      } else if k == 2 {
        ok := CommitAction(p, value);
      } else {
        repo.CreateOutboxEvent(Success(p, hops));
        ok := true;
        if p.txn in repo.intents {
          ok := repo.CreatePaymentEvent(Success(p, hops));
        }
      }
      if !ok {
        repo.Rollback(saved);
      }
    }

    /** `WithTx` around the compensation of the `k`th action. */
    method RunUndo(k: nat, p: Payload, value: int64, down: bool) returns (ok: bool)
      requires k < 4
      modifies repo`accounts, repo`tokens, repo`intents, repo`nonces, repo`ledger, repo`locks
      ensures ok <==> !down && UndoTx(old(repo.Contents()), k, p, value).Some?
      ensures repo.Contents() == if ok then UndoTx(old(repo.Contents()), k, p, value).value else old(repo.Contents())
    {
      if down {
        return false;
      }
      var saved := repo.Contents();
      if k == 0 {
        ok := UndoReserveAction(p);
      } else if k == 1 {
        ok := UndoHoldAction(p);
      } else if k == 2 {
        ok := UndoCommitAction(p, value);
      } else {
        ok := true;
      }
      if !ok {
        repo.Rollback(saved);
      }
    }
  }

  /** What the orchestrator makes of a settlement that nothing interleaves with. */
  function LoneOutcome(db: Db, p: Payload, value: int64, down: nat -> bool): Outcome<Db>
  {
    Forward(db, SettlementSteps(p, value), 0, down, 0)
  }

  /** Deleting the entries of a settlement leaves none that references its intent. */
  lemma {:induction false} NoSettlementLeft(ledger: seq<Entry>, p: Payload)
    ensures !EntryRefers(WithoutSettlement(ledger, p), p.txn)
  {
    if |ledger| != 0 {
      NoSettlementLeft(ledger[..|ledger| - 1], p);
    }
  }
}
