/**
 * What each database transaction of the token and settlement services does to the tables.
 * `Some(db)` is a commit that leaves `db`; `None` is an error, after which `WithTx` rolls back.
 * The schema's primary keys, foreign keys and CHECK constraints appear as the guards that
 * turn a statement into an error.
 */
module Transactions {
  import opened Basics
  import opened Tables

  /** `INSERT ... ON CONFLICT (account_id) DO NOTHING`. */
  function CreateAccountTx(db: Db, id: string, initial: int64): Option<Db>
  {
    if initial < 0 then None
    else if id in db.accounts then Some(db)
    else Some(db.(accounts := db.accounts[id := Balance(initial, 0)]))
  }

  // ---- Tokens ----

  function ReservationEntry(id: string, owner: string, value: int64, after: int64): Entry
  {
    Entry(ReservationKey(id), owner, Debit, value, Reservation, after)
  }

  function ReleaseEntry(id: string, owner: string, value: int64, after: int64): Entry
  {
    Entry(ReservationKey(id), owner, Credit, value, Release, after)
  }

  /** The intent row that an issue inserts so that its ledger entry can reference it. */
  function Placeholder(id: string, owner: string, value: int64): Intent
  {
    Intent(owner, "BANK", value, "nonce-" + ReservationKey(id), id, Reserved)
  }

  /** Move `value` from available to reserved, create the token, its placeholder intent and ledger entry. */
  function IssueTx(db: Db, id: string, owner: string, value: int64, expiry: int): Option<Db>
  {
    if value <= 0 || owner !in db.accounts || db.accounts[owner].available < value then None
    else
      var newAvailable := Sub64(db.accounts[owner].available, value);
      var newReserved := Add64(db.accounts[owner].reserved, value);
      if newAvailable < 0 || newReserved < 0 then None
      else if id in db.tokens || ReservationKey(id) in db.intents then None
      else
        Some(Db(db.accounts[owner := Balance(newAvailable, newReserved)],
                db.tokens[id := Token(owner, value, expiry, false, false, Issued)],
                db.intents[ReservationKey(id) := Placeholder(id, owner, value)],
                db.nonces,
                db.ledger + [ReservationEntry(id, owner, value, newAvailable)]))
  }

  /** Give the funds of an unresolved token back to its owner. */
  function ReleaseTx(db: Db, id: string): Option<Db>
  {
    if id !in db.tokens then None
    else
      var tok := db.tokens[id];
      if tok.consumed || tok.released then Some(db)
      else if tok.owner !in db.accounts || db.accounts[tok.owner].reserved < tok.value then None
      else
        var newAvailable := Add64(db.accounts[tok.owner].available, tok.value);
        var newReserved := Sub64(db.accounts[tok.owner].reserved, tok.value);
        if newAvailable < 0 || newReserved < 0 then None
        else if !IsValidTokenTransition(tok.status, Invalidated) then None
        else if tok.value <= 0 || ReservationKey(id) !in db.intents then None
        else
          Some(Db(db.accounts[tok.owner := Balance(newAvailable, newReserved)],
                  db.tokens[id := tok.(released := true, status := Invalidated)],
                  db.intents,
                  db.nonces,
                  db.ledger + [ReleaseEntry(id, tok.owner, tok.value, newAvailable)]))
  }

  // ---- The saga of one settlement; `value` is the token's value as `Settle` read it ----

  /** RESERVE: insert the intent and the nonce, if the sender's reservation covers the token. */
  function ReserveTx(db: Db, p: Payload, value: int64): Option<Db>
  {
    if p.sender !in db.accounts || p.receiver !in db.accounts then None
    else if db.accounts[p.sender].reserved < value then None
    else if p.txn in db.intents || p.token !in db.tokens then None
    else if p.nonce in db.nonces then None
    else
      Some(db.(intents := db.intents[p.txn := Intent(p.sender, p.receiver, p.amount, p.nonce, p.token, Reserved)],
               nonces := db.nonces[p.nonce := p.txn]))
  }

  /** CONSUME_TOKEN: only an ISSUED token can be held. */
  function HoldTx(db: Db, p: Payload): Option<Db>
  {
    if p.token !in db.tokens || db.tokens[p.token].status != Issued then None
    else Some(db.(tokens := db.tokens[p.token := db.tokens[p.token].(status := Held)]))
  }

  function DebitEntry(p: Payload, after: int64): Entry
  {
    Entry(p.txn, p.sender, Debit, p.amount, Settlement, after)
  }

  function CreditEntry(p: Payload, after: int64): Entry
  {
    Entry(p.txn, p.receiver, Credit, p.amount, Settlement, after)
  }

  /**
   * LEDGER_COMMIT. Both balances are read before either is written, so when the sender is
   * the receiver the second write replaces the first.
   */
  function CommitTx(db: Db, p: Payload, value: int64): Option<Db>
  {
    if p.token !in db.tokens || !IsValidTokenTransition(db.tokens[p.token].status, Consumed) then None
    else if p.sender !in db.accounts || p.receiver !in db.accounts then None
    else
      var sender, receiver := db.accounts[p.sender], db.accounts[p.receiver];
      var newSenderReserved := Sub64(sender.reserved, value);
      var newSenderAvailable := Add64(sender.available, Sub64(value, p.amount));
      var newReceiverAvailable := Add64(receiver.available, p.amount);
      if newSenderReserved < 0 || newSenderAvailable < 0 then None
      else if newReceiverAvailable < 0 || receiver.reserved < 0 then None
      else if p.amount <= 0 || value <= 0 then None
      else if p.txn !in db.intents || ReservationKey(p.token) !in db.intents then None
      else
        Some(Db(db.accounts[p.sender := Balance(newSenderAvailable, newSenderReserved)]
                           [p.receiver := Balance(newReceiverAvailable, receiver.reserved)],
                db.tokens[p.token := db.tokens[p.token].(consumed := true, status := Consumed)],
                db.intents[p.txn := db.intents[p.txn].(status := Settled)],
                db.nonces,
                db.ledger + [DebitEntry(p, newSenderAvailable)]
                          + [CreditEntry(p, newReceiverAvailable)]
                          + [ReleaseEntry(p.token, p.sender, value, newSenderAvailable)]))
  }

  /** The foreign key of `nonce_registry`: some nonce references the intent. */
  predicate NonceRefers(nonces: map<string, string>, txn: string)
  {
    exists n :: n in nonces && nonces[n] == txn
  }

  /** The foreign key of `ledger_entries`. */
  predicate EntryRefers(ledger: seq<Entry>, txn: string)
  {
    exists e :: e in ledger && e.txn == txn
  }

  /** Undo RESERVE: drop the nonce, and the intent if it is still RESERVED. */
  function UndoReserveTx(db: Db, p: Payload): Option<Db>
  {
    var nonces := db.nonces - {p.nonce};
    if p.txn !in db.intents || db.intents[p.txn].status != Reserved then Some(db.(nonces := nonces))
    else if NonceRefers(nonces, p.txn) || EntryRefers(db.ledger, p.txn) then None
    else Some(db.(nonces := nonces, intents := db.intents - {p.txn}))
  }

  /** Undo CONSUME_TOKEN: a token that is still HELD becomes INVALIDATED. No balance moves. */
  function UndoHoldTx(db: Db, p: Payload): Option<Db>
  {
    if p.token in db.tokens && db.tokens[p.token].status == Held then
      Some(db.(tokens := db.tokens[p.token := db.tokens[p.token].(released := true, status := Invalidated)]))
    else
      Some(db)
  }

  /** The balance part of undoing LEDGER_COMMIT. */
  function UndoCommitBalances(accounts: map<string, Balance>, p: Payload, value: int64): Option<map<string, Balance>>
  {
    if p.sender !in accounts || p.receiver !in accounts then None
    else
      var sender, receiver := accounts[p.sender], accounts[p.receiver];
      var newSenderReserved := Add64(sender.reserved, value);
      var newSenderAvailable := Sub64(sender.available, Sub64(value, p.amount));
      var newReceiverAvailable := Sub64(receiver.available, p.amount);
      if newSenderReserved < 0 || newSenderAvailable < 0 then None
      else if newReceiverAvailable < 0 || receiver.reserved < 0 then None
      else Some(accounts[p.sender := Balance(newSenderAvailable, newSenderReserved)]
                        [p.receiver := Balance(newReceiverAvailable, receiver.reserved)])
  }

  /** The entries that survive `DELETE FROM ledger_entries` in the undo of LEDGER_COMMIT. */
  function WithoutSettlement(ledger: seq<Entry>, p: Payload): seq<Entry>
  {
    if |ledger| == 0 then []
    else
      var last := ledger[|ledger| - 1];
      WithoutSettlement(ledger[..|ledger| - 1], p) +
      if last.txn == p.txn || (last.txn == ReservationKey(p.token) && last.kind == Release) then [] else [last]
  }

  /** Undo LEDGER_COMMIT: deleting the intent fails while a nonce row still references it. */
  function UndoCommitTx(db: Db, p: Payload, value: int64): Option<Db>
  {
    var accounts := UndoCommitBalances(db.accounts, p, value);
    var ledger := WithoutSettlement(db.ledger, p);
    if accounts.None? then None
    else if NonceRefers(db.nonces, p.txn) then None
    else Some(db.(accounts := accounts.value, ledger := ledger, intents := db.intents - {p.txn}))
  }

  /** The step list of `Settle`: the `k`th action, counted from 0. PUBLISH writes none of these tables. */
  function ActionTx(db: Db, k: nat, p: Payload, value: int64): Option<Db>
  {
    if k == 0 then ReserveTx(db, p, value)
    else if k == 1 then HoldTx(db, p)
    else if k == 2 then CommitTx(db, p, value)
    else Some(db)
  }

  /** The compensation of the `k`th action. */
  function UndoTx(db: Db, k: nat, p: Payload, value: int64): Option<Db>
  {
    if k == 0 then UndoReserveTx(db, p)
    else if k == 1 then UndoHoldTx(db, p)
    else if k == 2 then UndoCommitTx(db, p, value)
    else Some(db)
  }

  // ---- Writers of the intent table outside the saga ----

  /** The token that `saveFailedIntent` names; the insert fails unless there is such a row. */
  const UNKNOWN_TOKEN: string := "UNKNOWN"

  function FailedIntent(nonce: string, status: IntentStatus): Intent
  {
    Intent("UNKNOWN", "UNKNOWN", 0, nonce, UNKNOWN_TOKEN, status)
  }

  /** `saveFailedIntent`: an insert that the primary key or the reference to the token refuses is ignored. */
  function SaveFailedTx(db: Db, txn: string, nonce: string, status: IntentStatus): Db
  {
    if txn in db.intents || UNKNOWN_TOKEN !in db.tokens then db
    else db.(intents := db.intents[txn := FailedIntent(nonce, status)])
  }

  /** Reconciliation writes EXPIRED without looking at the current status. */
  function ExpireIntentTx(db: Db, txn: string): Db
  {
    if txn !in db.intents then db
    else db.(intents := db.intents[txn := db.intents[txn].(status := Expired)])
  }

  /** The first check of `Settle`: the intent is in a final state. */
  predicate AlreadyProcessed(db: Db, txn: string)
  {
    txn in db.intents && db.intents[txn].status in {Settled, Rejected, Failed, Duplicate}
  }

  /** The later checks of `Settle`, on the token; `now` is the clock it reads. */
  predicate TokenAdmits(db: Db, p: Payload, now: int)
  {
    && p.token in db.tokens
    && db.tokens[p.token].owner == p.sender
    && now <= db.tokens[p.token].expiry
    && !db.tokens[p.token].consumed
    && p.amount <= db.tokens[p.token].value
  }

  predicate Admits(db: Db, p: Payload, now: int)
  {
    !AlreadyProcessed(db, p.txn) && TokenAdmits(db, p, now)
  }
}
