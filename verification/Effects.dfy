/** What a committed transaction did, stated without wrap-around: an overflow never commits. */
module Effects {
  import opened Basics
  import opened Tables
  import opened Transactions
  import opened Invariants

  /** Every other account is as it was. */
  predicate OnlyTouches(before: map<string, Balance>, after: map<string, Balance>, touched: set<string>)
  {
    && before.Keys == after.Keys
    && forall a :: a in before && a !in touched ==> after[a] == before[a]
  }

  predicate Moves(before: map<string, Balance>, after: map<string, Balance>, a: string, available: int, reserved: int)
  {
    && a in before && a in after
    && after[a].available == before[a].available + available
    && after[a].reserved == before[a].reserved + reserved
  }

  // ---- Issue ----

  predicate Issues(db: Db, db': Db, id: string, owner: string, value: int64)
  {
    && value > 0
    && OnlyTouches(db.accounts, db'.accounts, {owner})
    && Moves(db.accounts, db'.accounts, owner, -value, value)
    && id !in db.tokens
    && id in db'.tokens && db'.tokens[id].owner == owner && db'.tokens[id].value == value
    && !db'.tokens[id].consumed && !db'.tokens[id].released && db'.tokens[id].status == Issued
    && db'.tokens == db.tokens[id := db'.tokens[id]]
    && ReservationKey(id) !in db.intents
    && db'.intents == db.intents[ReservationKey(id) := Placeholder(id, owner, value)]
    && db'.intents.Keys == db.intents.Keys + {ReservationKey(id)}
    && db'.nonces == db.nonces
    && db'.ledger == db.ledger + [ReservationEntry(id, owner, value, db'.accounts[owner].available)]
  }

  lemma IssueEffect(db: Db, id: string, owner: string, value: int64, expiry: int, db': Db)
    requires AccountsOk(db.accounts)
    requires IssueTx(db, id, owner, value, expiry) == Some(db')
    ensures Issues(db, db', id, owner, value) && AccountsOk(db'.accounts)
    ensures db'.tokens[id] == Token(owner, value, expiry, false, false, Issued)
    ensures var key := "tok-res-" + id;
            db'.intents == db.intents[key := Intent(owner, "BANK", value, "nonce-" + key, id, IntentStatus.Reserved)]
  {
  }

  // ---- Release ----

  predicate Releases(db: Db, db': Db, id: string)
  {
    && id in db.tokens
    && var tok := db.tokens[id];
    && tok.value > 0 && tok.status in {Issued, Held}
    && OnlyTouches(db.accounts, db'.accounts, {tok.owner})
    && Moves(db.accounts, db'.accounts, tok.owner, tok.value, -tok.value)
    && db'.tokens == db.tokens[id := tok.(released := true, status := Invalidated)]
    && db'.intents == db.intents
    && db'.nonces == db.nonces
    && db'.ledger == db.ledger + [ReleaseEntry(id, tok.owner, tok.value, db'.accounts[tok.owner].available)]
  }

  /** Release either finds the token resolved and does nothing, or gives its whole value back. */
  lemma ReleaseEffect(db: Db, id: string, db': Db)
    requires AccountsOk(db.accounts) && TokensOk(db)
    requires ReleaseTx(db, id) == Some(db')
    ensures AccountsOk(db'.accounts)
    ensures id in db.tokens
    ensures if db.tokens[id].consumed || db.tokens[id].released then db' == db else Releases(db, db', id)
  {
  }

  // ---- LEDGER_COMMIT ----

  predicate Commits(db: Db, db': Db, p: Payload, value: int64)
  {
    && 0 < p.amount <= value
    && p.token in db.tokens
    && OnlyTouches(db.accounts, db'.accounts, {p.sender, p.receiver})
    && (p.sender != p.receiver ==>
          && Moves(db.accounts, db'.accounts, p.sender, value - p.amount, -value)
          && Moves(db.accounts, db'.accounts, p.receiver, p.amount, 0))
    && (p.sender == p.receiver ==> Moves(db.accounts, db'.accounts, p.sender, p.amount, 0))
    && db'.tokens == db.tokens[p.token := db.tokens[p.token].(consumed := true, status := Consumed)]
    && p.txn in db.intents && db'.intents == db.intents[p.txn := db.intents[p.txn].(status := IntentStatus.Settled)]
    && db'.intents.Keys == db.intents.Keys
    && db'.nonces == db.nonces
    && p.sender in db.accounts && p.receiver in db.accounts
    && exists senderAfter: int64 ::
         && senderAfter == db.accounts[p.sender].available + value - p.amount
         && db'.ledger == db.ledger + [DebitEntry(p, senderAfter)]
                                    + [CreditEntry(p, db'.accounts[p.receiver].available)]
                                    + [ReleaseEntry(p.token, p.sender, value, senderAfter)]
  }

  lemma CommitEffect(db: Db, p: Payload, value: int64, db': Db)
    requires AccountsOk(db.accounts) && p.amount <= value
    requires CommitTx(db, p, value) == Some(db')
    ensures Commits(db, db', p, value) && AccountsOk(db'.accounts)
    ensures db.accounts[p.sender].reserved >= value
    ensures p.txn in db'.intents
  {
  }

  // ---- RESERVE ----

  /** RESERVE goes through exactly for known accounts, covered by what is reserved, with a new transaction and nonce. */
  lemma ReserveExactly(db: Db, p: Payload, value: int64)
    ensures ReserveTx(db, p, value).Some? <==>
            && p.sender in db.accounts && p.receiver in db.accounts && db.accounts[p.sender].reserved >= value
            && p.token in db.tokens && p.txn !in db.intents && p.nonce !in db.nonces
    ensures ReserveTx(db, p, value).Some? ==>
              var db' := ReserveTx(db, p, value).value;
              && db'.accounts == db.accounts && db'.tokens == db.tokens && db'.ledger == db.ledger
              && db'.intents == db.intents[p.txn := Intent(p.sender, p.receiver, p.amount, p.nonce, p.token, Reserved)]
              && db'.nonces == db.nonces[p.nonce := p.txn]
  {
  }

  // ---- Opening an account ----

  /** An account opens with any balance that is not negative; opening it again changes nothing. */
  lemma OpenEffect(db: Db, id: string, initial: int64)
    ensures CreateAccountTx(db, id, initial).Some? <==> initial >= 0
    ensures initial >= 0 ==>
              var db' := CreateAccountTx(db, id, initial).value;
              && db' == db.(accounts := db'.accounts)
              && db'.accounts.Keys == db.accounts.Keys + {id}
              && (id !in db.accounts ==> db'.accounts[id] == Balance(initial, 0))
              && forall a :: a in db.accounts ==> db'.accounts[a] == db.accounts[a]
  {
  }
}
