/** The repository: statements that read or update the tables in place, and the two audits. */
module Storage {
  import opened Basics
  import opened Sums
  import opened Tables
  import opened Transactions
  import Locks

  /** One line of the balance audit. */
  datatype Discrepancy = Discrepancy(account: string,
                                     expectedAvailable: int, actualAvailable: int,
                                     expectedReserved: int, actualReserved: int, amount: int)

  /** The values of the ISSUED and HELD tokens of `owner`. */
  function LiveTokens(tokens: map<string, Token>, owner: string): map<string, int>
  {
    map t | t in tokens :: if tokens[t].owner == owner && tokens[t].status in {Issued, Held} then tokens[t].value else 0
  }

  function ExpectedAvailable(db: Db, a: string): int
    requires a in db.accounts
  {
    var last := LastEntry(db.ledger, a);
    if last.Some? then last.value.balanceAfter else db.accounts[a].available
  }

  ghost function ExpectedReserved(db: Db, a: string): int
  {
    Sum(LiveTokens(db.tokens, a))
  }

  ghost predicate Mismatch(db: Db, a: string)
    requires a in db.accounts
  {
    || ExpectedAvailable(db, a) != db.accounts[a].available
    || ExpectedReserved(db, a) != db.accounts[a].reserved
  }

  ghost predicate Reports(db: Db, d: Discrepancy)
  {
    && d.account in db.accounts
    && d.actualAvailable == db.accounts[d.account].available
    && d.actualReserved == db.accounts[d.account].reserved
    && d.expectedAvailable == ExpectedAvailable(db, d.account)
    && d.expectedReserved == ExpectedReserved(db, d.account)
    && d.amount == Wrap64(d.actualAvailable + d.actualReserved - (d.expectedAvailable + d.expectedReserved))
  }

  /** Debits minus credits per transaction, accumulated entry by entry. */
  function Tally(ledger: seq<Entry>): map<string, int>
  {
    if |ledger| == 0 then map[]
    else
      var sums, e := Tally(ledger[..|ledger| - 1]), ledger[|ledger| - 1];
      sums[e.txn := (if e.txn in sums then sums[e.txn] else 0) + Signed64(e)]
  }

  lemma {:induction false} TallyIsNet(ledger: seq<Entry>, txn: string)
    ensures txn in Tally(ledger) <==> txn in TxnIds(ledger)
    ensures (if txn in Tally(ledger) then Tally(ledger)[txn] else 0) == Net(Group(ledger, txn))
  {
    if |ledger| != 0 {
      var front, e := ledger[..|ledger| - 1], ledger[|ledger| - 1];
      assert ledger == front + [e];
      TallyIsNet(front, txn);
      TallyIsNet(front, e.txn);
      NetAppend(front, e, txn);
    }
  }

  lemma TallyFindsImbalances(ledger: seq<Entry>)
    ensures (map x | x in Tally(ledger) && Tally(ledger)[x] != 0 :: Tally(ledger)[x]) == Imbalances(ledger)
  {
    hide Tally, Net, Group;
    var kept := map x | x in Tally(ledger) && Tally(ledger)[x] != 0 :: Tally(ledger)[x];
    forall x: string
      ensures x in kept <==> x in Imbalances(ledger)
      ensures x in kept ==> kept[x] == Net(Group(ledger, x))
    {
      TallyIsNet(ledger, x);
    }
  }

  class Repository {
    var accounts: map<string, Balance>
    var tokens: map<string, Token>
    var intents: map<string, Intent>
    var nonces: map<string, string>
    var ledger: seq<Entry>
    /** The notices about payments in `outbox_events` and in `payment_events`. */
    var outbox: seq<Notice>
    var events: seq<Notice>
    /** The rows that statements have locked, oldest first. */
    ghost var locks: seq<Locks.Row>

    constructor ()
      ensures Contents() == Db(map[], map[], map[], map[], []) && outbox == [] && events == []
    {
      accounts, tokens, intents, nonces, ledger := map[], map[], map[], map[], [];
      outbox, events, locks := [], [], [];
    }

    function Contents(): Db
      reads this
    {
      Db(accounts, tokens, intents, nonces, ledger)
    }

    /** `tx.Rollback()`: back to what the transaction started from. */
    method Rollback(saved: Db)
      modifies this`accounts, this`tokens, this`intents, this`nonces, this`ledger
      ensures Contents() == saved
    {
      accounts, tokens, intents, nonces, ledger :=
        saved.accounts, saved.tokens, saved.intents, saved.nonces, saved.ledger;
    }

    // ---- Accounts ----

    method CreateAccount(id: string, initial: int64) returns (ok: bool)
      modifies this`accounts
      ensures ok <==> CreateAccountTx(old(Contents()), id, initial).Some?
      ensures Contents() == if ok then CreateAccountTx(old(Contents()), id, initial).value else old(Contents())
      ensures ok <==> initial >= 0
      ensures accounts == if ok && id !in old(accounts) then old(accounts)[id := Balance(initial, 0)] else old(accounts)
    {
      ok := initial >= 0;
      if ok && id !in accounts {
        accounts := accounts[id := Balance(initial, 0)];
      }
    }

    method GetBalanceForUpdate(id: string) returns (r: Option<Balance>)
      modifies this`locks
      ensures r == if id in accounts then Some(accounts[id]) else None
      ensures locks == old(locks) + [Locks.AccountRow(id)]
    {
      locks := locks + [Locks.AccountRow(id)];
      if id in accounts {
        return Some(accounts[id]);
      }
      return None;
    }

    /** Updating a missing row changes nothing; a negative balance violates a CHECK. */
    method UpdateBalance(id: string, available: int64, reserved: int64) returns (ok: bool)
      modifies this`accounts, this`locks
      ensures locks == old(locks) + [Locks.AccountRow(id)]
      ensures ok <==> (id in old(accounts) ==> available >= 0 && reserved >= 0)
      ensures accounts ==
              if ok && id in old(accounts) then old(accounts)[id := Balance(available, reserved)] else old(accounts)
    {
      locks := locks + [Locks.AccountRow(id)];
      if id in accounts {
        if available < 0 || reserved < 0 {
          return false;
        }
        accounts := accounts[id := Balance(available, reserved)];
      }
      return true;
    }

    method CreateLedgerEntry(e: Entry) returns (ok: bool)
      modifies this`ledger
      ensures ok <==> e.amount > 0 && e.txn in intents && e.account in accounts
      ensures ledger == if ok then old(ledger) + [e] else old(ledger)
    {
      ok := e.amount > 0 && e.txn in intents && e.account in accounts;
      if ok {
        ledger := ledger + [e];
      }
    }

    // ---- Tokens ----

    method CreateToken(id: string, tok: Token) returns (ok: bool)
      modifies this`tokens
      ensures ok <==> id !in old(tokens)
      ensures tokens == if ok then old(tokens)[id := tok] else old(tokens)
    {
      ok := id !in tokens;
      if ok {
        tokens := tokens[id := tok];
      }
    }

    method GetTokenForUpdate(id: string) returns (r: Option<Token>)
      modifies this`locks
      ensures r == if id in tokens then Some(tokens[id]) else None
      ensures locks == old(locks) + [Locks.TokenRow(id)]
    {
      locks := locks + [Locks.TokenRow(id)];
      if id in tokens {
        return Some(tokens[id]);
      }
      return None;
    }

    /** HoldToken, InvalidateToken, ConsumeToken and ReleaseToken: a checked status change. */
    method SetTokenStatus(id: string, status: TokenStatus) returns (ok: bool)
      modifies this`tokens, this`locks
      ensures locks == old(locks) + [Locks.TokenRow(id)]
      ensures ok <==> id in old(tokens) && IsValidTokenTransition(old(tokens)[id].status, status)
      ensures tokens == if ok then old(tokens)[id := WithStatus(old(tokens)[id], status)] else old(tokens)
    {
      locks := locks + [Locks.TokenRow(id)];
      if id !in tokens || !IsValidTokenTransition(tokens[id].status, status) {
        return false;
      }
      tokens := tokens[id := WithStatus(tokens[id], status)];
      return true;
    }

    static function WithStatus(tok: Token, status: TokenStatus): Token
    {
      tok.(status := status,
           consumed := tok.consumed || status == Consumed, released := tok.released || status == Invalidated)
    }

    /** The expired tokens that are neither consumed nor released, each once, in some order. */
    method GetExpiredTokens(now: int) returns (ids: seq<string>)
      ensures forall i, j :: 0 <= i < j < |ids| ==> ids[i] != ids[j]
      ensures forall t :: t in ids <==>
                t in tokens && tokens[t].expiry < now && !tokens[t].consumed && !tokens[t].released
    {
      ids := [];
      var rest := tokens.Keys;
      while rest != {}
        invariant rest <= tokens.Keys
        invariant forall i, j :: 0 <= i < j < |ids| ==> ids[i] != ids[j]
        invariant forall t :: t in ids <==>
                    t in tokens.Keys - rest && tokens[t].expiry < now && !tokens[t].consumed && !tokens[t].released
        decreases |rest|
      {
        var t :| t in rest;
        rest := rest - {t};
        if tokens[t].expiry < now && !tokens[t].consumed && !tokens[t].released {
          ids := ids + [t];
        }
      }
    }

    // ---- Intents and nonces ----

    /** The row must be new, and its token must exist. */
    method CreatePaymentIntent(txn: string, intent: Intent) returns (ok: bool)
      modifies this`intents
      ensures ok <==> txn !in old(intents) && intent.token in tokens
      ensures intents == if ok then old(intents)[txn := intent] else old(intents)
    {
      ok := txn !in intents && intent.token in tokens;
      if ok {
        intents := intents[txn := intent];
      }
    }

    method GetIntentStatusForUpdate(txn: string) returns (r: Option<IntentStatus>)
      modifies this`locks
      ensures r == if txn in intents then Some(intents[txn].status) else None
      ensures locks == old(locks) + [Locks.IntentRow(txn)]
    {
      locks := locks + [Locks.IntentRow(txn)];
      if txn in intents {
        return Some(intents[txn].status);
      }
      return None;
    }

    /** No transition table is consulted; a missing row is no error. */
    method UpdatePaymentIntentStatus(txn: string, status: IntentStatus)
      modifies this`intents, this`locks
      ensures locks == old(locks) + [Locks.IntentRow(txn)]
      ensures intents == if txn in old(intents) then old(intents)[txn := old(intents)[txn].(status := status)]
              else old(intents)
    {
      locks := locks + [Locks.IntentRow(txn)];
      if txn in intents {
        intents := intents[txn := intents[txn].(status := status)];
      }
    }

    method RegisterNonce(nonce: string, txn: string) returns (ok: bool)
      modifies this`nonces
      ensures ok <==> nonce !in old(nonces) && txn in intents
      ensures nonces == if ok then old(nonces)[nonce := txn] else old(nonces)
    {
      ok := nonce !in nonces && txn in intents;
      if ok {
        nonces := nonces[nonce := txn];
      }
    }

    method CreateOutboxEvent(notice: Notice)
      modifies this`outbox
      ensures outbox == old(outbox) + [notice]
    {
      outbox := outbox + [notice];
    }

    /** The event must be about an intent that exists. */
    method CreatePaymentEvent(notice: Notice) returns (ok: bool)
      modifies this`events
      ensures ok <==> notice.txn in intents
      ensures events == if ok then old(events) + [notice] else old(events)
    {
      ok := notice.txn in intents;
      if ok {
        events := events + [notice];
      }
    }

    /** `DELETE FROM nonce_registry`. */
    method DeleteNonce(nonce: string)
      modifies this`nonces, this`locks
      ensures nonces == old(nonces) - {nonce} && locks == old(locks) + [Locks.NonceRow(nonce)]
    {
      locks := locks + [Locks.NonceRow(nonce)];
      nonces := nonces - {nonce};
    }

    /** `DELETE FROM payment_intents`: refused while a nonce or a ledger entry references the row. */
    method DeletePaymentIntent(txn: string) returns (ok: bool)
      modifies this`intents, this`locks
      ensures locks == old(locks) + [Locks.IntentRow(txn)]
      ensures ok <==> !NonceRefers(nonces, txn) && !EntryRefers(ledger, txn)
      ensures intents == if ok then old(intents) - {txn} else old(intents)
    {
      locks := locks + [Locks.IntentRow(txn)];
      ok := !NonceRefers(nonces, txn) && !EntryRefers(ledger, txn);
      if ok {
        intents := intents - {txn};
      }
    }

    /** `DELETE FROM ledger_entries` in the undo of LEDGER_COMMIT. */
    method DeleteSettlementEntries(p: Payload)
      modifies this`ledger
      ensures ledger == WithoutSettlement(old(ledger), p)
    {
      var kept := [];
      for i := 0 to |ledger|
        invariant kept == WithoutSettlement(ledger[..i], p)
      {
        assert ledger[..i + 1][..i] == ledger[..i];
        if ledger[i].txn != p.txn && (ledger[i].txn != ReservationKey(p.token) || ledger[i].kind != Release) {
          kept := kept + [ledger[i]];
        }
      }
      assert ledger[..|ledger|] == ledger;
      ledger := kept;
    }

    // ---- Audits ----

    /** The ledger check groups by transaction and keeps the groups that do not balance. */
    method CheckLedgerInconsistencies() returns (imbalances: map<string, int>)
      ensures imbalances == Imbalances(ledger)
    {
      var sums: map<string, int> := map[];
      for i := 0 to |ledger|
        invariant sums == Tally(ledger[..i])
      {
        var e := ledger[i];
        assert ledger[..i + 1] == ledger[..i] + [e];
        sums := sums[e.txn := (if e.txn in sums then sums[e.txn] else 0) + Signed64(e)];
      }
      assert ledger[..|ledger|] == ledger;
      imbalances := map x | x in sums && sums[x] != 0 :: sums[x];
      TallyFindsImbalances(ledger);
    }

    method SumLiveTokens(owner: string) returns (sum: int)
      ensures sum == ExpectedReserved(Contents(), owner)
    {
      hide Sum;
      SumEmpty();
      sum := 0;
      var rest := tokens.Keys;
      ghost var live := LiveTokens(tokens, owner);
      ghost var done: map<string, int> := map[];
      while rest != {}
        invariant rest <= tokens.Keys && done == live - rest
        invariant sum == Sum(done)
        decreases |rest|
      {
        var t :| t in rest;
        rest := rest - {t};
        SumUpdate(done, t, live[t]);
        done := done[t := live[t]];
        if tokens[t].owner == owner && tokens[t].status in {Issued, Held} {
          sum := sum + tokens[t].value;
        }
      }
      assert done == live;
    }

    /** The balance audit lists each account whose balances differ from the books, once, with the difference. */
    method AuditAccountBalances() returns (found: seq<Discrepancy>)
      ensures forall d :: d in found ==> Reports(Contents(), d) && Mismatch(Contents(), d.account)
      ensures forall a :: a in accounts && Mismatch(Contents(), a) ==> exists d :: d in found && d.account == a
      ensures forall i, j :: 0 <= i < j < |found| ==> found[i].account != found[j].account
    {
      hide Sum;
      found := [];
      var rest := accounts.Keys;
      while rest != {}
        invariant rest <= accounts.Keys
        invariant forall d :: d in found ==>
                    d.account !in rest && Reports(Contents(), d) && Mismatch(Contents(), d.account)
        invariant forall a :: a in accounts && a !in rest && Mismatch(Contents(), a) ==>
                    exists d :: d in found && d.account == a
        invariant forall i, j :: 0 <= i < j < |found| ==> found[i].account != found[j].account
        decreases |rest|
      {
        var a :| a in rest;
        var last := LastEntry(ledger, a);
        var available := if last.Some? then last.value.balanceAfter else accounts[a].available;
        var reserved := SumLiveTokens(a);
        rest := rest - {a};
        if available != accounts[a].available || reserved != accounts[a].reserved {
          var b := accounts[a];
          var d := Discrepancy(a, available, b.available, reserved, b.reserved,
                               Wrap64(b.available + b.reserved - (available + reserved)));
          found := AddDiscrepancy(found, d);
        }
      }
    }

    static method AddDiscrepancy(found: seq<Discrepancy>, d: Discrepancy) returns (more: seq<Discrepancy>)
      ensures more == found + [d]
      ensures forall e :: e in more <==> e in found || e == d
    {
      more := found + [d];
    }
  }
}
