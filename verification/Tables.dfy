/** The database rows that settlement touches, and the readings the audits take of them. */
module Tables {
  import opened Basics

  datatype TokenStatus = Issued | Held | Consumed | Invalidated

  datatype Token = Token(owner: string, value: int64, expiry: int,
                         consumed: bool, released: bool, status: TokenStatus)

  datatype IntentStatus =
    | Created | Signed | Encrypted | Broadcast | Relayed | Validated | Reserved
    | Settled | Rejected | Failed | Expired | Duplicate | Reconciled

  datatype Intent = Intent(sender: string, receiver: string, amount: int64,
                           nonce: string, token: string, status: IntentStatus)

  datatype Balance = Balance(available: int64, reserved: int64)

  datatype Direction = Debit | Credit
  datatype EntryType = Settlement | Reservation | Release

  datatype Entry = Entry(txn: string, account: string, direction: Direction,
                         amount: int64, kind: EntryType, balanceAfter: int64)

  /** `nonces` maps a nonce to the transaction that registered it; `ledger` is in `entry_id` order. */
  datatype Db = Db(accounts: map<string, Balance>,
                   tokens: map<string, Token>,
                   intents: map<string, Intent>,
                   nonces: map<string, string>,
                   ledger: seq<Entry>)

  /** The signed payload of a payment. */
  datatype Payload = Payload(txn: string, sender: string, receiver: string,
                             amount: int64, nonce: string, token: string)

  /** What settlement says about a payment, in the outbox and in the event store. */
  datatype Notice =
    | SettledNotice(txn: string, sender: string, receiver: string, amount: int64, hops: int)
    | FailedNotice(txn: string, status: IntentStatus, hops: int)

  const RESERVATION_PREFIX: string := "tok-res-"

  /** The ledger transaction under which the funds of a token are reserved and released. */
  function ReservationKey(token: string): (key: string)
    ensures |key| >= 8 && key[8..] == token
  {
    RESERVATION_PREFIX + token
  }

  /** The token finite state machine; every state may "move" to itself. */
  predicate IsValidTokenTransition(from: TokenStatus, to: TokenStatus)
  {
    from == to ||
    match from
    case Issued => to == Held || to == Invalidated
    case Held => to == Consumed || to == Invalidated
    case Consumed => false
    case Invalidated => false
  }

  // ---- Ledger readings ----

  /** The entries of one ledger transaction, in order. */
  function Group(ledger: seq<Entry>, txn: string): seq<Entry>
  {
    if |ledger| == 0 then []
    else
      var last := ledger[|ledger| - 1];
      Group(ledger[..|ledger| - 1], txn) + (if last.txn == txn then [last] else [])
  }

  function Signed64(e: Entry): int
  {
    if e.direction == Debit then e.amount else -(e.amount as int)
  }

  /** Debits minus credits of a list of entries. */
  function Net(entries: seq<Entry>): int
  {
    if |entries| == 0 then 0 else Net(entries[..|entries| - 1]) + Signed64(entries[|entries| - 1])
  }

  /** The newest entry of an account. */
  function LastEntry(ledger: seq<Entry>, account: string): Option<Entry>
  {
    if |ledger| == 0 then None
    else if ledger[|ledger| - 1].account == account then Some(ledger[|ledger| - 1])
    else LastEntry(ledger[..|ledger| - 1], account)
  }

  function TxnIds(ledger: seq<Entry>): set<string>
  {
    set e | e in ledger :: e.txn
  }

  /** `CheckLedgerInconsistencies`: the ledger transactions whose debits and credits differ. */
  function Imbalances(ledger: seq<Entry>): map<string, int>
  {
    map txn | txn in TxnIds(ledger) && Net(Group(ledger, txn)) != 0 :: Net(Group(ledger, txn))
  }

  lemma GroupAppend(ledger: seq<Entry>, e: Entry, txn: string)
    ensures Group(ledger + [e], txn) == Group(ledger, txn) + (if e.txn == txn then [e] else [])
  {
  }

  lemma LastEntryAppend(ledger: seq<Entry>, e: Entry, account: string)
    ensures LastEntry(ledger + [e], account) == if e.account == account then Some(e) else LastEntry(ledger, account)
  {
  }

  lemma NetAppend(ledger: seq<Entry>, e: Entry, txn: string)
    ensures Net(Group(ledger + [e], txn)) == Net(Group(ledger, txn)) + (if e.txn == txn then Signed64(e) else 0)
  {
    GroupAppend(ledger, e, txn);
    var g := Group(ledger, txn);
    assert (g + [e])[..|g|] == g && g + [] == g;
  }

  /** A group is empty exactly when no entry carries its transaction. */
  lemma {:induction false} GroupEmpty(ledger: seq<Entry>, txn: string)
    ensures Group(ledger, txn) == [] <==> forall e :: e in ledger ==> e.txn != txn
  {
    if |ledger| != 0 {
      var front := ledger[..|ledger| - 1];
      GroupEmpty(front, txn);
      assert ledger == front + [ledger[|ledger| - 1]];
    }
  }

  /** The newest entry of an account is an entry of that account. */
  lemma {:induction false} LastEntryIsEntry(ledger: seq<Entry>, account: string)
    ensures LastEntry(ledger, account).Some? ==>
              LastEntry(ledger, account).value in ledger && LastEntry(ledger, account).value.account == account
    ensures LastEntry(ledger, account).None? ==> forall e :: e in ledger ==> e.account != account
  {
    if |ledger| != 0 {
      var front := ledger[..|ledger| - 1];
      LastEntryIsEntry(front, account);
      assert ledger == front + [ledger[|ledger| - 1]];
    }
  }

  lemma NetOfOne(e: Entry)
    ensures Net([e]) == Signed64(e)
  {
  }

  lemma NetOfTwo(d: Entry, e: Entry)
    ensures Net([d, e]) == Signed64(d) + Signed64(e)
  {
    assert [d, e][..1] == [d];
    NetOfOne(d);
  }
}
