/** The invariants of the settlement machine. */
module Invariants {
  import opened Basics
  import opened Sums
  import opened Tables
  import opened Transactions
  import opened Machine

  predicate AccountsOk(accounts: map<string, Balance>)
  {
    forall a :: a in accounts ==> accounts[a].available >= 0 && accounts[a].reserved >= 0
  }

  /** Each token row is consistent, its owner exists, and its placeholder intent is kept. */
  predicate TokensOk(db: Db)
  {
    forall t :: t in db.tokens ==>
      && db.tokens[t].value > 0
      && db.tokens[t].owner in db.accounts
      && ReservationKey(t) in db.intents
      && (db.tokens[t].consumed <==> db.tokens[t].status == Consumed)
      && (db.tokens[t].released <==> db.tokens[t].status == Invalidated)
  }

  predicate HistoryOk(s: State)
  {
    && s.minted.Keys == s.db.accounts.Keys
    && (forall t :: t in s.frozen ==> t in s.db.tokens && s.db.tokens[t].status == Invalidated)
    && (forall t :: t in s.selfPaid ==>
          t in s.db.tokens && s.db.tokens[t].status == Consumed && s.selfPaid[t] > 0)
  }

  /** What a saga knows of its token, and which rows it owns. */
  predicate SagaOk(db: Db, sg: Saga)
  {
    && sg.p.token in db.tokens
    && db.tokens[sg.p.token].owner == sg.p.sender
    && db.tokens[sg.p.token].value == sg.value
    && sg.p.amount <= sg.value
    && Standing(sg) <= STEPS
    && (Standing(sg) >= 1 ==> OwnsRows(db, sg.p))
    && (Standing(sg) == 2 ==> db.tokens[sg.p.token].status in {Held, Invalidated})
    && (Standing(sg) >= 3 ==> db.tokens[sg.p.token].status == Consumed && sg.p.amount > 0)
    && (sg.pc.Undoing? ==> 1 <= Standing(sg) <= 3)
  }

  /** The rows inserted by RESERVE are there, and the intent is no token's placeholder. */
  predicate OwnsRows(db: Db, p: Payload)
  {
    && p.sender in db.accounts
    && p.receiver in db.accounts
    && p.txn in db.intents
    && p.nonce in db.nonces
    && db.nonces[p.nonce] == p.txn
    && (forall t :: t in db.tokens ==> ReservationKey(t) != p.txn)
  }

  predicate SagasOk(s: State)
  {
    forall i :: i in s.sagas ==> SagaOk(s.db, s.sagas[i])
  }

  /** No two sagas own the same intent or nonce, and no two have got hold of the same token. */
  predicate Exclusive(sagas: map<nat, Saga>)
  {
    forall i, j :: i in sagas && j in sagas && i != j ==> Apart(sagas[i], sagas[j])
  }

  predicate Apart(a: Saga, b: Saga)
  {
    && (Standing(a) >= 1 && Standing(b) >= 1 ==> a.p.txn != b.p.txn && a.p.nonce != b.p.nonce)
    && (Standing(a) >= 2 && Standing(b) >= 2 ==> a.p.token != b.p.token)
  }

  // ---- The ledger ----

  /** A token whose funds are still reserved as far as the ledger can tell. */
  predicate Open(s: State, t: string)
    requires t in s.db.tokens
  {
    s.db.tokens[t].status == Issued || s.db.tokens[t].status == Held || t in s.frozen
  }

  predicate IsReservation(e: Entry, tok: Token)
  {
    e.account == tok.owner && e.direction == Debit && e.amount == tok.value && e.kind == Reservation
  }

  predicate IsRelease(e: Entry, tok: Token)
  {
    e.account == tok.owner && e.direction == Credit && e.amount == tok.value && e.kind == Release
  }

  /** One reservation, and one release once the token is resolved. */
  predicate TokenGroup(g: seq<Entry>, tok: Token, open: bool)
  {
    && |g| == (if open then 1 else 2)
    && IsReservation(g[0], tok)
    && (!open ==> IsRelease(g[1], tok))
  }

  /** One debit of the sender and one credit of the receiver, of the same amount. */
  predicate SettlementGroup(g: seq<Entry>, p: Payload)
  {
    && |g| == 2
    && g[0].account == p.sender && g[0].direction == Debit && g[0].amount == p.amount && g[0].kind == Settlement
    && g[1].account == p.receiver && g[1].direction == Credit && g[1].amount == p.amount && g[1].kind == Settlement
  }

  predicate TokenGroupsOk(s: State)
  {
    forall t :: t in s.db.tokens ==>
      TokenGroup(Group(s.db.ledger, ReservationKey(t)), s.db.tokens[t], Open(s, t))
  }

  predicate SettlementGroupsOk(s: State)
  {
    forall i :: i in s.sagas && Committed(s.sagas[i]) ==>
      SettlementGroup(Group(s.db.ledger, s.sagas[i].p.txn), s.sagas[i].p)
  }

  /** The ledger transaction belongs to a token or to a committed settlement. */
  predicate Accounted(s: State, txn: string)
  {
    || (exists t :: t in s.db.tokens && ReservationKey(t) == txn)
    || (exists i :: i in s.sagas && Committed(s.sagas[i]) && s.sagas[i].p.txn == txn)
  }

  /** The ledger transaction is the reservation key of a token that is no longer open. */
  predicate Resolved(s: State, txn: string)
  {
    |txn| >= 8 && txn[8..] in s.db.tokens && !Open(s, txn[8..])
  }

  predicate EntryOk(s: State, e: Entry)
  {
    e.account in s.db.accounts && Accounted(s, e.txn) && (e.kind == Release ==> Resolved(s, e.txn))
  }

  predicate EntriesOk(s: State)
  {
    forall e :: e in s.db.ledger ==> EntryOk(s, e)
  }

  // ---- Money ----

  /** The part of the reserved balance of account `a` that token `t` accounts for. */
  function Lock(a: string, tok: Token, frozen: bool, selfPaid: bool): int
  {
    if tok.owner == a && (tok.status == Issued || tok.status == Held || frozen || selfPaid) then tok.value else 0
  }

  function Locks(s: State, a: string): map<string, int>
  {
    map t | t in s.db.tokens :: Lock(a, s.db.tokens[t], t in s.frozen, t in s.selfPaid)
  }

  /** Reserved money is exactly the value of the tokens that lock it. */
  ghost predicate Covered(s: State)
  {
    forall a :: a in s.db.accounts ==> s.db.accounts[a].reserved == Sum(Locks(s, a))
  }

  function Worth(accounts: map<string, Balance>): map<string, int>
  {
    map a | a in accounts :: accounts[a].available + accounts[a].reserved
  }

  /** All money is opening money, plus what self-payments created. */
  ghost predicate Conserved(s: State)
  {
    Sum(Worth(s.db.accounts)) == Sum(s.minted) + Sum(s.selfPaid)
  }

  /** How far a self-payment leaves the available balance from its last ledger entry. */
  function Drift(e: Entry, selfPaid: map<string, int>): int
  {
    if e.kind == Release && |e.txn| >= 8 && e.txn[8..] in selfPaid then 2 * selfPaid[e.txn[8..]] - e.amount else 0
  }

  predicate Parity(s: State)
  {
    forall a :: a in s.db.accounts ==> ParityAt(s, a)
  }

  predicate ParityAt(s: State, a: string)
    requires a in s.db.accounts
  {
    var last := LastEntry(s.db.ledger, a);
    last.Some? ==> s.db.accounts[a].available == last.value.balanceAfter + Drift(last.value, s.selfPaid)
  }

  /** The invariants about who owns what. */
  predicate Rows(s: State)
  {
    && AccountsOk(s.db.accounts)
    && TokensOk(s.db)
    && HistoryOk(s)
    && SagasOk(s)
    && Exclusive(s.sagas)
  }

  /** The self-payments on record are the committed settlements whose sender is the receiver. */
  predicate SelfPaidOk(s: State)
  {
    && (forall i :: i in s.sagas && Committed(s.sagas[i]) && s.sagas[i].p.sender == s.sagas[i].p.receiver ==>
          s.sagas[i].p.token in s.selfPaid)
    && (forall t :: t in s.selfPaid ==> exists i :: i in s.sagas && IsSelfPayment(s.sagas[i], t, s.selfPaid[t]))
  }

  predicate IsSelfPayment(sg: Saga, token: string, amount: int)
  {
    Committed(sg) && sg.p.sender == sg.p.receiver && sg.p.token == token && sg.p.amount == amount
  }

  /** The invariants about the ledger. */
  predicate Books(s: State)
  {
    TokenGroupsOk(s) && SettlementGroupsOk(s) && EntriesOk(s) && SelfPaidOk(s)
  }

  /** The invariants about money. */
  ghost predicate Money(s: State)
  {
    Covered(s) && Conserved(s) && Parity(s)
  }

  ghost predicate Inv(s: State)
  {
    Rows(s) && Books(s) && Money(s)
  }
}
