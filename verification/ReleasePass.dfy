/** A pass of `ReleaseExpiredTokens` without failures. */
module ReleasePass {
  import opened Basics
  import opened Sums
  import opened Tables
  import opened Transactions
  import opened Machine
  import opened Invariants
  import opened Effects
  import opened StepProof
  import opened Guarantees
  import opened Services

  predicate Distinct(ids: seq<string>)
  {
    forall i, j :: 0 <= i < j < |ids| ==> ids[i] != ids[j]
  }

  /** The value of the listed tokens that belong to `a`. */
  function Owed(tokens: map<string, Token>, ids: seq<string>, a: string): int
  {
    if |ids| == 0 then 0
    else
      var t := ids[|ids| - 1];
      Owed(tokens, ids[..|ids| - 1], a) + if t in tokens && tokens[t].owner == a then tokens[t].value else 0
  }

  predicate BalancesReleased(db: Db, db': Db, ids: seq<string>)
  {
    && db'.accounts.Keys == db.accounts.Keys
    && forall a :: a in db.accounts ==>
         && db'.accounts[a].available == db.accounts[a].available + Owed(db.tokens, ids, a)
         && db'.accounts[a].reserved == db.accounts[a].reserved - Owed(db.tokens, ids, a)
  }

  predicate TokensReleased(db: Db, db': Db, ids: seq<string>)
  {
    && db'.tokens.Keys == db.tokens.Keys
    && forall t :: t in db.tokens ==>
         if t in ids then db'.tokens[t] == db.tokens[t].(released := true, status := Invalidated)
         else db'.tokens[t] == db.tokens[t]
  }

  /** The state after a pass over `ids`: only the tables have changed, and the invariants hold. */
  ghost predicate Passed(s: State, s': State, ids: seq<string>)
  {
    && Inv(s') && s' == s.(db := s'.db)
    && BalancesReleased(s.db, s'.db, ids) && TokensReleased(s.db, s'.db, ids)
  }

  lemma OneMore(db: Db, before: Db, after: Db, ids: seq<string>)
    requires |ids| > 0 && Distinct(ids) && forall t :: t in ids ==> Unresolved(db, t)
    requires BalancesReleased(db, before, ids[..|ids| - 1]) && TokensReleased(db, before, ids[..|ids| - 1])
    requires Releases(before, after, ids[|ids| - 1])
    ensures BalancesReleased(db, after, ids) && TokensReleased(db, after, ids)
  {
  }

  lemma ReleaseKeepsGoing(s: State, id: string)
    requires Inv(s) && Unresolved(s.db, id) && Sum(s.minted) + Sum(s.selfPaid) <= MAX_INT64
    ensures ReleaseTx(s.db, id).Some? && Releases(s.db, ReleaseTx(s.db, id).value, id)
    ensures Inv(s.(db := ReleaseTx(s.db, id).value))
  {
    hide AccountsOk, TokensOk, HistoryOk, SagasOk, Exclusive, Books, Parity, Covered, Releases, ReleaseTx, Sum;
    ReleaseFits(s, id);
    InvStep(s, ReleaseToken(id));
  }

  /**
   * A pass over distinct unresolved tokens releases every one of them, once: each owner gets
   * back exactly what their tokens had reserved, nothing else moves, and the count is right.
   */
  lemma {:induction false} PassReleasesAll(s: State, ids: seq<string>) returns (s': State)
    requires Inv(s) && Distinct(ids) && forall t :: t in ids ==> Unresolved(s.db, t)
    requires Sum(s.minted) + Sum(s.selfPaid) <= MAX_INT64
    ensures s'.db == ReleaseAll(s.db, ids, {}) && Passed(s, s', ids)
    ensures CountReleased(s.db, ids, {}) == |ids|
    decreases |ids|
  {
    hide Inv, Sum, ReleaseTx;
    if |ids| == 0 {
      s' := s;
    } else {
      var front, id := ids[..|ids| - 1], ids[|ids| - 1];
      var m := PassReleasesAll(s, front);
      assert id !in front && id in ids;
      ReleaseKeepsGoing(m, id);
      s' := m.(db := ReleaseTx(m.db, id).value);
      OneMore(s.db, m.db, s'.db, ids);
    }
  }

  /** In every reachable state, a pass over the expired tokens leaves none of them ISSUED or HELD. */
  lemma ExpiredTokensAreReleased(steps: seq<Step>, now: int, scanned: seq<string>)
    requires Distinct(scanned)
    requires forall t :: t in scanned <==> ExpiredIn(Run(INIT, steps).db, t, now)
    requires Sum(Worth(Run(INIT, steps).db.accounts)) <= MAX_INT64
    ensures var db, db' := Run(INIT, steps).db, ReleaseAll(Run(INIT, steps).db, scanned, {});
            && BalancesReleased(db, db', scanned) && TokensReleased(db, db', scanned)
            && (forall t :: t in db'.tokens && db'.tokens[t].expiry < now ==>
                  db'.tokens[t].status in {Consumed, Invalidated})
            && CountReleased(db, scanned, {}) == |scanned|
  {
    hide Sum, Run, Worth, AccountsOk, TokensOk, HistoryOk, SagasOk, Exclusive, Books, Parity, Covered;
    hide BalancesReleased, TokensReleased, Owed, ReleaseAll, CountReleased;
    var s := Run(INIT, steps);
    Reachable(steps);
    var s' := PassReleasesAll(s, scanned);
    NoneLeft(s.db, s'.db, now, scanned);
  }

  lemma NoneLeft(db: Db, db': Db, now: int, scanned: seq<string>)
    requires TokensOk(db) && TokensReleased(db, db', scanned)
    requires forall t :: t in scanned <==> ExpiredIn(db, t, now)
    ensures forall t :: t in db'.tokens && db'.tokens[t].expiry < now ==>
              db'.tokens[t].status in {Consumed, Invalidated}
  {
  }

  // ---- Passes in which transactions may fail ----

  /** The listed tokens that the pass resolved. */
  function Resolved(db: Db, ids: seq<string>, down: set<string>): set<string>
  {
    set t | t in ids && Unresolved(db, t) && !Unresolved(ReleaseAll(db, ids, down), t)
  }

  lemma TokenAfterRelease(db: Db, id: string)
    ensures var r := ReleaseTx(db, id);
            r.Some? ==>
              && r.value.tokens.Keys == db.tokens.Keys && id in db.tokens
              && (forall t :: t in db.tokens && t != id ==> r.value.tokens[t] == db.tokens[t])
              && r.value.tokens[id] ==
                 if Unresolved(db, id) then db.tokens[id].(released := true, status := Invalidated) else db.tokens[id]
  {
  }

  /** Whatever the list and whatever fails: the pass changes a token only by releasing it, and only a listed one. */
  lemma {:induction false} PassOnlyReleases(db: Db, ids: seq<string>, down: set<string>, t: string)
    ensures var db' := ReleaseAll(db, ids, down);
            && (t in db'.tokens <==> t in db.tokens)
            && (t in db.tokens ==>
                  || db'.tokens[t] == db.tokens[t]
                  || (&& t in ids && t !in down && Unresolved(db, t)
                      && db'.tokens[t] == db.tokens[t].(released := true, status := Invalidated)))
  {
    hide ReleaseTx;
    if |ids| != 0 {
      var front, id := ids[..|ids| - 1], ids[|ids| - 1];
      PassOnlyReleases(db, front, down, t);
      TokenAfterRelease(ReleaseAll(db, front, down), id);
    }
  }

  /** The count is the number of tokens that the pass resolved, repeats and failures included. */
  lemma {:induction false} CountIsExact(db: Db, ids: seq<string>, down: set<string>)
    ensures CountReleased(db, ids, down) == |Resolved(db, ids, down)|
  {
    if |ids| == 0 {
      assert Resolved(db, ids, down) == {};
    } else {
      var front, id := ids[..|ids| - 1], ids[|ids| - 1];
      CountIsExact(db, front, down);
      ResolvedGrows(db, ids, down);
    }
  }

  lemma ResolvedGrows(db: Db, ids: seq<string>, down: set<string>)
    requires |ids| > 0
    ensures var front, id := ids[..|ids| - 1], ids[|ids| - 1];
            var before := ReleaseAll(db, front, down);
            Resolved(db, ids, down) ==
            Resolved(db, front, down) +
            (if id !in down && Unresolved(before, id) && ReleaseTx(before, id).Some? then {id} else {})
    ensures var front, id := ids[..|ids| - 1], ids[|ids| - 1];
            Unresolved(ReleaseAll(db, front, down), id) ==> id !in Resolved(db, front, down)
  {
    hide ReleaseTx;
    var front, id := ids[..|ids| - 1], ids[|ids| - 1];
    var before := ReleaseAll(db, front, down);
    TokenAfterRelease(before, id);
    assert ids == front + [id];
    forall t
      ensures t in Resolved(db, ids, down) <==>
              t in Resolved(db, front, down) ||
              (t == id && id !in down && Unresolved(before, id) && ReleaseTx(before, id).Some?)
    {
      PassOnlyReleases(db, front, down, t);
      PassOnlyReleases(db, ids, down, t);
    }
  }

  /** A pass never touches a token that has not expired. */
  lemma PassSparesUnexpired(db: Db, now: int, scanned: seq<string>, down: set<string>, t: string)
    requires forall x :: x in scanned <==> ExpiredIn(db, x, now)
    requires t in db.tokens && db.tokens[t].expiry >= now
    ensures var db' := ReleaseAll(db, scanned, down); t in db'.tokens && db'.tokens[t] == db.tokens[t]
  {
    PassOnlyReleases(db, scanned, down, t);
  }
}
