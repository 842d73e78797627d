/** What a replayed payment looks like: each column comes from the last event that carries it. */
module Aggregates {
  import opened Basics
  import opened EventSource

  /** The last event of its kind. */
  function Last(events: seq<Event>, carries: Event -> bool): (e: Option<Event>)
    ensures e.Some? ==> carries(e.value)
  {
    if |events| == 0 then None
    else if carries(events[|events| - 1]) then Some(events[|events| - 1])
    else Last(events[..|events| - 1], carries)
  }

  predicate Creates(e: Event) { e.kind == IntentCreated }
  predicate NamesPhase(e: Event) { e.kind != OtherKind }
  predicate CarriesHops(e: Event) { e.kind == IntentRelayed && e.data.Note? && e.data.hops.Some? }
  predicate Ends(e: Event) { e.kind == IntentRejected || e.kind == IntentFailed }
  predicate CarriesReason(e: Event) { Ends(e) && e.data.Note? && e.data.reason.Some? }
  predicate Settles(e: Event) { e.kind == IntentSettled }
  predicate Any(e: Event) { true }

  /** The phase that an event is named after. */
  function PhaseNamed(kind: Kind): Phase
  {
    match kind
    case IntentCreated => Created
    case IntentSigned => Signed
    case IntentEncrypted => Encrypted
    case IntentRelayed => Relayed
    case IntentValidated => Validated
    case IntentReserved => Reserved
    case IntentSettled => Settled
    case IntentRejected => Rejected
    case IntentFailed => Failed
    case OtherKind => NoPhase
  }

  /** The payment's identity is what the last created event says; an object without the fields says nothing. */
  predicate IdentityFrom(start: Aggregate, a: Aggregate, created: Option<Event>)
  {
    match created
    case None =>
      && a.txn == start.txn && a.sender == start.sender && a.receiver == start.receiver
      && a.amount == start.amount && a.nonce == start.nonce && a.token == start.token && a.createdAt == start.createdAt
    case Some(e) =>
      && a.createdAt == e.at
      && (e.data.Fields? ==>
            && a.txn == e.data.txn && a.sender == e.data.sender && a.receiver == e.data.receiver
            && a.amount == e.data.amount && a.nonce == e.data.nonce && a.token == e.data.token)
      && (e.data.Note? ==>
            a.txn == "" && a.sender == "" && a.receiver == "" && a.amount == 0 && a.nonce == "" && a.token == "")
  }

  /** Everything else is what the last event that carries it says. */
  predicate StateFrom(start: Aggregate, a: Aggregate, events: seq<Event>)
  {
    var named, hops, reason := Last(events, NamesPhase), Last(events, CarriesHops), Last(events, CarriesReason);
    var settled, ended, any := Last(events, Settles), Last(events, Ends), Last(events, Any);
    && a.phase == (if named.Some? then PhaseNamed(named.value.kind) else start.phase)
    && a.hops == (if hops.Some? then hops.value.data.hops.value else start.hops)
    && a.reason == (if reason.Some? then reason.value.data.reason else start.reason)
    && a.settledAt == (if settled.Some? then Some(settled.value.at) else start.settledAt)
    && a.rejectedAt == (if ended.Some? then Some(ended.value.at) else start.rejectedAt)
    && a.updatedAt == (if any.Some? then any.value.at else start.updatedAt)
  }

  predicate Shows(start: Aggregate, a: Aggregate, events: seq<Event>)
  {
    IdentityFrom(start, a, Last(events, Creates)) && StateFrom(start, a, events)
  }

  /** A created event whose payload does not decode. */
  predicate Undecodable(e: Event)
  {
    e.kind == IntentCreated && e.data.Malformed?
  }

  lemma LastStep(events: seq<Event>, carries: Event -> bool)
    requires |events| > 0
    ensures var e := events[|events| - 1];
            Last(events, carries) == if carries(e) then Some(e) else Last(events[..|events| - 1], carries)
  {
  }

  lemma IdentityStep(start: Aggregate, a: Aggregate, created: Option<Event>, e: Event)
    requires IdentityFrom(start, a, created)
    ensures var r := ApplyEvent(a, e);
            && (r.None? <==> Undecodable(e))
            && (r.Some? ==> IdentityFrom(start, r.value, if Creates(e) then Some(e) else created))
  {
  }

  lemma StateStep(start: Aggregate, a: Aggregate, events: seq<Event>)
    requires |events| > 0 && StateFrom(start, a, events[..|events| - 1])
    ensures var r := ApplyEvent(a, events[|events| - 1]); r.Some? ==> StateFrom(start, r.value, events)
  {
    hide Last;
    LastStep(events, NamesPhase);
    LastStep(events, CarriesHops);
    LastStep(events, CarriesReason);
    LastStep(events, Settles);
    LastStep(events, Ends);
    LastStep(events, Any);
  }

  lemma ShowsStep(start: Aggregate, a: Aggregate, events: seq<Event>)
    requires |events| > 0 && Shows(start, a, events[..|events| - 1])
    ensures var r := ApplyEvent(a, events[|events| - 1]);
            if Undecodable(events[|events| - 1]) then r == None else r.Some? && Shows(start, r.value, events)
  {
    hide Last, StateFrom, IdentityFrom, ApplyEvent;
    LastStep(events, Creates);
    IdentityStep(start, a, Last(events[..|events| - 1], Creates), events[|events| - 1]);
    StateStep(start, a, events);
  }

  /**
   * Folding a stream fails if and only if a created event does not decode, and otherwise gives the
   * payment that the stream describes, column by column.
   */
  lemma {:induction false} FoldShows(start: Aggregate, events: seq<Event>)
    ensures Fold(start, events).None? <==> exists i :: 0 <= i < |events| && Undecodable(events[i])
    ensures Fold(start, events).Some? ==> Shows(start, Fold(start, events).value, events)
  {
    hide Shows, ApplyEvent;
    if |events| == 0 {
      ShowsNothing(start);
      assert events == [];
    } else {
      var front := events[..|events| - 1];
      FoldShows(start, front);
      if Fold(start, front).Some? {
        ShowsStep(start, Fold(start, front).value, events);
      } else {
        var i :| 0 <= i < |front| && Undecodable(front[i]);
        assert Undecodable(events[i]);
      }
    }
  }

  lemma ShowsNothing(start: Aggregate)
    ensures Shows(start, start, [])
  {
  }
}
