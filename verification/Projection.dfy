/** The read projection: the live worker, the rebuild tool, and when the two agree. */
module Projection {
  import opened Basics

  const UNKNOWN: string := "UNKNOWN"
  const SETTLED: string := "SETTLED"

  datatype Row = Row(sender: string, receiver: string, amount: int, status: string, hops: int, settledAt: Option<int>)

  /** The columns that the rebuild tool compares. */
  datatype Columns = Columns(sender: string, receiver: string, amount: int, status: string, hops: int)

  function Compared(row: Row): Columns
  {
    Columns(row.sender, row.receiver, row.amount, row.status, row.hops)
  }

  /** `INSERT ... ON CONFLICT (txn_id) DO UPDATE`: sender, receiver and amount are never updated. */
  function Upsert(rows: map<string, Row>, txn: string, row: Row): map<string, Row>
  {
    if txn in rows then rows[txn := rows[txn].(status := row.status, hops := row.hops, settledAt := row.settledAt)]
    else rows[txn := row]
  }

  // ---- The live worker ----

  /** A message of `payment.settled` or `payment.failed`; `Garbled` is one whose payload does not decode. */
  datatype Message =
    | PaymentSettled(txn: string, sender: string, receiver: string, amount: int, hops: int, settledAt: int)
    | PaymentFailed(txn: string, status: string, hops: int)
    | Garbled

  /** `number` is the event identifier read as an integer, if it is one. */
  datatype Delivery = Delivery(id: string, number: Option<int>, msg: Message)

  datatype Live = Live(rows: map<string, Row>, processed: set<string>, checkpoint: int)

  function Fetch(rows: map<string, Row>, txn: string, absent: Row): Row
  {
    if txn in rows then rows[txn] else absent
  }

  /** The row a handler upserts. */
  function Handled(rows: map<string, Row>, msg: Message): Row
    requires !msg.Garbled?
  {
    match msg
    case PaymentSettled(txn, sender, receiver, amount, hops, settledAt) =>
      Fetch(rows, txn, Row(sender, receiver, amount, "", 0, None)).(status := SETTLED, hops := hops,
          settledAt := Some(settledAt))
    case PaymentFailed(txn, status, hops) =>
      Fetch(rows, txn, Row(UNKNOWN, UNKNOWN, 0, "", 0, None)).(status := status, hops := hops)
  }

  function Handle(s: Live, d: Delivery): Live
  {
    if d.msg.Garbled? || d.id in s.processed then s
    else Live(Upsert(s.rows, d.msg.txn, Handled(s.rows, d.msg)), s.processed + {d.id},
              if d.number.Some? then d.number.value else s.checkpoint)
  }

  function HandleAll(ds: seq<Delivery>): Live
  {
    if |ds| == 0 then Live(map[], {}, 0) else Handle(HandleAll(ds[..|ds| - 1]), ds[|ds| - 1])
  }

  class ProjectionWorker {
    var rows: map<string, Row>
    var processed: set<string>
    var checkpoint: int

    constructor ()
      ensures Contents() == HandleAll([])
    {
      rows, processed, checkpoint := map[], {}, 0;
    }

    function Contents(): Live
      reads this
    {
      Live(rows, processed, checkpoint)
    }

    /** `HandlePaymentSettled` and `HandlePaymentFailed`; an error leaves the message unacknowledged. */
    method HandleDelivery(d: Delivery) returns (ok: bool)
      modifies this
      ensures ok <==> !d.msg.Garbled?
      ensures Contents() == Handle(old(Contents()), d)
    {
      if d.msg.Garbled? {
        return false;
      }
      if d.id in processed {
        return true;
      }
      var txn := d.msg.txn;
      var proj;
      match d.msg {
        case PaymentSettled(_, sender, receiver, amount, hops, settledAt) =>
          proj := if txn in rows then rows[txn] else Row(sender, receiver, amount, "", 0, None);
          proj := proj.(status := SETTLED, hops := hops, settledAt := Some(settledAt));
        case PaymentFailed(_, status, hops) =>
          proj := if txn in rows then rows[txn] else Row(UNKNOWN, UNKNOWN, 0, "", 0, None);
          proj := proj.(status := status, hops := hops);
      }
      rows := Upsert(rows, txn, proj);
      processed := processed + {d.id};
      if d.number.Some? {
        checkpoint := d.number.value;
      }
      return true;
    }
  }

  /** The deliveries that count: decodable, and the first with their identifier. */
  function FirstDeliveries(ds: seq<Delivery>): seq<Delivery>
  {
    if |ds| == 0 then []
    else
      var front, d := FirstDeliveries(ds[..|ds| - 1]), ds[|ds| - 1];
      if d.msg.Garbled? || d.id in Ids(front) then front else front + [d]
  }

  function Ids(ds: seq<Delivery>): set<string>
  {
    set d | d in ds :: d.id
  }

  /** Redeliveries and garbage change nothing: the table is that of the first deliveries only. */
  lemma {:induction false} OnlyFirstDeliveriesCount(ds: seq<Delivery>)
    ensures HandleAll(ds) == HandleAll(FirstDeliveries(ds))
    ensures HandleAll(ds).processed == Ids(FirstDeliveries(ds))
  {
    if |ds| != 0 {
      var front, d := FirstDeliveries(ds[..|ds| - 1]), ds[|ds| - 1];
      OnlyFirstDeliveriesCount(ds[..|ds| - 1]);
      if !d.msg.Garbled? && d.id !in Ids(front) {
        assert (front + [d])[..|front|] == front;
        assert Ids(front + [d]) == Ids(front) + {d.id};
      }
    }
  }

  // ---- The rebuild tool ----

  /** A stored payment event. Events of other types are skipped. */
  datatype Stored =
    | IntentSettled(sender: string, receiver: string, amount: int, hops: int, settledAt: int)
    | IntentFailed(status: string, hops: int)
    | BadPayload
    | OtherType

  datatype Event = Event(id: int, txn: string, what: Stored)

  /** What the tool has in memory when it upserts; identity columns follow the event here. */
  function InMemory(rows: map<string, Row>, ev: Event): Row
  {
    var row := Fetch(rows, ev.txn, Row(UNKNOWN, UNKNOWN, 0, "", 0, None));
    match ev.what
    case IntentSettled(sender, receiver, amount, hops, settledAt) =>
      Row(sender, receiver, amount, SETTLED, hops, Some(settledAt))
    case IntentFailed(status, hops) => row.(status := status, hops := hops)
    case BadPayload => row
    case OtherType => row
  }

  function ReplayOne(rows: map<string, Row>, ev: Event): map<string, Row>
  {
    if ev.what.OtherType? then rows else Upsert(rows, ev.txn, InMemory(rows, ev))
  }

  function ReplayAll(events: seq<Event>): map<string, Row>
  {
    if |events| == 0 then map[] else ReplayOne(ReplayAll(events[..|events| - 1]), events[|events| - 1])
  }

  /** The identifier of the last event that was not skipped. */
  function Checkpoint(events: seq<Event>): int
  {
    if |events| == 0 then 0
    else if events[|events| - 1].what.OtherType? then Checkpoint(events[..|events| - 1])
    else events[|events| - 1].id
  }

  function MaxId(events: seq<Event>): int
  {
    if |events| == 0 then 0
    else
      var m, id := MaxId(events[..|events| - 1]), events[|events| - 1].id;
      if id > m then id else m
  }

  /** The tool's verification of the rebuilt table against the table it found. */
  predicate Verified(cached: map<string, Row>, rebuilt: map<string, Row>)
  {
    && (|cached| == 0 || |cached| == |rebuilt|)
    && forall txn :: txn in cached ==> txn in rebuilt && Compared(cached[txn]) == Compared(rebuilt[txn])
  }

  /** The whole tool; `ok` is the exit status. */
  method Rebuild(cached: map<string, Row>, events: seq<Event>)
    returns (rows: map<string, Row>, checkpoint: int, ok: bool)
    ensures rows == ReplayAll(events) && checkpoint == Checkpoint(events)
    ensures ok <==> Verified(cached, rows) && checkpoint == MaxId(events)
  {
    rows, checkpoint := map[], 0;
    var maxEventID := 0;
    for i := 0 to |events|
      invariant rows == ReplayAll(events[..i]) && checkpoint == Checkpoint(events[..i])
                && maxEventID == MaxId(events[..i])
    {
      assert events[..i + 1][..i] == events[..i];
      var ev := events[i];
      if ev.id > maxEventID {
        maxEventID := ev.id;
      }
      if !ev.what.OtherType? {
        rows := Upsert(rows, ev.txn, InMemory(rows, ev));
        checkpoint := ev.id;
      }
    }
    assert events[..|events|] == events;
    ok := |cached| == 0 || |cached| == |rows|;
    var rest := cached.Keys;
    while rest != {}
      invariant rest <= cached.Keys
      invariant ok <==> (|cached| == 0 || |cached| == |rows|) &&
                        forall txn :: txn in cached && txn !in rest
                            ==> txn in rows && Compared(cached[txn]) == Compared(rows[txn])
      decreases |rest|
    {
      var txn :| txn in rest;
      rest := rest - {txn};
      ok := ok && txn in rows && Compared(cached[txn]) == Compared(rows[txn]);
    }
    ok := ok && checkpoint == maxEventID;
  }

  // ---- What both of them compute ----

  /** What a delivery and a stored event have in common; `Blank` is a stored event that does not decode. */
  datatype Fact =
    | Paid(sender: string, receiver: string, amount: int, hops: int)
    | Lost(status: string, hops: int)
    | Blank

  /** The row a fact makes of a payment it is the first to mention. */
  function FirstRow(f: Fact): Columns
  {
    match f
    case Paid(sender, receiver, amount, hops) => Columns(sender, receiver, amount, SETTLED, hops)
    case Lost(status, hops) => Columns(UNKNOWN, UNKNOWN, 0, status, hops)
    case Blank => Columns(UNKNOWN, UNKNOWN, 0, "", 0)
  }

  /** The row after one more fact: identity from the first fact, state from the last that decodes. */
  function Extend(before: Option<Columns>, f: Fact): Columns
  {
    if before.None? then FirstRow(f)
    else if f.Blank? then before.value
    else before.value.(status := FirstRow(f).status, hops := f.hops)
  }

  /** The row that the history of one payment gives. */
  function Summary(facts: seq<Fact>): Option<Columns>
  {
    if |facts| == 0 then None else Some(Extend(Summary(facts[..|facts| - 1]), facts[|facts| - 1]))
  }

  function LiveFacts(ds: seq<Delivery>, txn: string): seq<Fact>
  {
    if |ds| == 0 then []
    else LiveFacts(ds[..|ds| - 1], txn) + FactOfMessage(ds[|ds| - 1].msg, txn)
  }

  function FactOfMessage(msg: Message, txn: string): (facts: seq<Fact>)
    ensures |facts| <= 1
  {
    match msg
    case PaymentSettled(t, sender, receiver, amount, hops, _) =>
      if t == txn then [Paid(sender, receiver, amount, hops)] else []
    case PaymentFailed(t, status, hops) => if t == txn then [Lost(status, hops)] else []
    case Garbled => []
  }

  function StoredFacts(events: seq<Event>, txn: string): seq<Fact>
  {
    if |events| == 0 then []
    else StoredFacts(events[..|events| - 1], txn) + FactOfEvent(events[|events| - 1], txn)
  }

  function FactOfEvent(ev: Event, txn: string): (facts: seq<Fact>)
    ensures |facts| <= 1
  {
    if ev.txn != txn then []
    else
      match ev.what
      case IntentSettled(sender, receiver, amount, hops, _) => [Paid(sender, receiver, amount, hops)]
      case IntentFailed(status, hops) => [Lost(status, hops)]
      case BadPayload => [Blank]
      case OtherType => []
  }

  function RowOf(rows: map<string, Row>, txn: string): Option<Columns>
  {
    if txn in rows then Some(Compared(rows[txn])) else None
  }

  function ExtendAll(before: Option<Columns>, more: seq<Fact>): Option<Columns>
    requires |more| <= 1
  {
    if |more| == 0 then before else Some(Extend(before, more[0]))
  }

  lemma SummaryAppend(facts: seq<Fact>, more: seq<Fact>)
    requires |more| <= 1
    ensures Summary(facts + more) == ExtendAll(Summary(facts), more)
  {
    if |more| == 0 {
      assert facts + more == facts;
    } else {
      assert (facts + more)[..|facts|] == facts;
    }
  }

  lemma LiveStep(s: Live, d: Delivery, txn: string)
    requires !d.msg.Garbled? && d.id !in s.processed
    ensures RowOf(Handle(s, d).rows, txn) == ExtendAll(RowOf(s.rows, txn), FactOfMessage(d.msg, txn))
  {
  }

  /** The live table shows each payment as its history says. */
  lemma {:induction false} LiveTableIsSummary(ds: seq<Delivery>, txn: string)
    requires FirstDeliveries(ds) == ds
    ensures RowOf(HandleAll(ds).rows, txn) == Summary(LiveFacts(ds, txn))
  {
    hide FirstDeliveries, Summary, Handle, RowOf, FactOfMessage, ExtendAll;
    if |ds| == 0 {
      NothingYet(txn);
    } else {
      var front, d := ds[..|ds| - 1], ds[|ds| - 1];
      FirstOfFirst(ds);
      LiveTableIsSummary(front, txn);
      OnlyFirstDeliveriesCount(front);
      LiveStep(HandleAll(front), d, txn);
      SummaryAppend(LiveFacts(front, txn), FactOfMessage(d.msg, txn));
    }
  }

  lemma NothingYet(txn: string)
    ensures RowOf(map[], txn) == Summary([])
  {
  }

  lemma {:induction false} FirstIsShorter(ds: seq<Delivery>)
    ensures |FirstDeliveries(ds)| <= |ds|
  {
    if |ds| != 0 {
      FirstIsShorter(ds[..|ds| - 1]);
    }
  }

  lemma FirstOfFirst(ds: seq<Delivery>)
    requires |ds| > 0 && FirstDeliveries(ds) == ds
    ensures var front, d := ds[..|ds| - 1], ds[|ds| - 1];
            FirstDeliveries(front) == front && !d.msg.Garbled? && d.id !in Ids(front)
  {
    var front := FirstDeliveries(ds[..|ds| - 1]);
    FirstIsShorter(ds[..|ds| - 1]);
    assert ds[..|ds| - 1] == front;
  }

  lemma {:induction false} FirstDeliveriesIdempotent(ds: seq<Delivery>)
    ensures FirstDeliveries(FirstDeliveries(ds)) == FirstDeliveries(ds)
  {
    if |ds| != 0 {
      var front, d := FirstDeliveries(ds[..|ds| - 1]), ds[|ds| - 1];
      FirstDeliveriesIdempotent(ds[..|ds| - 1]);
      if !d.msg.Garbled? && d.id !in Ids(front) {
        assert (front + [d])[..|front|] == front;
      }
    }
  }

  lemma RebuildStep(rows: map<string, Row>, ev: Event, txn: string)
    ensures RowOf(ReplayOne(rows, ev), txn) == ExtendAll(RowOf(rows, txn), FactOfEvent(ev, txn))
  {
  }

  /** So does the rebuilt table, although the tool computes different rows in memory. */
  lemma {:induction false} RebuiltTableIsSummary(events: seq<Event>, txn: string)
    ensures RowOf(ReplayAll(events), txn) == Summary(StoredFacts(events, txn))
  {
    hide Summary, ReplayOne, RowOf, FactOfEvent, ExtendAll;
    if |events| == 0 {
      NothingYet(txn);
    } else {
      var front, ev := events[..|events| - 1], events[|events| - 1];
      RebuiltTableIsSummary(front, txn);
      RebuildStep(ReplayAll(front), ev, txn);
      SummaryAppend(StoredFacts(front, txn), FactOfEvent(ev, txn));
    }
  }

  // ---- When the two agree ----

  /** The facts that decode. */
  function Decoded(facts: seq<Fact>): seq<Fact>
  {
    if |facts| == 0 then []
    else
      var last := facts[|facts| - 1];
      Decoded(facts[..|facts| - 1]) + if last.Blank? then [] else [last]
  }

  /** Identity from the first fact, state from the last one that decodes. */
  function Shape(first: Fact, decoded: seq<Fact>): Columns
  {
    if |decoded| == 0 then FirstRow(first)
    else
      var state := FirstRow(decoded[|decoded| - 1]);
      FirstRow(first).(status := state.status, hops := state.hops)
  }

  lemma {:induction false} SummaryShape(facts: seq<Fact>)
    requires |facts| > 0
    ensures Summary(facts) == Some(Shape(facts[0], Decoded(facts)))
    ensures !facts[0].Blank? ==> |Decoded(facts)| > 0 && Decoded(facts)[0] == facts[0]
    ensures forall f :: f in Decoded(facts) ==> !f.Blank?
  {
    if |facts| > 1 {
      SummaryShape(facts[..|facts| - 1]);
    }
  }

  lemma {:induction false} DecodedTwice(facts: seq<Fact>)
    requires forall i :: 0 <= i < |facts| ==> !facts[i].Blank?
    ensures Decoded(facts) == facts
  {
    if |facts| != 0 {
      var front, last := facts[..|facts| - 1], facts[|facts| - 1];
      DecodedTwice(front);
      assert facts == front + [last];
    }
  }

  /**
   * A history that undecodable events do not spoil: the first event decodes, or the first that
   * does gives the payment the same identity as an undecodable one, UNKNOWN to UNKNOWN for 0.
   */
  predicate Harmless(facts: seq<Fact>)
  {
    || |facts| == 0 || !facts[0].Blank?
    || (|Decoded(facts)| > 0 &&
        var c := FirstRow(Decoded(facts)[0]); c.sender == c.receiver == UNKNOWN && c.amount == 0)
  }

  /** Leaving out what does not decode changes nothing if and only if it is harmless. */
  lemma DecodedSummary(facts: seq<Fact>)
    ensures Summary(facts) == Summary(Decoded(facts)) <==> Harmless(facts)
  {
    if |facts| != 0 {
      var decoded := Decoded(facts);
      SummaryShape(facts);
      if |decoded| != 0 {
        SummaryShape(decoded);
        DecodedTwice(decoded);
        assert decoded[0] in decoded;
      }
    }
  }

  /** The same payments, with the same compared columns. */
  ghost predicate TablesAgree(live: map<string, Row>, rebuilt: map<string, Row>)
  {
    forall txn :: RowOf(live, txn) == RowOf(rebuilt, txn)
  }

  /**
   * What the worker was told of a payment and what the event store holds of it make the same
   * row: both nothing, or the same identity in the first fact and the same state in the last
   * that decodes.
   */
  predicate Matches(told: seq<Fact>, stored: seq<Fact>)
  {
    if |told| == 0 || |stored| == 0 then |told| == |stored|
    else Shape(told[0], Decoded(told)) == Shape(stored[0], Decoded(stored))
  }

  lemma SameSummary(told: seq<Fact>, stored: seq<Fact>)
    ensures Summary(told) == Summary(stored) <==> Matches(told, stored)
  {
    if |told| != 0 {
      SummaryShape(told);
    }
    if |stored| != 0 {
      SummaryShape(stored);
    }
  }

  function Told(ds: seq<Delivery>, txn: string): seq<Fact>
  {
    LiveFacts(FirstDeliveries(ds), txn)
  }

  lemma TablesAgreeOn(ds: seq<Delivery>, events: seq<Event>, txn: string)
    ensures RowOf(HandleAll(ds).rows, txn) == Summary(Told(ds, txn))
    ensures RowOf(HandleAll(ds).rows, txn) == RowOf(ReplayAll(events), txn) <==>
            Matches(Told(ds, txn), StoredFacts(events, txn))
  {
    hide HandleAll, ReplayAll, RowOf, FirstDeliveries, Summary, LiveFacts, StoredFacts, Matches;
    OnlyFirstDeliveriesCount(ds);
    FirstDeliveriesIdempotent(ds);
    LiveTableIsSummary(FirstDeliveries(ds), txn);
    RebuiltTableIsSummary(events, txn);
    SameSummary(Told(ds, txn), StoredFacts(events, txn));
  }

  ghost predicate AllMatch(ds: seq<Delivery>, events: seq<Event>)
  {
    forall txn :: Matches(Told(ds, txn), StoredFacts(events, txn))
  }

  /**
   * Whatever was delivered and whatever is stored, the live table and the rebuilt table agree if
   * and only if the two match, payment by payment.
   */
  lemma RebuildAgreesWithLive(ds: seq<Delivery>, events: seq<Event>)
    ensures TablesAgree(HandleAll(ds).rows, ReplayAll(events)) <==> AllMatch(ds, events)
  {
    hide HandleAll, ReplayAll, RowOf, StoredFacts, Matches, Told;
    var live, rebuilt := HandleAll(ds).rows, ReplayAll(events);
    forall txn: string
      ensures RowOf(live, txn) == RowOf(rebuilt, txn) <==> Matches(Told(ds, txn), StoredFacts(events, txn))
    {
      TablesAgreeOn(ds, events, txn);
    }
  }

  // ---- Three cases ----

  /** The worker was told what decodes, payment by payment; deliveries may repeat and interleave differently. */
  ghost predicate SameHistory(ds: seq<Delivery>, events: seq<Event>)
  {
    forall txn :: Told(ds, txn) == Decoded(StoredFacts(events, txn))
  }

  /** If the worker was told exactly what decodes, the two match if and only if the rest is harmless. */
  lemma MatchesExactly(ds: seq<Delivery>, events: seq<Event>, txn: string)
    requires SameHistory(ds, events)
    ensures Matches(Told(ds, txn), StoredFacts(events, txn)) <==> Harmless(StoredFacts(events, txn))
  {
    hide Summary, Decoded, Told, StoredFacts, Harmless, Matches;
    SameSummary(Told(ds, txn), StoredFacts(events, txn));
    DecodedSummary(StoredFacts(events, txn));
  }

  lemma {:induction false} DecodableFacts(events: seq<Event>, txn: string)
    requires forall i :: 0 <= i < |events| ==> !events[i].what.BadPayload?
    ensures forall f :: f in StoredFacts(events, txn) ==> !f.Blank?
  {
    if |events| != 0 {
      DecodableFacts(events[..|events| - 1], txn);
    }
  }

  /** So if besides every stored event decodes, the tables agree. */
  lemma DecodableTablesAgree(ds: seq<Delivery>, events: seq<Event>)
    requires SameHistory(ds, events) && forall i :: 0 <= i < |events| ==> !events[i].what.BadPayload?
    ensures TablesAgree(HandleAll(ds).rows, ReplayAll(events))
  {
    hide HandleAll, ReplayAll, StoredFacts, Told, Matches, SameHistory, TablesAgree;
    forall txn: string
      ensures Matches(Told(ds, txn), StoredFacts(events, txn))
    {
      MatchesExactly(ds, events, txn);
      DecodableFacts(events, txn);
    }
    RebuildAgreesWithLive(ds, events);
  }

  /**
   * A payment of which the worker was told but the store has nothing, as the foreign key of the
   * event store leaves a rejected payment, makes the rebuild fail whatever else happened.
   */
  lemma UnstoredPaymentFails(ds: seq<Delivery>, events: seq<Event>, txn: string)
    requires Told(ds, txn) != [] && StoredFacts(events, txn) == []
    ensures !TablesAgree(HandleAll(ds).rows, ReplayAll(events)) && !Verified(HandleAll(ds).rows, ReplayAll(events))
  {
    hide HandleAll, ReplayAll, StoredFacts, Told, TablesAgree;
    assert !Matches(Told(ds, txn), StoredFacts(events, txn));
    RebuildAgreesWithLive(ds, events);
    VerifiedExactly(HandleAll(ds).rows, ReplayAll(events));
    TablesAgreeOn(ds, events, txn);
  }

  /** One rejected payment is enough. */
  lemma RejectedPaymentFails(id: string, number: Option<int>, txn: string, status: string, hops: int)
    ensures var ds := [Delivery(id, number, PaymentFailed(txn, status, hops))];
            !Verified(HandleAll(ds).rows, ReplayAll([]))
  {
    var d := Delivery(id, number, PaymentFailed(txn, status, hops));
    assert [d][..0] == [] && [d][0] == d;
    assert FirstDeliveries([d]) == [] + [d] == [d];
    assert LiveFacts([d], txn) == LiveFacts([], txn) + FactOfMessage(d.msg, txn) == [Lost(status, hops)];
    UnstoredPaymentFails([d], [], txn);
  }

  /** The tool's comparison passes exactly if the tables agree, or if there was nothing to compare with. */
  lemma VerifiedExactly(live: map<string, Row>, rebuilt: map<string, Row>)
    ensures Verified(live, rebuilt) <==> live == map[] || TablesAgree(live, rebuilt)
  {
    if live != map[] {
      assert |live| > 0 by {
        var txn :| txn in live;
        assert |live.Keys| == |live|;
      }
      if Verified(live, rebuilt) {
        assert live.Keys <= rebuilt.Keys;
        SameSize(live.Keys, rebuilt.Keys);
      }
      if TablesAgree(live, rebuilt) {
        forall txn: string
          ensures txn in live <==> txn in rebuilt
          ensures txn in live && txn in rebuilt ==> Compared(live[txn]) == Compared(rebuilt[txn])
        {
          assert RowOf(live, txn) == RowOf(rebuilt, txn);
        }
        assert live.Keys == rebuilt.Keys;
        assert |live.Keys| == |live| && |rebuilt.Keys| == |rebuilt|;
      }
    }
  }

  lemma SameSize(a: set<string>, b: set<string>)
    requires a <= b && |a| == |b|
    ensures a == b
  {
    assert |b - a| == |b| - |a|;
  }

  predicate Ascending(events: seq<Event>)
  {
    && (forall i :: 0 <= i < |events| ==> events[i].id > 0)
    && (forall i, j :: 0 <= i < j < |events| ==> events[i].id < events[j].id)
  }

  lemma {:induction false} CheckpointBounds(events: seq<Event>)
    requires Ascending(events)
    ensures MaxId(events) == if |events| == 0 then 0 else events[|events| - 1].id
    ensures |events| == 0 || Checkpoint(events) <= events[|events| - 1].id
  {
    if |events| != 0 {
      CheckpointBounds(events[..|events| - 1]);
    }
  }

  /**
   * The rebuild of a table that the live worker wrote succeeds exactly when the worker had
   * written nothing or the two match on every payment, and the event store is empty or ends
   * with an event of a type the tool knows. A trailing event of another type, such as
   * RecoveryDiagnosed, makes the checkpoint comparison fail although the tables agree.
   */
  lemma RebuildSucceedsExactly(ds: seq<Delivery>, events: seq<Event>)
    requires Ascending(events)
    ensures Verified(HandleAll(ds).rows, ReplayAll(events)) && Checkpoint(events) == MaxId(events) <==>
            && ((forall txn :: Told(ds, txn) == []) || AllMatch(ds, events))
            && (|events| == 0 || !events[|events| - 1].what.OtherType?)
  {
    hide HandleAll, ReplayAll, Verified, TablesAgree, AllMatch, Told;
    RebuildAgreesWithLive(ds, events);
    VerifiedExactly(HandleAll(ds).rows, ReplayAll(events));
    NothingTold(ds);
    CheckpointBounds(events);
    if |events| > 1 {
      CheckpointBounds(events[..|events| - 1]);
    }
  }

  lemma NothingTold(ds: seq<Delivery>)
    ensures HandleAll(ds).rows == map[] <==> forall txn :: Told(ds, txn) == []
  {
    hide HandleAll, Told;
    var live := HandleAll(ds).rows;
    forall txn: string
      ensures txn !in live <==> Told(ds, txn) == []
    {
      TablesAgreeOn(ds, [], txn);
    }
    if live != map[] {
      var txn :| txn in live;
      assert Told(ds, txn) != [];
    }
  }
}
