/** The parts of the projection that the rebuild tool does not compare: the checkpoint and the time of settlement. */
module Checkpoints {
  import opened Basics
  import opened Projection

  /** The number of the last delivery that has one. */
  function LastNumber(ds: seq<Delivery>): int
  {
    if |ds| == 0 then 0
    else if ds[|ds| - 1].number.Some? then ds[|ds| - 1].number.value
    else LastNumber(ds[..|ds| - 1])
  }

  lemma {:induction false} CheckpointOfFirst(ds: seq<Delivery>)
    requires FirstDeliveries(ds) == ds
    ensures HandleAll(ds).checkpoint == LastNumber(ds)
  {
    hide FirstDeliveries;
    if |ds| != 0 {
      var front := ds[..|ds| - 1];
      FirstOfFirst(ds);
      CheckpointOfFirst(front);
      OnlyFirstDeliveriesCount(front);
    }
  }

  /** The checkpoint is the number of the last delivery that was new, decoded and had one. */
  lemma CheckpointIsLastNumber(ds: seq<Delivery>)
    ensures HandleAll(ds).checkpoint == LastNumber(FirstDeliveries(ds))
  {
    hide HandleAll, FirstDeliveries, LastNumber;
    OnlyFirstDeliveriesCount(ds);
    FirstDeliveriesIdempotent(ds);
    CheckpointOfFirst(FirstDeliveries(ds));
  }

  function SettledAtOf(rows: map<string, Row>, txn: string): Option<int>
  {
    if txn in rows then rows[txn].settledAt else None
  }

  /** The time in the last settled message about the payment. */
  function LastSettled(ds: seq<Delivery>, txn: string): Option<int>
  {
    if |ds| == 0 then None
    else
      var m := ds[|ds| - 1].msg;
      if m.PaymentSettled? && m.txn == txn then Some(m.settledAt) else LastSettled(ds[..|ds| - 1], txn)
  }

  lemma {:induction false} SettledAtOfFirst(ds: seq<Delivery>, txn: string)
    requires FirstDeliveries(ds) == ds
    ensures SettledAtOf(HandleAll(ds).rows, txn) == LastSettled(ds, txn)
  {
    hide FirstDeliveries;
    if |ds| != 0 {
      var front := ds[..|ds| - 1];
      FirstOfFirst(ds);
      SettledAtOfFirst(front, txn);
      OnlyFirstDeliveriesCount(front);
    }
  }

  /** The live row says that the payment settled when the last settled message says so, whatever failed since. */
  lemma LiveSettledAt(ds: seq<Delivery>, txn: string)
    ensures SettledAtOf(HandleAll(ds).rows, txn) == LastSettled(FirstDeliveries(ds), txn)
  {
    hide HandleAll, FirstDeliveries, LastSettled, SettledAtOf;
    OnlyFirstDeliveriesCount(ds);
    FirstDeliveriesIdempotent(ds);
    SettledAtOfFirst(FirstDeliveries(ds), txn);
  }

  /** The time in the last settled event of the payment. */
  function LastSettledEvent(events: seq<Event>, txn: string): Option<int>
  {
    if |events| == 0 then None
    else
      var e := events[|events| - 1];
      if e.txn == txn && e.what.IntentSettled? then Some(e.what.settledAt)
      else LastSettledEvent(events[..|events| - 1], txn)
  }

  /** So does the rebuilt row, by the events. */
  lemma {:induction false} RebuiltSettledAt(events: seq<Event>, txn: string)
    ensures SettledAtOf(ReplayAll(events), txn) == LastSettledEvent(events, txn)
  {
    if |events| != 0 {
      RebuiltSettledAt(events[..|events| - 1], txn);
    }
  }
}
