/** The transactional outbox: a pool of workers, retries, the dead-letter queue and its replay. */
module Outbox {
  import opened Basics

  const MAX_RETRIES := 5
  const BATCH_LIMIT := 5

  datatype Status = Pending | Processing | Published | Failed

  datatype Row = Row(stream: string, payload: string, status: Status, retries: int)

  /** `outbox_events` and `dead_letter_events`, with their identifier sequences. */
  datatype Tables = Tables(rows: map<int, Row>, dead: map<int, string>, nextRow: int, nextDead: int)

  datatype Claimed = Claimed(id: int, payload: string)

  /** A call of the event bus, whether it was acknowledged, and whether its outcome was recorded. */
  datatype Call = Call(id: int, acked: bool, recorded: bool)

  /** What the bus and the database answer while one event is processed. */
  datatype Outcome = Outcome(acked: bool, recorded: bool)

  // ---- Transactions ----

  function InsertTx(t: Tables, stream: string, payload: string): Tables
  {
    t.(rows := t.rows[t.nextRow := Row(stream, payload, Pending, 0)], nextRow := t.nextRow + 1)
  }

  /** What the claiming query can return, whatever rows other workers have locked. */
  predicate IsBatch(t: Tables, batch: seq<int>)
  {
    && |batch| <= BATCH_LIMIT
    && (forall i :: 0 <= i < |batch| ==> batch[i] in t.rows && t.rows[batch[i]].status == Pending)
    && (forall i, j :: 0 <= i < j < |batch| ==> batch[i] < batch[j])
  }

  function ClaimTx(t: Tables, batch: seq<int>): Tables
  {
    t.(rows := map id | id in t.rows :: if id in batch then t.rows[id].(status := Processing) else t.rows[id])
  }

  function Events(t: Tables, batch: seq<int>): seq<Claimed>
    requires forall i :: 0 <= i < |batch| ==> batch[i] in t.rows
  {
    seq(|batch|, i requires 0 <= i < |batch| => Claimed(batch[i], t.rows[batch[i]].payload))
  }

  function PublishedTx(t: Tables, id: int): Tables
  {
    if id in t.rows then t.(rows := t.rows[id := t.rows[id].(status := Published)]) else t
  }

  /** Count the failure; at the limit, move the event to the dead-letter queue. */
  function FailTx(t: Tables, ev: Claimed): Tables
  {
    if ev.id !in t.rows then t
    else if t.rows[ev.id].retries + 1 >= MAX_RETRIES then
      t.(rows := t.rows - {ev.id}, dead := t.dead[t.nextDead := ev.payload], nextDead := t.nextDead + 1)
    else
      t.(rows := t.rows[ev.id := t.rows[ev.id].(status := Pending, retries := t.rows[ev.id].retries + 1)])
  }

  /** Publish one event and record what happened, unless recording fails. */
  function ProcessTx(t: Tables, ev: Claimed, o: Outcome): Tables
  {
    if !o.recorded then t else if o.acked then PublishedTx(t, ev.id) else FailTx(t, ev)
  }

  /** A dead letter does not keep its stream: a replay goes to the one its payload names, if it names one. */
  function ReplayStream(named: string): string
  {
    if named == "" then "payment.replayed" else named
  }

  function ReplayTx(t: Tables, id: int, payload: string, named: string): Tables
  {
    InsertTx(t, ReplayStream(named), payload).(dead := t.dead - {id})
  }

  datatype World = World(t: Tables, calls: seq<Call>)

  function ProcessAll(w: World, events: seq<Claimed>, outcomes: seq<Outcome>): World
    requires |events| == |outcomes|
  {
    if |events| == 0 then w
    else
      var front := ProcessAll(w, events[..|events| - 1], outcomes[..|events| - 1]);
      var ev, o := events[|events| - 1], outcomes[|events| - 1];
      World(ProcessTx(front.t, ev, o), front.calls + [Call(ev.id, o.acked, o.recorded)])
  }

  // ---- The worker ----

  class OutboxWorker {
    var rows: map<int, Row>
    var dead: map<int, string>
    var nextRow: int
    var nextDead: int
    var calls: seq<Call>

    constructor ()
      ensures Contents() == World(Tables(map[], map[], 1, 1), [])
    {
      rows, dead, nextRow, nextDead, calls := map[], map[], 1, 1, [];
    }

    function Contents(): World
      reads this
    {
      World(Tables(rows, dead, nextRow, nextDead), calls)
    }

    /** The `UPDATE` of a failed event: FAILED at the limit, otherwise PENDING again. */
    method MarkOutboxEventFailed(id: int)
      modifies this`rows
      ensures rows == if id !in old(rows) then old(rows)
                      else var n := old(rows)[id].retries + 1;
                           var status := if n >= MAX_RETRIES then Failed else Pending;
                           old(rows)[id := old(rows)[id].(retries := n, status := status)]
    {
      if id in rows {
        var n := rows[id].retries + 1;
        rows := rows[id := rows[id].(retries := n, status := if n >= MAX_RETRIES then Failed else Pending)];
      }
    }

    method ProcessSingleEvent(ev: Claimed, o: Outcome)
      requires ev.id in rows ==> rows[ev.id].status != Failed && rows[ev.id].retries < MAX_RETRIES
      modifies this
      ensures Contents() == World(ProcessTx(old(Contents()).t, ev, o), old(calls) + [Call(ev.id, o.acked, o.recorded)])
      ensures !o.recorded || ev.id !in old(rows) ==> rows == old(rows) && dead == old(dead)
      ensures o.recorded && ev.id in old(rows) ==>
                var row := old(rows)[ev.id];
                if !o.acked && row.retries == 4
                then rows == old(rows) - {ev.id} && dead == old(dead)[old(nextDead) := ev.payload]
                else
                  && rows == old(rows)[ev.id := if o.acked then row.(status := Published)
                                                else row.(status := Pending, retries := row.retries + 1)]
                  && dead == old(dead)
    {
      calls := calls + [Call(ev.id, o.acked, o.recorded)];
      if !o.recorded {
        return;
      }
      if o.acked {
        if ev.id in rows {
          rows := rows[ev.id := rows[ev.id].(status := Published)];
        }
        return;
      }
      ghost var before := rows;
      MarkOutboxEventFailed(ev.id);
      if ev.id in rows && rows[ev.id].status == Failed {
        dead := dead[nextDead := ev.payload];
        nextDead := nextDead + 1;
        rows := rows - {ev.id};
        assert rows == before - {ev.id};
      }
    }

    /** Claim a batch in one transaction, then process its events one by one. */
    method ProcessOutboxBatch(batch: seq<int>, outcomes: seq<Outcome>)
      requires IsBatch(Contents().t, batch) && |outcomes| == |batch|
      requires forall id :: id in rows ==> rows[id].status != Failed && rows[id].retries < MAX_RETRIES
      modifies this
      ensures Contents() == ProcessAll(World(ClaimTx(old(Contents()).t, batch), old(calls)),
              Events(old(Contents()).t, batch), outcomes)
    {
      hide ProcessTx;
      var events := Events(Contents().t, batch);
      rows := map id | id in rows :: if id in batch then rows[id].(status := Processing) else rows[id];
      ghost var start := Contents();
      for i := 0 to |events|
        invariant Contents() == ProcessAll(start, events[..i], outcomes[..i])
        invariant forall id :: id in rows ==> rows[id].status != Failed && rows[id].retries < MAX_RETRIES
      {
        assert events[..i + 1][..i] == events[..i] && outcomes[..i + 1][..i] == outcomes[..i];
        ProcessKeepsRows(Contents().t, events[i], outcomes[i]);
        ProcessSingleEvent(events[i], outcomes[i]);
      }
      assert events[..|events|] == events && outcomes[..|events|] == outcomes;
    }

    /** `GetDeadLetterEvent`, on a connection of its own. */
    method GetDeadLetterEvent(id: int) returns (read: Option<string>)
      ensures read == if id in dead then Some(dead[id]) else None
    {
      if id in dead {
        return Some(dead[id]);
      }
      return None;
    }

    /**
     * Put a dead letter back into the outbox. `read` is what `GetDeadLetterEvent` found, possibly
     * some time ago; `named` is the stream its payload names, or "".
     */
    method ReplayDLQEvent(id: int, read: Option<string>, named: string) returns (ok: bool)
      modifies this
      ensures ok <==> read.Some?
      ensures Contents() ==
              if ok then old(Contents()).(t := ReplayTx(old(Contents()).t, id, read.value, named)) else old(Contents())
      ensures ok ==>
                && old(nextRow) in rows && rows[old(nextRow)].payload == read.value
                && rows[old(nextRow)].stream == (if named == "" then "payment.replayed" else named) && id !in dead
    {
      if read.None? {
        return false;
      }
      var stream := named;
      if stream == "" {
        stream := "payment.replayed";
      }
      rows := rows[nextRow := Row(stream, read.value, Pending, 0)];
      nextRow := nextRow + 1;
      dead := dead - {id};
      return true;
    }
  }

  lemma ProcessKeepsRows(t: Tables, ev: Claimed, o: Outcome)
    requires forall id :: id in t.rows ==> t.rows[id].status != Failed && t.rows[id].retries < MAX_RETRIES
    ensures var t' := ProcessTx(t, ev, o);
            forall id :: id in t'.rows ==> t'.rows[id].status != Failed && t'.rows[id].retries < MAX_RETRIES
  {
  }

  // ---- Runs of any number of workers ----

  /** A replay reads the dead letter on another connection before its own transaction writes. */
  datatype Reading = Reading(id: int, payload: string, source: int)

  /**
   * `hands` is what each worker holds in memory. `source` and `deadSource` number the insertion
   * each row and dead letter comes from; `deleted` lists those of the dead letters an operator deleted.
   */
  datatype State = State(
    t: Tables,
    calls: seq<Call>,
    hands: map<int, seq<Claimed>>,
    readings: map<int, Reading>,
    inserted: seq<string>,
    source: map<int, int>,
    deadSource: map<int, int>,
    deleted: seq<int>)

  const INIT := State(Tables(map[], map[], 1, 1), [], map[], map[], [], map[], map[], [])

  datatype Step =
    | Insert(stream: string, payload: string)
    | Claim(worker: int, batch: seq<int>)
    | Process(worker: int, outcome: Outcome)
    | Crash(worker: int)
    | Read(reader: int, id: int)
    | Replay(reader: int, named: string)
    | Delete(id: int)

  function InHand(s: State, worker: int): seq<Claimed>
  {
    if worker in s.hands then s.hands[worker] else []
  }

  /** A step that cannot happen changes nothing. */
  function Apply(s: State, step: Step): State
  {
    match step
    case Insert(stream, payload) => ApplyInsert(s, stream, payload)
    case Claim(worker, batch) =>
      if InHand(s, worker) != [] || !IsBatch(s.t, batch) then s
      else s.(t := ClaimTx(s.t, batch), hands := s.hands[worker := Events(s.t, batch)])
    case Process(worker, o) => if InHand(s, worker) == [] then s else ApplyProcess(s, worker, o)
    case Crash(worker) => s.(hands := s.hands - {worker})
    case Read(reader, id) =>
      if id !in s.t.dead || id !in s.deadSource then s
      else s.(readings := s.readings[reader := Reading(id, s.t.dead[id], s.deadSource[id])])
    case Replay(reader, named) => if reader !in s.readings then s else ApplyReplay(s, reader, named)
    case Delete(id) =>
      if id !in s.deadSource then s
      else s.(t := s.t.(dead := s.t.dead - {id}), deadSource := s.deadSource - {id},
          deleted := s.deleted + [s.deadSource[id]])
  }

  function ApplyInsert(s: State, stream: string, payload: string): State
  {
    s.(t := InsertTx(s.t, stream, payload), inserted := s.inserted + [payload],
        source := s.source[s.t.nextRow := |s.inserted|])
  }

  function ApplyProcess(s: State, worker: int, o: Outcome): State
    requires InHand(s, worker) != []
  {
    var ev := s.hands[worker][0];
    var t' := ProcessTx(s.t, ev, o);
    var moved := ev.id in s.source && ev.id !in t'.rows;
    s.(t := t', calls := s.calls + [Call(ev.id, o.acked, o.recorded)], hands := s.hands[worker := s.hands[worker][1..]],
       source := if moved then s.source - {ev.id} else s.source,
       deadSource := if moved then s.deadSource[s.t.nextDead := s.source[ev.id]] else s.deadSource)
  }

  function ApplyReplay(s: State, reader: int, named: string): State
    requires reader in s.readings
  {
    var r := s.readings[reader];
    s.(readings := s.readings - {reader}, t := ReplayTx(s.t, r.id, r.payload, named),
        source := s.source[s.t.nextRow := r.source], deadSource := s.deadSource - {r.id})
  }

  function Run(steps: seq<Step>): State
  {
    if |steps| == 0 then INIT else Apply(Run(steps[..|steps| - 1]), steps[|steps| - 1])
  }

  // ---- The invariant ----

  predicate Came(s: State, source: int, payload: string)
  {
    0 <= source < |s.inserted| && s.inserted[source] == payload
  }

  /** A reading may be stale, but its identifier never names another dead letter. */
  predicate ReadingOk(s: State, r: Reading)
  {
    && r.id < s.t.nextDead && Came(s, r.source, r.payload)
    && (r.id in s.deadSource ==> s.deadSource[r.id] == r.source)
  }

  predicate TablesOk(s: State)
  {
    && s.source.Keys == s.t.rows.Keys && s.deadSource.Keys == s.t.dead.Keys
    && (forall id :: id in s.t.rows ==>
          id < s.t.nextRow && 0 <= s.t.rows[id].retries < MAX_RETRIES && s.t.rows[id].status != Failed &&
          Came(s, s.source[id], s.t.rows[id].payload))
    && (forall id :: id in s.t.dead ==> id < s.t.nextDead && Came(s, s.deadSource[id], s.t.dead[id]))
    && (forall r :: r in s.readings ==> ReadingOk(s, s.readings[r]))
    && (forall k :: 0 <= k < |s.deleted| ==> 0 <= s.deleted[k] < |s.inserted|)
  }

  /** What is in a worker's hands is a PROCESSING row, and in no other place of any worker's hands. */
  predicate HandsOk(s: State)
  {
    && (forall w, i :: w in s.hands && 0 <= i < |s.hands[w]| ==>
          var ev := s.hands[w][i];
          ev.id in s.t.rows && s.t.rows[ev.id].status == Processing && s.t.rows[ev.id].payload == ev.payload)
    && NoSharing(s.hands)
  }

  predicate NoSharing(hands: map<int, seq<Claimed>>)
  {
    forall w, i, v, j ::
      w in hands && v in hands && 0 <= i < |hands[w]| && 0 <= j < |hands[v]| && hands[w][i].id == hands[v][j].id ==>
      w == v && i == j
  }

  predicate Held(s: State, id: int)
  {
    exists w, i :: w in s.hands && 0 <= i < |s.hands[w]| && s.hands[w][i].id == id
  }

  /** How often the bus was called for an event. */
  function Calls(calls: seq<Call>, id: int): int
  {
    if |calls| == 0 then 0
    else Calls(calls[..|calls| - 1], id) + if calls[|calls| - 1].id == id then 1 else 0
  }

  predicate Acked(calls: seq<Call>, id: int)
  {
    Call(id, true, true) in calls || Call(id, true, false) in calls
  }

  predicate NoCallAfterAck(calls: seq<Call>)
  {
    forall i, j :: 0 <= i < j < |calls| && calls[i].id == calls[j].id ==> !calls[i].acked
  }

  /** An event that can still be published was called for once per counted failure. */
  predicate CallsOf(s: State, id: int)
  {
    && Calls(s.calls, id) <= MAX_RETRIES
    && (id >= s.t.nextRow ==> Calls(s.calls, id) == 0 && !Acked(s.calls, id))
    && (id in s.t.rows && (s.t.rows[id].status == Pending || Held(s, id)) ==>
          Calls(s.calls, id) == s.t.rows[id].retries && !Acked(s.calls, id))
  }

  ghost predicate CallsOk(s: State)
  {
    NoCallAfterAck(s.calls) && forall id :: CallsOf(s, id)
  }

  predicate Among(source: map<int, int>, n: int)
  {
    exists id :: id in source && source[id] == n
  }

  /** Nothing is lost: every insertion is in the outbox or in the dead-letter queue, or an operator deleted it. */
  predicate Covered(s: State)
  {
    forall n :: 0 <= n < |s.inserted| ==> Among(s.source, n) || Among(s.deadSource, n) || n in s.deleted
  }

  ghost predicate Inv(s: State)
  {
    TablesOk(s) && HandsOk(s) && CallsOk(s) && Covered(s)
  }

  // ---- Preservation, part by part ----

  /** The tables, and what they are compared with, are the same. */
  predicate SameTables(s: State, s': State)
  {
    && s'.t == s.t && s'.source == s.source && s'.deadSource == s.deadSource
    && s'.readings == s.readings && s'.inserted == s.inserted && s'.deleted == s.deleted
  }

  lemma TablesSame(s: State, s': State)
    requires TablesOk(s) && SameTables(s, s')
    ensures TablesOk(s')
  {
  }

  lemma TablesUpdate(s: State, id: int, row: Row)
    requires TablesOk(s) && id in s.t.rows && row.payload == s.t.rows[id].payload
    requires 0 <= row.retries < MAX_RETRIES && row.status != Failed
    ensures TablesOk(s.(t := s.t.(rows := s.t.rows[id := row])))
  {
  }

  lemma TablesDie(s: State, ev: Claimed)
    requires TablesOk(s) && ev.id in s.t.rows && s.t.rows[ev.id].payload == ev.payload
    ensures TablesOk(s.(t := s.t.(rows := s.t.rows - {ev.id}, dead := s.t.dead[s.t.nextDead := ev.payload],
                                  nextDead := s.t.nextDead + 1),
                        source := s.source - {ev.id}, deadSource := s.deadSource[s.t.nextDead := s.source[ev.id]]))
  {
  }

  lemma TablesProcess(s: State, worker: int, o: Outcome)
    requires TablesOk(s) && HandsOk(s) && InHand(s, worker) != []
    ensures TablesOk(ApplyProcess(s, worker, o))
  {
    hide TablesOk, HandsOk;
    var s', ev := ApplyProcess(s, worker, o), s.hands[worker][0];
    HeldRow(s, worker);
    var row := s.t.rows[ev.id];
    if !o.recorded {
      TablesSame(s, s');
    } else if o.acked {
      TablesUpdate(s, ev.id, row.(status := Published));
      TablesSame(s.(t := s'.t), s');
    } else if row.retries + 1 >= MAX_RETRIES {
      TablesDie(s, ev);
      TablesSame(s.(t := s'.t, source := s'.source, deadSource := s'.deadSource), s');
    } else {
      TablesUpdate(s, ev.id, row.(status := Pending, retries := row.retries + 1));
      TablesSame(s.(t := s'.t), s');
    }
  }

  lemma HeldRow(s: State, worker: int)
    requires TablesOk(s) && HandsOk(s) && InHand(s, worker) != []
    ensures var ev := s.hands[worker][0];
            && ev.id in s.t.rows && ev.id in s.source && s.t.rows[ev.id].payload == ev.payload
            && 0 <= s.t.rows[ev.id].retries < MAX_RETRIES
  {
  }

  lemma TablesReplay(s: State, reader: int, named: string)
    requires TablesOk(s) && reader in s.readings
    ensures TablesOk(ApplyReplay(s, reader, named))
  {
  }

  lemma TablesInsert(s: State, stream: string, payload: string)
    requires TablesOk(s)
    ensures TablesOk(ApplyInsert(s, stream, payload))
  {
  }

  lemma TablesClaim(s: State, worker: int, batch: seq<int>)
    requires TablesOk(s) && InHand(s, worker) == [] && IsBatch(s.t, batch)
    ensures TablesOk(Apply(s, Claim(worker, batch)))
  {
  }

  lemma TablesRead(s: State, reader: int, id: int)
    requires TablesOk(s)
    ensures TablesOk(Apply(s, Read(reader, id)))
  {
  }

  lemma TablesDelete(s: State, id: int)
    requires TablesOk(s)
    ensures TablesOk(Apply(s, Delete(id)))
  {
  }

  lemma TablesStep(s: State, step: Step)
    requires TablesOk(s) && HandsOk(s)
    ensures TablesOk(Apply(s, step))
  {
    hide TablesOk, HandsOk, ApplyProcess, ApplyReplay, ApplyInsert, ClaimTx, IsBatch;
    match step {
      case Claim(worker, batch) =>
        if InHand(s, worker) == [] && IsBatch(s.t, batch) {
          TablesClaim(s, worker, batch);
        }
      case Read(reader, id) => TablesRead(s, reader, id);
      case Delete(id) => TablesDelete(s, id);
      case Crash(worker) => TablesSame(s, Apply(s, step));
      case Insert(stream, payload) => TablesInsert(s, stream, payload);
      case Process(worker, o) =>
        if InHand(s, worker) != [] {
          TablesProcess(s, worker, o);
        }
      case Replay(reader, named) =>
        if reader in s.readings {
          TablesReplay(s, reader, named);
        }
    }
  }

  lemma HandsProcess(s: State, worker: int, o: Outcome)
    requires TablesOk(s) && HandsOk(s) && InHand(s, worker) != []
    ensures HandsOk(ApplyProcess(s, worker, o))
  {
    hide TablesOk;
    var s', ev := ApplyProcess(s, worker, o), s.hands[worker][0];
    forall w, i | w in s'.hands && 0 <= i < |s'.hands[w]|
      ensures var e := s'.hands[w][i];
              e.id in s'.t.rows && s'.t.rows[e.id].status == Processing && s'.t.rows[e.id].payload == e.payload
    {
      var k := if w == worker then i + 1 else i;
      assert s'.hands[w][i] == s.hands[w][k] && s.hands[w][k].id != ev.id;
    }
    NoSharingTail(s.hands, worker);
  }

  lemma NoSharingTail(hands: map<int, seq<Claimed>>, worker: int)
    requires NoSharing(hands) && worker in hands && hands[worker] != []
    ensures NoSharing(hands[worker := hands[worker][1..]])
  {
  }

  lemma HandsClaim(s: State, worker: int, batch: seq<int>)
    requires HandsOk(s) && InHand(s, worker) == [] && IsBatch(s.t, batch)
    ensures HandsOk(Apply(s, Claim(worker, batch)))
  {
  }

  lemma HandsStep(s: State, step: Step)
    requires TablesOk(s) && HandsOk(s)
    ensures HandsOk(Apply(s, step))
  {
    hide ApplyProcess, ClaimTx;
    match step {
      case Claim(worker, batch) =>
        if InHand(s, worker) == [] && IsBatch(s.t, batch) {
          HandsClaim(s, worker, batch);
        }
      case Process(worker, o) =>
        if InHand(s, worker) != [] {
          HandsProcess(s, worker, o);
        }
      case _ =>
    }
  }

  lemma CallsAppend(calls: seq<Call>, c: Call, id: int)
    ensures Calls(calls + [c], id) == Calls(calls, id) + if c.id == id then 1 else 0
    ensures Acked(calls + [c], id) <==> Acked(calls, id) || (c.id == id && c.acked)
  {
  }

  lemma CallsProcess(s: State, worker: int, o: Outcome)
    requires TablesOk(s) && HandsOk(s) && CallsOk(s) && InHand(s, worker) != []
    ensures CallsOk(ApplyProcess(s, worker, o))
  {
    hide Calls, Acked;
    var s' := ApplyProcess(s, worker, o);
    var ev := s.hands[worker][0];
    assert Held(s, ev.id) && CallsOf(s, ev.id);
    NoneBefore(s.calls, Call(ev.id, o.acked, o.recorded));
    ReleasedFromHand(s, worker, o);
    forall id: int
      ensures CallsOf(s', id)
    {
      CallsAppend(s.calls, Call(ev.id, o.acked, o.recorded), id);
      assert CallsOf(s, id);
      if Held(s', id) {
        HeldBefore(s, worker, o, id);
      }
    }
  }

  lemma NoneBefore(calls: seq<Call>, c: Call)
    requires NoCallAfterAck(calls) && !Acked(calls, c.id)
    ensures NoCallAfterAck(calls + [c])
  {
  }

  lemma ReleasedFromHand(s: State, worker: int, o: Outcome)
    requires HandsOk(s) && InHand(s, worker) != []
    ensures !Held(ApplyProcess(s, worker, o), s.hands[worker][0].id)
  {
  }

  lemma HeldBefore(s: State, worker: int, o: Outcome, id: int)
    requires InHand(s, worker) != [] && Held(ApplyProcess(s, worker, o), id)
    ensures Held(s, id)
  {
  }

  lemma CallsClaim(s: State, worker: int, batch: seq<int>)
    requires CallsOk(s) && InHand(s, worker) == [] && IsBatch(s.t, batch)
    ensures CallsOk(Apply(s, Claim(worker, batch)))
  {
    hide Calls, Acked, NoCallAfterAck;
    var s' := Apply(s, Claim(worker, batch));
    forall id: int
      ensures CallsOf(s', id)
    {
      assert CallsOf(s, id);
      if Held(s', id) && id !in batch {
        var w, i :| w in s'.hands && 0 <= i < |s'.hands[w]| && s'.hands[w][i].id == id;
        assert w in s.hands && s.hands[w][i].id == id;
      }
    }
  }

  lemma CallsStep(s: State, step: Step)
    requires TablesOk(s) && HandsOk(s) && CallsOk(s)
    ensures CallsOk(Apply(s, step))
  {
    hide Calls, Acked, NoCallAfterAck, ApplyProcess, ClaimTx, IsBatch, NoSharing;
    match step {
      case Claim(worker, batch) =>
        if InHand(s, worker) == [] && IsBatch(s.t, batch) {
          CallsClaim(s, worker, batch);
        }
      case Process(worker, o) =>
        if InHand(s, worker) != [] {
          CallsProcess(s, worker, o);
        }
      case _ =>
        var s' := Apply(s, step);
        forall id: int
          ensures CallsOf(s', id)
        {
          assert CallsOf(s, id);
          assert Held(s', id) ==> Held(s, id);
        }
    }
  }

  /** An insertion accounted for before is accounted for after. */
  predicate Keeps(s: State, s': State)
  {
    && (forall id :: id in s.source ==> Among(s'.source, s.source[id]) || Among(s'.deadSource, s.source[id]))
    && (forall id :: id in s.deadSource ==>
          var n := s.deadSource[id]; Among(s'.deadSource, n) || Among(s'.source, n) || n in s'.deleted)
    && (forall n :: n in s.deleted ==> n in s'.deleted)
  }

  lemma StillThere(a: map<int, int>, b: map<int, int>, id: int)
    requires id in a && id in b && a[id] == b[id]
    ensures Among(b, a[id])
  {
  }

  lemma KeepsProcess(s: State, worker: int, o: Outcome)
    requires TablesOk(s) && InHand(s, worker) != []
    ensures Keeps(s, ApplyProcess(s, worker, o))
  {
    var s' := ApplyProcess(s, worker, o);
    forall id | id in s.source
      ensures Among(s'.source, s.source[id]) || Among(s'.deadSource, s.source[id])
    {
      if id in s'.source {
        StillThere(s.source, s'.source, id);
      } else {
        assert s'.deadSource[s.t.nextDead] == s.source[id];
      }
    }
    forall id | id in s.deadSource
      ensures Among(s'.deadSource, s.deadSource[id])
    {
      StillThere(s.deadSource, s'.deadSource, id);
    }
  }

  lemma KeepsStep(s: State, step: Step)
    requires TablesOk(s)
    ensures Keeps(s, Apply(s, step))
  {
    hide ApplyProcess, IsBatch, ClaimTx, Among;
    if step.Process? {
      if InHand(s, step.worker) != [] {
        KeepsProcess(s, step.worker, step.outcome);
      } else {
        KeepsOther(s, step);
      }
    } else {
      KeepsOther(s, step);
    }
  }

  lemma KeepsOther(s: State, step: Step)
    requires TablesOk(s) && (step.Process? ==> InHand(s, step.worker) == [])
    ensures Keeps(s, Apply(s, step))
  {
    hide ApplyProcess, IsBatch, ClaimTx;
    var s' := Apply(s, step);
    forall id | id in s.source
      ensures Among(s'.source, s.source[id])
    {
      StillThere(s.source, s'.source, id);
    }
    forall id | id in s.deadSource
      ensures var n := s.deadSource[id]; Among(s'.deadSource, n) || Among(s'.source, n) || n in s'.deleted
    {
      if id in s'.deadSource {
        StillThere(s.deadSource, s'.deadSource, id);
      } else if step.Replay? {
        assert s'.source[s.t.nextRow] == s.deadSource[id];
      }
    }
  }

  lemma InsertedGrows(s: State, step: Step)
    ensures var s' := Apply(s, step);
            if step.Insert? then |s'.inserted| == |s.inserted| + 1 && Among(s'.source, |s.inserted|)
            else s'.inserted == s.inserted
  {
    if step.Insert? {
      assert Apply(s, step).source[s.t.nextRow] == |s.inserted|;
    }
  }

  lemma CoveredStep(s: State, step: Step)
    requires TablesOk(s) && Covered(s)
    ensures Covered(Apply(s, step))
  {
    hide Apply, TablesOk;
    var s' := Apply(s, step);
    KeepsStep(s, step);
    InsertedGrows(s, step);
  }

  /** The invariant holds in every run of any number of workers, replays, crashes and operators. */
  lemma {:induction false} InvRun(steps: seq<Step>)
    ensures Inv(Run(steps))
  {
    if |steps| != 0 {
      var s, step := Run(steps[..|steps| - 1]), steps[|steps| - 1];
      InvRun(steps[..|steps| - 1]);
      TablesStep(s, step);
      HandsStep(s, step);
      CallsStep(s, step);
      CoveredStep(s, step);
    }
  }

  // ---- What every run guarantees ----

  /** No event is in the hands of two workers at once, or twice in the hands of one. */
  lemma NoEventClaimedTwice(steps: seq<Step>, w: int, i: nat, v: int, j: nat)
    requires w in Run(steps).hands && v in Run(steps).hands
    requires i < |Run(steps).hands[w]| && j < |Run(steps).hands[v]|
    requires Run(steps).hands[w][i].id == Run(steps).hands[v][j].id
    ensures w == v && i == j
  {
    hide Run, TablesOk, CallsOk, Covered;
    InvRun(steps);
  }

  /** Every committed row is below the retry limit and never FAILED, and carries what was inserted. */
  lemma CommittedRows(steps: seq<Step>, id: int)
    requires id in Run(steps).t.rows
    ensures var s := Run(steps);
            && 0 <= s.t.rows[id].retries < MAX_RETRIES && s.t.rows[id].status != Failed
            && s.t.rows[id].payload in s.inserted
  {
    hide Run, HandsOk, CallsOk, Covered;
    InvRun(steps);
    var s := Run(steps);
    assert s.inserted[s.source[id]] == s.t.rows[id].payload;
  }

  /**
   * The bus is called at most five times for an event, acknowledges at most one of the calls,
   * and is not called again after that.
   */
  lemma DeliveredAtMostOnce(steps: seq<Step>, id: int)
    ensures Calls(Run(steps).calls, id) <= 5 && NoCallAfterAck(Run(steps).calls)
  {
    hide Run, TablesOk, HandsOk, Covered;
    InvRun(steps);
    assert CallsOf(Run(steps), id);
  }

  /**
   * No payload is lost: each one inserted is in the outbox or in the dead-letter queue, unless an
   * operator deleted its dead letter.
   */
  lemma NothingIsLost(steps: seq<Step>, n: nat)
    requires n < |Run(steps).inserted| && n !in Run(steps).deleted
    ensures var s := Run(steps);
            || (exists id :: id in s.t.rows && s.t.rows[id].payload == s.inserted[n])
            || (exists id :: id in s.t.dead && s.t.dead[id] == s.inserted[n])
  {
    hide Run, HandsOk, CallsOk;
    InvRun(steps);
    var s := Run(steps);
    if Among(s.source, n) {
      var id :| id in s.source && s.source[id] == n;
      assert id in s.t.rows && s.t.rows[id].payload == s.inserted[n];
    } else {
      var id :| id in s.deadSource && s.deadSource[id] == n;
      assert id in s.t.dead && s.t.dead[id] == s.inserted[n];
    }
  }

  /** A row that a crash leaves PROCESSING and in nobody's hands. */
  predicate Stranded(s: State, id: int)
  {
    id in s.t.rows && s.t.rows[id].status == Processing && !Held(s, id)
  }

  lemma StrandedStays(s: State, step: Step, id: int)
    requires TablesOk(s) && HandsOk(s) && Stranded(s, id)
    ensures Stranded(Apply(s, step), id) && Apply(s, step).t.rows[id] == s.t.rows[id]
  {
  }

  /** Such a row is never claimed again: it stays exactly as it is in every continuation of the run. */
  lemma {:induction false} StrandedForever(steps: seq<Step>, more: seq<Step>, id: int)
    requires Stranded(Run(steps), id)
    ensures Stranded(Run(steps + more), id) && Run(steps + more).t.rows[id] == Run(steps).t.rows[id]
  {
    hide Apply, Stranded, TablesOk, HandsOk, CallsOk, Covered;
    if |more| == 0 {
      assert steps + more == steps;
    } else {
      var all := steps + more;
      assert all[..|all| - 1] == steps + more[..|more| - 1];
      StrandedForever(steps, more[..|more| - 1], id);
      InvRun(all[..|all| - 1]);
      StrandedStays(Run(all[..|all| - 1]), all[|all| - 1], id);
    }
  }
}
