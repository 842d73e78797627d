/** Event sourcing of one payment: saving events with snapshots, and replaying them. */
module EventSource {
  import opened Basics

  /** A decoded payload. `Malformed` is JSON that does not decode. */
  datatype Data =
    | Malformed
    | Fields(txn: string, sender: string, receiver: string, amount: int, nonce: string, token: string)
    | Note(hops: Option<int>, reason: Option<string>)

  datatype Kind =
    | IntentCreated | IntentSigned | IntentEncrypted | IntentRelayed | IntentValidated
    | IntentReserved | IntentSettled | IntentRejected | IntentFailed | OtherKind

  datatype Event = Event(kind: Kind, version: int, data: Data, at: int)

  datatype Phase =
    | NoPhase | Created | Signed | Encrypted | Relayed | Validated | Reserved | Settled | Rejected | Failed

  datatype Aggregate = Aggregate(txn: string, sender: string, receiver: string, amount: int, nonce: string,
                                 token: string, phase: Phase, hops: int, reason: Option<string>,
                                 settledAt: Option<int>, rejectedAt: Option<int>, createdAt: int, updatedAt: int)

  const EMPTY: Aggregate := Aggregate("", "", "", 0, "", "", NoPhase, 0, None, None, None, 0, 0)

  datatype Snapshot = Snapshot(version: int, aggregate: Aggregate)

  function WithReason(a: Aggregate, data: Data): Aggregate
  {
    if data.Note? && data.reason.Some? then a.(reason := data.reason) else a
  }

  /** What a created event's payload decodes to: an object without these fields leaves them empty. */
  function Decoded(data: Data): Option<Data>
  {
    match data
    case Fields(_, _, _, _, _, _) => Some(data)
    case Note(_, _) => Some(Fields("", "", "", 0, "", ""))
    case Malformed => None
  }

  /** `applyEvent`: only a created event can fail, on a payload that does not decode. */
  function ApplyEvent(a0: Aggregate, ev: Event): Option<Aggregate>
  {
    var a := a0.(updatedAt := ev.at);
    match ev.kind
    case IntentCreated =>
      if Decoded(ev.data).None? then None
      else
        var d := Decoded(ev.data).value;
        Some(a.(txn := d.txn, sender := d.sender, receiver := d.receiver, amount := d.amount,
                nonce := d.nonce, token := d.token, phase := Created, createdAt := ev.at))
    case IntentSigned => Some(a.(phase := Signed))
    case IntentEncrypted => Some(a.(phase := Encrypted))
    case IntentRelayed =>
      Some((if ev.data.Note? && ev.data.hops.Some? then a.(hops := ev.data.hops.value) else a).(phase := Relayed))
    case IntentValidated => Some(a.(phase := Validated))
    case IntentReserved => Some(a.(phase := Reserved))
    case IntentSettled => Some(a.(settledAt := Some(ev.at), phase := Settled))
    case IntentRejected => Some(WithReason(a, ev.data).(rejectedAt := Some(ev.at), phase := Rejected))
    case IntentFailed => Some(WithReason(a, ev.data).(rejectedAt := Some(ev.at), phase := Failed))
    case OtherKind => Some(a)
  }

  /** Apply all the events, in order. */
  function Fold(a: Aggregate, events: seq<Event>): Option<Aggregate>
  {
    if |events| == 0 then Some(a)
    else
      var before := Fold(a, events[..|events| - 1]);
      if before.None? then None else ApplyEvent(before.value, events[|events| - 1])
  }

  /** The events with a version above `v`. */
  function Above(events: seq<Event>, v: int): seq<Event>
  {
    if |events| == 0 then []
    else
      var last := events[|events| - 1];
      Above(events[..|events| - 1], v) + if last.version <= v then [] else [last]
  }

  // ---- The manager of one aggregate's stream ----

  class EventSourceManager {
    const interval: int
    var events: seq<Event>
    var snapshot: Option<Snapshot>

    constructor (snapshotInterval: int)
      ensures interval > 0 && (snapshotInterval > 0 ==> interval == snapshotInterval)
      ensures events == [] && snapshot == None
    {
      interval := if snapshotInterval <= 0 then 5 else snapshotInterval;
      events, snapshot := [], None;
    }

    /** Append the event; every `interval`th version, snapshot the aggregate the caller passes, if any. */
    method SaveEventAndSnapshot(ev: Event, current: Option<Aggregate>)
      requires interval > 0
      modifies this
      ensures events == old(events) + [ev]
      ensures snapshot == if GoRemainder(ev.version, interval) == 0 && current.Some?
                          then Some(Snapshot(ev.version, current.value)) else old(snapshot)
    {
      events := events + [ev];
      if GoRemainder(ev.version, interval) == 0 && current.Some? {
        snapshot := Some(Snapshot(ev.version, current.value));
      }
    }

    /** Load the snapshot, then apply the events it does not cover; `None` is an error. */
    method Replay() returns (r: Option<Aggregate>)
      ensures var (a0, v) := Base(snapshot);
              var folded := Fold(a0, Above(events, v));
              r == if folded.Some? && folded.value.txn == "" && events == [] then None else folded
    {
      var intent, startVersion := EMPTY, 0;
      if snapshot.Some? {
        intent, startVersion := snapshot.value.aggregate, snapshot.value.version;
      }
      ghost var a0 := intent;
      for i := 0 to |events|
        invariant Fold(a0, Above(events[..i], startVersion)) == Some(intent)
      {
        assert events[..i + 1][..i] == events[..i];
        AboveAppend(events[..i + 1], startVersion);
        assert Above(events[..i], startVersion) + [] == Above(events[..i], startVersion);
        if events[i].version > startVersion {
          var next := ApplyEvent(intent, events[i]);
          FoldAppend(a0, Above(events[..i], startVersion), events[i]);
          if next.None? {
            FoldStaysFailed(a0, events, i + 1, startVersion);
            return None;
          }
          intent := next.value;
        }
      }
      assert events[..|events|] == events;
      if intent.txn == "" && |events| == 0 {
        return None;
      }
      return Some(intent);
    }
  }

  function Base(snapshot: Option<Snapshot>): (Aggregate, int)
  {
    if snapshot.Some? then (snapshot.value.aggregate, snapshot.value.version) else (EMPTY, 0)
  }

  /** Go's `%`, which takes the sign of the dividend; it is 0 exactly when `y` divides `x`. */
  function GoRemainder(x: int, y: int): (r: int)
    requires y > 0
    ensures -y < r < y && (x >= 0 ==> r >= 0) && (x <= 0 ==> r <= 0)
  {
    if x >= 0 then x % y else -((-x) % y)
  }

  lemma RemainderOfOne(y: int)
    requires y > 1
    ensures GoRemainder(1, y) == 1
  {
  }

  lemma AboveAppend(events: seq<Event>, v: int)
    requires |events| > 0
    ensures var last := events[|events| - 1];
            Above(events, v) == Above(events[..|events| - 1], v) + if last.version <= v then [] else [last]
  {
  }

  lemma FoldAppend(a: Aggregate, events: seq<Event>, ev: Event)
    ensures Fold(a, events + [ev]) ==
            if Fold(a, events).None? then None else ApplyEvent(Fold(a, events).value, ev)
  {
  }

  /** Once an event has failed to apply, the whole fold fails. */
  lemma {:induction false} FoldStaysFailed(a: Aggregate, events: seq<Event>, i: nat, v: int)
    requires i <= |events| && Fold(a, Above(events[..i], v)) == None
    ensures Fold(a, Above(events, v)) == None
    decreases |events| - i
  {
    if i == |events| {
      assert events[..i] == events;
    } else {
      assert events[..i + 1][..i] == events[..i];
      FoldAppend(a, Above(events[..i], v), events[i]);
      assert Above(events[..i], v) + [] == Above(events[..i], v);
      FoldStaysFailed(a, events, i + 1, v);
    }
  }

  // ---- Replaying from a snapshot is replaying from the beginning ----

  lemma {:induction false} FoldConcat(a: Aggregate, front: seq<Event>, back: seq<Event>)
    ensures Fold(a, front + back) == if Fold(a, front).None? then None else Fold(Fold(a, front).value, back)
    decreases |back|
  {
    if |back| == 0 {
      assert front + back == front;
    } else {
      assert (front + back)[..|front + back| - 1] == front + back[..|back| - 1];
      FoldConcat(a, front, back[..|back| - 1]);
    }
  }

  lemma {:induction false} AboveConcat(front: seq<Event>, back: seq<Event>, v: int)
    requires forall e :: e in front ==> e.version <= v
    requires forall e :: e in back ==> e.version > v
    ensures Above(front + back, v) == back
    decreases |back|, |front|
  {
    if |back| == 0 {
      assert front + back == front;
      if |front| != 0 {
        assert front[..|front| - 1] + [] == front[..|front| - 1];
        AboveConcat(front[..|front| - 1], [], v);
      }
    } else {
      assert (front + back)[..|front + back| - 1] == front + back[..|back| - 1];
      AboveConcat(front, back[..|back| - 1], v);
    }
  }

  lemma {:induction false} AboveShrinks(events: seq<Event>, v: int)
    ensures |Above(events, v)| <= |events|
  {
    if |events| != 0 {
      AboveShrinks(events[..|events| - 1], v);
    }
  }

  lemma {:induction false} AboveLoses(events: seq<Event>, v: int, i: nat)
    requires i < |events| && events[i].version <= v
    ensures |Above(events, v)| < |events|
  {
    AboveShrinks(events[..|events| - 1], v);
    if i < |events| - 1 {
      AboveLoses(events[..|events| - 1], v, i);
    }
  }

  /** The replay skips none of the events after the snapshot exactly when all of them have a higher version. */
  lemma SkipsNothingExactly(events: seq<Event>, v: int)
    ensures Above(events, v) == events <==> forall i :: 0 <= i < |events| ==> events[i].version > v
  {
    hide Above;
    if i :| 0 <= i < |events| && events[i].version <= v {
      AboveLoses(events, v, i);
    } else {
      AboveConcat([], events, v);
      assert [] + events == events;
    }
  }

  predicate Increasing(events: seq<Event>)
  {
    && (forall i :: 0 <= i < |events| ==> events[i].version > 0)
    && (forall i, j :: 0 <= i < j < |events| ==> events[i].version < events[j].version)
  }

  /** The snapshot, if any, was taken with the first `n` events in the store, and carries the version of the last. */
  predicate SnapshotAt(snapshot: Option<Snapshot>, events: seq<Event>, n: nat)
  {
    if snapshot.None? then n == 0 else 0 < n <= |events| && snapshot.value.version == events[n - 1].version
  }

  /** The snapshot, if any, is what those events amount to. */
  predicate Truthful(snapshot: Option<Snapshot>, events: seq<Event>, n: nat)
    requires n <= |events|
  {
    snapshot.Some? ==> Fold(EMPTY, events[..n]) == Some(snapshot.value.aggregate)
  }

  /** With increasing versions, replay applies to the snapshot exactly the events saved after it. */
  lemma ReplayAppliesTheRest(snapshot: Option<Snapshot>, events: seq<Event>, n: nat)
    requires Increasing(events) && SnapshotAt(snapshot, events, n)
    ensures Above(events, Base(snapshot).1) == events[n..]
  {
    var front, back := events[..n], events[n..];
    assert events == front + back;
    AboveConcat(front, back, Base(snapshot).1);
  }

  /** Skipping the events that a truthful snapshot covers loses nothing. */
  lemma SnapshotReplayIsFullReplay(snapshot: Option<Snapshot>, events: seq<Event>, n: nat)
    requires Increasing(events) && SnapshotAt(snapshot, events, n) && Truthful(snapshot, events, n)
    ensures Fold(Base(snapshot).0, Above(events, Base(snapshot).1)) == Fold(EMPTY, events)
  {
    hide Above, Increasing;
    ReplayAppliesTheRest(snapshot, events, n);
    assert events == events[..n] + events[n..];
    FoldConcat(EMPTY, events[..n], events[n..]);
  }

  /** Only a truthful snapshot is safe: whatever follows, replay is right if and only if it is. */
  lemma OnlyTruthfulSnapshotsAreSafe(aggregate: Aggregate, covered: seq<Event>)
    ensures Fold(EMPTY, covered) == Some(aggregate) <==>
            forall later :: Fold(aggregate, later) == Fold(EMPTY, covered + later)
  {
    if Fold(EMPTY, covered) == Some(aggregate) {
      forall later
        ensures Fold(aggregate, later) == Fold(EMPTY, covered + later)
      {
        FoldConcat(EMPTY, covered, later);
      }
    } else {
      assert covered + [] == covered;
      assert Fold(aggregate, []) != Fold(EMPTY, covered + []);
    }
  }

  // ---- The streams that callers write ----

  /** An event and the aggregate that the caller passes with it, if any; nothing says it is the right one. */
  datatype Save = Save(ev: Event, current: Option<Aggregate>)

  datatype Stream = Stream(events: seq<Event>, snapshot: Option<Snapshot>, covered: nat)

  function Write(st: Stream, save: Save, interval: int): Stream
    requires interval > 0
  {
    var events := st.events + [save.ev];
    if GoRemainder(save.ev.version, interval) == 0 && save.current.Some?
    then Stream(events, Some(Snapshot(save.ev.version, save.current.value)), |events|)
    else st.(events := events)
  }

  function WriteAll(saves: seq<Save>, interval: int): Stream
    requires interval > 0
  {
    if |saves| == 0 then Stream([], None, 0)
    else Write(WriteAll(saves[..|saves| - 1], interval), saves[|saves| - 1], interval)
  }

  function Versions(saves: seq<Save>): seq<Event>
  {
    seq(|saves|, i requires 0 <= i < |saves| => saves[i].ev)
  }

  lemma {:induction false} WriteAllCovers(saves: seq<Save>, interval: int)
    requires interval > 0
    ensures var st := WriteAll(saves, interval);
            st.events == Versions(saves) && SnapshotAt(st.snapshot, st.events, st.covered)
  {
    hide GoRemainder;
    if |saves| != 0 {
      var before := WriteAll(saves[..|saves| - 1], interval);
      WriteAllCovers(saves[..|saves| - 1], interval);
      assert Versions(saves) == before.events + [saves[|saves| - 1].ev];
    }
  }

  /**
   * Whatever callers save with increasing versions, replay gives what folding every event gives,
   * provided the aggregate of the last snapshot was the right one.
   */
  lemma ReplayIsFaithful(saves: seq<Save>, interval: int)
    requires interval > 0 && Increasing(Versions(saves))
    requires var st := WriteAll(saves, interval);
             st.covered <= |st.events| && Truthful(st.snapshot, st.events, st.covered)
    ensures var st := WriteAll(saves, interval);
            Fold(Base(st.snapshot).0, Above(st.events, Base(st.snapshot).1)) == Fold(EMPTY, Versions(saves))
  {
    hide WriteAll, Fold, Above, Increasing, Truthful;
    var st := WriteAll(saves, interval);
    WriteAllCovers(saves, interval);
    SnapshotReplayIsFullReplay(st.snapshot, st.events, st.covered);
  }

  // ---- When snapshots come every `interval` events ----

  /** The save makes the manager take a snapshot. */
  predicate Takes(save: Save, interval: int)
    requires interval > 0
  {
    GoRemainder(save.ev.version, interval) == 0 && save.current.Some?
  }

  /** The number of events that a snapshot after every `interval` of them covers, out of `k`. */
  function Due(k: nat, interval: int): int
    requires interval > 0
  {
    k - k % interval
  }

  predicate IsDue(k: nat, interval: int)
    requires interval > 0
  {
    k % interval == 0
  }

  lemma {:induction false} MultiplesAreApart(n: int, a: int, b: int)
    requires n > 0
    ensures a > b ==> n * a >= n * b + n
    decreases a - b
  {
    if a > b {
      MultiplesAreApart(n, a - 1, b);
      assert n * a == n * (a - 1) + n;
    }
  }

  lemma QuotientIsUnique(n: int, q: int, r: int)
    requires n > 0 && 0 <= r < n
    ensures (n * q + r) % n == r
  {
    var x := n * q + r;
    assert x == n * (x / n) + x % n;
    MultiplesAreApart(n, x / n, q);
    MultiplesAreApart(n, q, x / n);
  }

  lemma DueStep(k: nat, interval: int)
    requires interval > 0
    ensures 0 <= Due(k, interval) <= k && IsDue(0, interval) && Due(0, interval) == 0
    ensures Due(k + 1, interval) == if IsDue(k + 1, interval) then k + 1 else Due(k, interval)
  {
    var q, r := k / interval, k % interval;
    assert k == interval * q + r;
    if r + 1 < interval {
      QuotientIsUnique(interval, q, r + 1);
    } else {
      QuotientIsUnique(interval, q + 1, 0);
      assert interval * (q + 1) == interval * q + interval;
    }
    QuotientIsUnique(interval, 0, 0);
  }

  lemma CoveredStep(saves: seq<Save>, interval: int, k: nat)
    requires interval > 0 && k < |saves|
    ensures WriteAll(saves[..k + 1], interval).covered ==
            if Takes(saves[k], interval) then k + 1 else WriteAll(saves[..k], interval).covered
  {
    hide GoRemainder;
    assert saves[..k + 1][..k] == saves[..k];
    WriteAllCovers(saves[..k], interval);
  }

  /** After every number of saves, the snapshot covers all but the last few events, fewer than `interval`. */
  ghost predicate OnTime(saves: seq<Save>, interval: int)
    requires interval > 0
  {
    forall k :: 0 <= k <= |saves| ==> WriteAll(saves[..k], interval).covered == Due(k, interval)
  }

  /** The `i`th save, counted from 1, makes a snapshot exactly if `interval` divides `i`. */
  predicate TakesOnTime(saves: seq<Save>, interval: int)
    requires interval > 0
  {
    forall i :: 0 <= i < |saves| ==> (Takes(saves[i], interval) <==> IsDue(i + 1, interval))
  }

  lemma {:induction false} TakenOnTime(saves: seq<Save>, interval: int, k: nat)
    requires interval > 0 && TakesOnTime(saves, interval) && k <= |saves|
    ensures WriteAll(saves[..k], interval).covered == Due(k, interval)
  {
    hide Takes, Due, IsDue;
    if k == 0 {
      DueStep(0, interval);
    } else {
      TakenOnTime(saves, interval, k - 1);
      CoveredStep(saves, interval, k - 1);
      DueStep(k - 1, interval);
    }
  }

  /**
   * Snapshots come after every `interval` events if and only if the saves that make one -- a
   * version that `interval` divides, with an aggregate -- are exactly every `interval`th save.
   */
  lemma SnapshotsOnTimeExactly(saves: seq<Save>, interval: int)
    requires interval > 0
    ensures OnTime(saves, interval) <==> TakesOnTime(saves, interval)
  {
    hide Takes, Due, IsDue, WriteAll;
    if TakesOnTime(saves, interval) {
      forall k | 0 <= k <= |saves|
        ensures WriteAll(saves[..k], interval).covered == Due(k, interval)
      {
        TakenOnTime(saves, interval, k);
      }
    }
    if OnTime(saves, interval) {
      forall i | 0 <= i < |saves|
        ensures Takes(saves[i], interval) <==> IsDue(i + 1, interval)
      {
        CoveredStep(saves, interval, i);
        DueStep(i, interval);
      }
    }
  }

  /** A caller that numbers its events 1, 2, 3, ... and always passes an aggregate gets them on time. */
  lemma NumberedSavesAreOnTime(saves: seq<Save>, interval: int)
    requires interval > 0
    requires forall i :: 0 <= i < |saves| ==> saves[i].ev.version == i + 1 && saves[i].current.Some?
    ensures OnTime(saves, interval)
  {
    hide OnTime;
    SnapshotsOnTimeExactly(saves, interval);
  }

  /**
   * The settlement service saves every event as version 1. With an interval above 1 it
   * therefore never takes a snapshot, and every replay is a full one.
   */
  lemma {:induction false} VersionOneNeverSnapshots(saves: seq<Save>, interval: int)
    requires interval > 1 && forall i :: 0 <= i < |saves| ==> saves[i].ev.version == 1
    ensures var st := WriteAll(saves, interval);
            st.snapshot == None && Fold(Base(st.snapshot).0, Above(st.events, Base(st.snapshot).1))
                == Fold(EMPTY, st.events)
  {
    hide GoRemainder, ApplyEvent;
    RemainderOfOne(interval);
    if |saves| != 0 {
      VersionOneNeverSnapshots(saves[..|saves| - 1], interval);
    }
    WriteAllCovers(saves, interval);
    SkipsNothingExactly(Versions(saves), 0);
  }

  /** Versions that repeat break replay: an event numbered like the snapshot is lost. */
  lemma RepeatedVersionIsLost()
    ensures var created := Event(IntentCreated, 1, Fields("t", "a", "b", 5, "n", "k"), 1);
            var settled := Event(IntentSettled, 1, Malformed, 2);
            var st := Write(WriteAll([Save(created, ApplyEvent(EMPTY, created))], 1), Save(settled, None), 1);
            && Truthful(st.snapshot, st.events, 1)
            && Fold(Base(st.snapshot).0, Above(st.events, Base(st.snapshot).1)) != Fold(EMPTY, st.events)
  {
    var created := Event(IntentCreated, 1, Fields("t", "a", "b", 5, "n", "k"), 1);
    var settled := Event(IntentSettled, 1, Malformed, 2);
    var save := Save(created, ApplyEvent(EMPTY, created));
    assert [save][..0] == [] && [created][..0] == [];
    assert [] + [created] == [created];
    assert Fold(EMPTY, [created]) == ApplyEvent(EMPTY, created);
    var first := Write(Stream([], None, 0), save, 1);
    assert WriteAll([save], 1) == first;
    var st := Write(first, Save(settled, None), 1);
    assert st.events == [created, settled];
    assert [created, settled][..1] == [created];
    assert Above([created, settled], 1) == Above([created], 1) + [] == [];
    assert Fold(EMPTY, st.events) == ApplyEvent(ApplyEvent(EMPTY, created).value, settled);
  }
}
