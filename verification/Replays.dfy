/** When replaying dead letters moves them, and when it makes copies. */
module Replays {
  import opened Basics
  import opened Outbox

  /** Where an inserted event can be: a row, a dead letter, or a dead letter that an operator deleted. */
  datatype Place = InOutbox(id: int) | InQueue(id: int) | Gone(k: int)

  predicate Occupied(s: State, p: Place)
  {
    match p
    case InOutbox(id) => id in s.source
    case InQueue(id) => id in s.deadSource
    case Gone(k) => 0 <= k < |s.deleted|
  }

  /** The number of the insertion that a place holds. */
  function NumberAt(s: State, p: Place): int
    requires Occupied(s, p)
  {
    match p
    case InOutbox(id) => s.source[id]
    case InQueue(id) => s.deadSource[id]
    case Gone(k) => s.deleted[k]
  }

  predicate Same(s: State, a: Place, b: Place)
  {
    Occupied(s, a) && Occupied(s, b) && NumberAt(s, a) == NumberAt(s, b)
  }

  /** No insertion is in two places. */
  ghost predicate Exact(s: State)
  {
    forall a, b :: Same(s, a, b) ==> a == b
  }

  /** A replay whose dead letter is gone by the time it writes. */
  predicate Stale(s: State, step: Step)
  {
    step.Replay? && step.reader in s.readings && s.readings[step.reader].id !in s.t.dead
  }

  // ---- Where a step moves what was in a place ----

  predicate Moves(s: State, step: Step)
  {
    match step
    case Process(worker, o) =>
      InHand(s, worker) != [] &&
      var ev := s.hands[worker][0]; ev.id in s.source && ev.id !in ProcessTx(s.t, ev, o).rows
    case Delete(id) => id in s.deadSource
    case Replay(reader, _) => reader in s.readings
    case _ => false
  }

  function From(s: State, step: Step): Place
    requires Moves(s, step)
  {
    match step
    case Process(worker, _) => InOutbox(s.hands[worker][0].id)
    case Delete(id) => InQueue(id)
    case Replay(reader, _) => InQueue(s.readings[reader].id)
  }

  function Target(s: State, step: Step): Place
    requires Moves(s, step)
  {
    match step
    case Process(_, _) => InQueue(s.t.nextDead)
    case Delete(_) => Gone(|s.deleted|)
    case Replay(_, _) => InOutbox(s.t.nextRow)
  }

  function Track(s: State, step: Step, p: Place): Place
  {
    if Moves(s, step) && p == From(s, step) then Target(s, step) else p
  }

  lemma TargetIsNew(s: State, step: Step)
    requires TablesOk(s) && Moves(s, step)
    ensures !Occupied(s, Target(s, step))
  {
  }

  /** Whatever was in a place is, after the step, in the place it was moved to. */
  lemma TrackKeeps(s: State, step: Step, p: Place)
    requires TablesOk(s) && Occupied(s, p)
    ensures Occupied(Apply(s, step), Track(s, step, p))
    ensures NumberAt(Apply(s, step), Track(s, step, p)) == NumberAt(s, p)
  {
    hide IsBatch, ClaimTx;
  }

  /** Where it was before the step. */
  function Origin(s: State, step: Step, p: Place): Place
  {
    if Moves(s, step) && p == Target(s, step) then From(s, step) else p
  }

  /** A place that an insertion or a stale replay fills with something that nothing was moved from. */
  predicate Fresh(s: State, step: Step, p: Place)
  {
    p == InOutbox(s.t.nextRow) && (step.Insert? || Stale(s, step))
  }

  lemma OriginKeeps(s: State, step: Step, p: Place)
    requires TablesOk(s) && HandsOk(s) && Occupied(Apply(s, step), p) && !Fresh(s, step, p)
    ensures Occupied(s, Origin(s, step, p)) && Track(s, step, Origin(s, step, p)) == p
  {
    hide IsBatch, ClaimTx, NoSharing;
  }

  lemma NumberIsOld(s: State, p: Place)
    requires TablesOk(s) && Occupied(s, p)
    ensures 0 <= NumberAt(s, p) < |s.inserted|
  {
  }

  // ---- Exactness, step by step ----

  lemma CopiesStay(s: State, step: Step, a: Place, b: Place)
    requires TablesOk(s) && Same(s, a, b) && a != b
    ensures !Exact(Apply(s, step))
  {
    hide Apply, TablesOk, Moves;
    TrackKeeps(s, step, a);
    TrackKeeps(s, step, b);
    if Moves(s, step) {
      TargetIsNew(s, step);
    }
    assert Same(Apply(s, step), Track(s, step, a), Track(s, step, b));
  }

  /** A stale replay copies: its insertion is somewhere already. */
  lemma StaleCopies(s: State, step: Step)
    requires TablesOk(s) && Covered(s) && Stale(s, step)
    ensures !Exact(Apply(s, step))
  {
    hide TablesOk;
    var copy, n := InOutbox(s.t.nextRow), s.readings[step.reader].source;
    StaleNumber(s, step);
    var a := Holder(s, n);
    TrackKeeps(s, step, a);
    assert Same(Apply(s, step), Track(s, step, a), copy);
  }

  lemma StaleNumber(s: State, step: Step)
    requires TablesOk(s) && Stale(s, step)
    ensures var n, copy := s.readings[step.reader].source, InOutbox(s.t.nextRow);
            && 0 <= n < |s.inserted| && !Occupied(s, copy) && !Occupied(s, From(s, step))
            && Occupied(Apply(s, step), copy) && NumberAt(Apply(s, step), copy) == n
  {
  }

  lemma Holder(s: State, n: int) returns (p: Place)
    requires Covered(s) && 0 <= n < |s.inserted|
    ensures Occupied(s, p) && NumberAt(s, p) == n
  {
    if Among(s.source, n) {
      var id :| id in s.source && s.source[id] == n;
      p := InOutbox(id);
    } else if Among(s.deadSource, n) {
      var id :| id in s.deadSource && s.deadSource[id] == n;
      p := InQueue(id);
    } else {
      var k :| 0 <= k < |s.deleted| && s.deleted[k] == n;
      p := Gone(k);
    }
  }

  lemma NoCopies(s: State, step: Step, a: Place, b: Place)
    requires TablesOk(s) && HandsOk(s) && Exact(s) && !Stale(s, step) && Same(Apply(s, step), a, b)
    ensures a == b
  {
    hide Apply, TablesOk, HandsOk, Exact;
    var s' := Apply(s, step);
    if !Fresh(s, step, a) && !Fresh(s, step, b) {
      OriginKeeps(s, step, a);
      OriginKeeps(s, step, b);
      TrackKeeps(s, step, Origin(s, step, a));
      TrackKeeps(s, step, Origin(s, step, b));
      ExactMeans(s, Origin(s, step, a), Origin(s, step, b));
    } else if a != b {
      var other := if Fresh(s, step, a) then b else a;
      InsertNumber(s, step);
      OriginKeeps(s, step, other);
      TrackKeeps(s, step, Origin(s, step, other));
      NumberIsOld(s, Origin(s, step, other));
      assert false;
    }
  }

  lemma ExactMeans(s: State, a: Place, b: Place)
    requires Exact(s) && Same(s, a, b)
    ensures a == b
  {
  }

  lemma InsertNumber(s: State, step: Step)
    requires step.Insert?
    ensures var p := InOutbox(s.t.nextRow); Occupied(Apply(s, step), p) && NumberAt(Apply(s, step), p) == |s.inserted|
  {
  }

  /** Of all steps exactly the stale replays make copies, and no step removes one. */
  lemma StepIsExact(s: State, step: Step)
    requires Inv(s)
    ensures Exact(Apply(s, step)) <==> Exact(s) && !Stale(s, step)
  {
    hide Apply, TablesOk, HandsOk, CallsOk, Covered, Stale, Same;
    if Stale(s, step) {
      StaleCopies(s, step);
    } else if a, b :| Same(s, a, b) && a != b {
      CopiesStay(s, step, a, b);
    } else {
      forall a, b | Same(Apply(s, step), a, b)
        ensures a == b
      {
        NoCopies(s, step, a, b);
      }
    }
  }

  /**
   * In every run each insertion is in exactly one place -- the outbox, the dead-letter queue or
   * the operator's bin -- if and only if no replay wrote after its dead letter was gone.
   */
  lemma {:induction false} ExactlyOnceExactly(steps: seq<Step>)
    ensures Exact(Run(steps)) <==> forall k :: 0 <= k < |steps| ==> !Stale(Run(steps[..k]), steps[k])
  {
    hide Apply, Inv, Stale, Exact;
    if |steps| == 0 {
      NothingTwice();
    } else {
      var front, last := steps[..|steps| - 1], steps[|steps| - 1];
      ExactlyOnceExactly(front);
      InvRun(front);
      StepIsExact(Run(front), last);
      assert forall k :: 0 <= k < |front| ==> steps[..k] == front[..k];
    }
  }

  lemma NothingTwice()
    ensures Exact(INIT)
  {
    assert forall p :: !Occupied(INIT, p);
  }

  lemma RunTwo(steps: seq<Step>, a: Step, b: Step)
    ensures Run(steps + [a, b]) == Apply(Apply(Run(steps), a), b)
  {
    hide Apply;
    assert (steps + [a, b])[..|steps| + 1] == steps + [a];
    assert (steps + [a])[..|steps|] == steps;
  }

  /** Two overlapping replays of one dead letter put its payload into the outbox twice. */
  lemma OverlappingReplaysDuplicate(steps: seq<Step>, a: int, b: int, id: int, named: string)
    requires id in Run(steps).t.dead && a != b
    ensures var s, s' := Run(steps), Run(steps + [Read(a, id), Read(b, id)] + [Replay(a, named), Replay(b, named)]);
            && !Exact(s')
            && s'.t.rows == s.t.rows[s.t.nextRow := Row(ReplayStream(named), s.t.dead[id], Pending, 0)]
                                    [s.t.nextRow + 1 := Row(ReplayStream(named), s.t.dead[id], Pending, 0)]
  {
    hide Run, Exact, HandsOk, CallsOk, Covered;
    var s, both := Run(steps), steps + [Read(a, id), Read(b, id)];
    InvRun(steps);
    RunTwo(steps, Read(a, id), Read(b, id));
    RunTwo(both, Replay(a, named), Replay(b, named));
    var once := Apply(Run(both), Replay(a, named));
    RunOne(both, Replay(a, named));
    InvRun(both + [Replay(a, named)]);
    assert Stale(once, Replay(b, named));
    StepIsExact(once, Replay(b, named));
  }

  lemma RunOne(steps: seq<Step>, a: Step)
    ensures Run(steps + [a]) == Apply(Run(steps), a)
  {
    assert (steps + [a])[..|steps|] == steps;
  }

  /** A replay that had read its dead letter before an operator deleted it brings the payload back. */
  lemma DeletedComesBack(steps: seq<Step>, a: int, id: int, named: string)
    requires id in Run(steps).t.dead
    ensures var s, s' := Run(steps), Run(steps + [Read(a, id), Delete(id)] + [Replay(a, named)]);
            && !Exact(s')
            && s'.t.rows == s.t.rows[s.t.nextRow := Row(ReplayStream(named), s.t.dead[id], Pending, 0)]
  {
    hide Run, Exact, HandsOk, CallsOk, Covered;
    var both := steps + [Read(a, id), Delete(id)];
    InvRun(steps);
    RunTwo(steps, Read(a, id), Delete(id));
    RunOne(both, Replay(a, named));
    InvRun(both);
    assert Stale(Run(both), Replay(a, named));
    StepIsExact(Run(both), Replay(a, named));
  }

  // ---- Dead letters, and so copies, do occur ----

  /** The first event waits in the outbox with `k` failures, and nobody holds anything. */
  predicate Queued(s: State, payload: string, k: nat)
  {
    && 1 in s.t.rows && s.t.rows[1].payload == payload && s.t.rows[1].status == Pending && s.t.rows[1].retries == k
    && InHand(s, 0) == []
  }

  const FAILURE: Outcome := Outcome(false, true)

  lemma FirstInsert(stream: string, payload: string)
    ensures Queued(Apply(INIT, Insert(stream, payload)), payload, 0)
  {
  }

  lemma FailOnce(s: State, payload: string, k: nat)
    requires Queued(s, payload, k)
    ensures var s' := Apply(Apply(s, Claim(0, [1])), Process(0, FAILURE));
            if k + 1 < MAX_RETRIES then Queued(s', payload, k + 1)
            else s.t.nextDead in s'.t.dead && s'.t.dead[s.t.nextDead] == payload
  {
    var claimed := Apply(s, Claim(0, [1]));
    assert IsBatch(s.t, [1]) && claimed.hands[0] == [Claimed(1, payload)];
  }

  lemma {:induction false} FailTimes(stream: string, payload: string, k: nat) returns (steps: seq<Step>)
    requires k < MAX_RETRIES
    ensures Queued(Run(steps), payload, k)
  {
    hide Queued, Apply;
    if k == 0 {
      FirstInsert(stream, payload);
      steps := [] + [Insert(stream, payload)];
      RunOne([], Insert(stream, payload));
    } else {
      var front := FailTimes(stream, payload, k - 1);
      FailOnce(Run(front), payload, k - 1);
      RunTwo(front, Claim(0, [1]), Process(0, FAILURE));
      steps := front + [Claim(0, [1]), Process(0, FAILURE)];
    }
  }

  /** Five failures make a dead letter of any payload. */
  lemma DeadLettersHappen(stream: string, payload: string) returns (steps: seq<Step>, id: int)
    ensures id in Run(steps).t.dead && Run(steps).t.dead[id] == payload
  {
    hide Apply, Queued;
    var front := FailTimes(stream, payload, MAX_RETRIES - 1);
    FailOnce(Run(front), payload, MAX_RETRIES - 1);
    RunTwo(front, Claim(0, [1]), Process(0, FAILURE));
    steps, id := front + [Claim(0, [1]), Process(0, FAILURE)], Run(front).t.nextDead;
  }

  /** So some run puts one insertion into two places. */
  lemma CopiesHappen() returns (steps: seq<Step>)
    ensures !Exact(Run(steps))
  {
    hide Run, Exact;
    var front, id := DeadLettersHappen("", "");
    OverlappingReplaysDuplicate(front, 0, 1, id, "");
    steps := front + [Read(0, id), Read(1, id)] + [Replay(0, ""), Replay(1, "")];
  }
}
