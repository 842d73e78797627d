/** What becomes of the rows of the outbox: published, and stranded, exactly when. */
module Deliveries {
  import opened Basics
  import opened Outbox

  // ---- Published ----

  /** The bus acknowledged the event and the worker recorded it. */
  predicate Recorded(calls: seq<Call>, id: int)
  {
    Call(id, true, true) in calls
  }

  predicate PublishedOk(s: State, id: int)
  {
    id in s.t.rows ==> (s.t.rows[id].status == Published <==> Recorded(s.calls, id))
  }

  lemma RecordedAppend(calls: seq<Call>, c: Call, id: int)
    ensures Recorded(calls + [c], id) <==> Recorded(calls, id) || c == Call(id, true, true)
  {
  }

  lemma LiveIsUnrecorded(s: State, id: int)
    requires CallsOk(s)
    ensures id >= s.t.nextRow ==> !Recorded(s.calls, id)
    ensures id in s.t.rows && (s.t.rows[id].status == Pending || Held(s, id)) ==> !Recorded(s.calls, id)
  {
    assert CallsOf(s, id);
  }

  lemma PublishedProcess(s: State, worker: int, o: Outcome, id: int)
    requires TablesOk(s) && HandsOk(s) && CallsOk(s) && InHand(s, worker) != [] && PublishedOk(s, id)
    ensures PublishedOk(ApplyProcess(s, worker, o), id)
  {
    hide TablesOk, CallsOk, NoSharing, Recorded;
    var ev := s.hands[worker][0];
    assert Held(s, ev.id);
    LiveIsUnrecorded(s, ev.id);
    RecordedAppend(s.calls, Call(ev.id, o.acked, o.recorded), id);
  }

  lemma PublishedStep(s: State, step: Step, id: int)
    requires Inv(s) && PublishedOk(s, id)
    ensures PublishedOk(Apply(s, step), id)
  {
    hide TablesOk, HandsOk, CallsOk, Covered, Recorded, ApplyProcess;
    LiveIsUnrecorded(s, id);
    if step.Process? && InHand(s, step.worker) != [] {
      PublishedProcess(s, step.worker, step.outcome, id);
    }
  }

  /** In every run a row is PUBLISHED if and only if a call for it was acknowledged and recorded. */
  lemma {:induction false} PublishedExactly(steps: seq<Step>, id: int)
    ensures PublishedOk(Run(steps), id)
  {
    hide Apply, Inv, PublishedOk;
    if |steps| == 0 {
      NothingPublished(id);
    } else {
      PublishedExactly(steps[..|steps| - 1], id);
      InvRun(steps[..|steps| - 1]);
      PublishedStep(Run(steps[..|steps| - 1]), steps[|steps| - 1], id);
    }
  }

  lemma NothingPublished(id: int)
    ensures PublishedOk(INIT, id)
  {
  }

  // ---- Stranded ----

  predicate Holds(s: State, worker: int, id: int)
  {
    exists i :: 0 <= i < |InHand(s, worker)| && InHand(s, worker)[i].id == id
  }

  /** The step lets go of an event without recording what became of it. */
  predicate Strands(s: State, step: Step, id: int)
  {
    match step
    case Crash(worker) => Holds(s, worker, id)
    case Process(worker, o) => InHand(s, worker) != [] && !o.recorded && InHand(s, worker)[0].id == id
    case _ => false
  }

  lemma HeldByWhom(s: State, id: int)
    ensures Held(s, id) <==> exists w :: Holds(s, w, id)
  {
    if Held(s, id) {
      var w, i :| w in s.hands && 0 <= i < |s.hands[w]| && s.hands[w][i].id == id;
      assert InHand(s, w)[i].id == id;
      assert Holds(s, w, id);
    }
    if w :| Holds(s, w, id) {
      var i :| 0 <= i < |InHand(s, w)| && InHand(s, w)[i].id == id;
      assert w in s.hands && s.hands[w][i].id == id;
    }
  }

  lemma HeldIsProcessing(s: State, id: int)
    requires HandsOk(s) && Held(s, id)
    ensures id in s.t.rows && s.t.rows[id].status == Processing
  {
  }

  lemma StrandCrash(s: State, worker: int, id: int)
    requires HandsOk(s)
    ensures Stranded(Apply(s, Crash(worker)), id) <==> Stranded(s, id) || Holds(s, worker, id)
  {
    var s' := Apply(s, Crash(worker));
    if Holds(s, worker, id) {
      HeldByWhom(s, id);
      HeldIsProcessing(s, id);
      var i :| 0 <= i < |InHand(s, worker)| && InHand(s, worker)[i].id == id;
      assert s.hands[worker][i].id == id;
      assert !Held(s', id);
    } else if Held(s, id) {
      var w, i :| w in s.hands && 0 <= i < |s.hands[w]| && s.hands[w][i].id == id;
      assert InHand(s, w)[i].id == id;
      assert w != worker && w in s'.hands && s'.hands[w][i].id == id;
    }
  }

  lemma StrandProcess(s: State, worker: int, o: Outcome, id: int)
    requires TablesOk(s) && HandsOk(s) && InHand(s, worker) != []
    ensures Stranded(ApplyProcess(s, worker, o), id) <==>
            Stranded(s, id) || (!o.recorded && InHand(s, worker)[0].id == id)
  {
    hide TablesOk, NoSharing;
    var s', ev := ApplyProcess(s, worker, o), s.hands[worker][0];
    assert Held(s, ev.id);
    ReleasedFromHand(s, worker, o);
    if Held(s', id) {
      HeldBefore(s, worker, o, id);
    }
    if Held(s, id) && id != ev.id {
      StillHeld(s, worker, o, id);
    }
  }

  lemma StillHeld(s: State, worker: int, o: Outcome, id: int)
    requires InHand(s, worker) != [] && Held(s, id) && id != s.hands[worker][0].id
    ensures Held(ApplyProcess(s, worker, o), id)
  {
    hide ProcessTx;
    var s' := ApplyProcess(s, worker, o);
    var w, i :| w in s.hands && 0 <= i < |s.hands[w]| && s.hands[w][i].id == id;
    var k := if w == worker then i - 1 else i;
    assert s'.hands[w][k].id == id;
  }

  lemma StrandClaim(s: State, worker: int, batch: seq<int>, id: int)
    requires HandsOk(s) && InHand(s, worker) == [] && IsBatch(s.t, batch)
    ensures Stranded(Apply(s, Claim(worker, batch)), id) <==> Stranded(s, id)
  {
    hide NoSharing;
    var s' := Apply(s, Claim(worker, batch));
    if id in batch {
      var i :| 0 <= i < |batch| && batch[i] == id;
      assert s'.hands[worker][i].id == id && Held(s', id);
    } else {
      if Held(s, id) {
        var w, i :| w in s.hands && 0 <= i < |s.hands[w]| && s.hands[w][i].id == id;
        assert w != worker && s'.hands[w][i].id == id;
      }
      if Held(s', id) {
        var w, i :| w in s'.hands && 0 <= i < |s'.hands[w]| && s'.hands[w][i].id == id;
        assert w != worker && s.hands[w][i].id == id;
      }
    }
  }

  /** Exactly those steps strand a row, and no step rescues one. */
  lemma StrandStep(s: State, step: Step, id: int)
    requires TablesOk(s) && HandsOk(s)
    ensures Stranded(Apply(s, step), id) <==> Stranded(s, id) || Strands(s, step, id)
  {
    hide ApplyProcess, ClaimTx, IsBatch, HandsOk, Holds;
    match step {
      case Crash(worker) => StrandCrash(s, worker, id);
      case Process(worker, o) =>
        if InHand(s, worker) != [] {
          StrandProcess(s, worker, o, id);
        }
      case Claim(worker, batch) =>
        if InHand(s, worker) == [] && IsBatch(s.t, batch) {
          StrandClaim(s, worker, batch, id);
        }
      case _ => StrandOther(s, step, id);
    }
  }

  lemma StrandOther(s: State, step: Step, id: int)
    requires TablesOk(s) && !step.Crash? && !step.Process? && !step.Claim?
    ensures Stranded(Apply(s, step), id) <==> Stranded(s, id)
  {
    assert Apply(s, step).hands == s.hands;
    assert Held(Apply(s, step), id) <==> Held(s, id);
  }

  /**
   * In every run a row is PROCESSING in nobody's hands if and only if its worker crashed holding it
   * or could not record what became of it.
   */
  lemma {:induction false} StrandedExactly(steps: seq<Step>, id: int)
    ensures Stranded(Run(steps), id) <==> exists k :: 0 <= k < |steps| && Strands(Run(steps[..k]), steps[k], id)
  {
    hide Apply, TablesOk, HandsOk, CallsOk, Covered, Strands, Stranded;
    if |steps| == 0 {
      NothingStranded(id);
    } else {
      var front, last := steps[..|steps| - 1], steps[|steps| - 1];
      StrandedExactly(front, id);
      InvRun(front);
      StrandStep(Run(front), last, id);
      assert forall k :: 0 <= k < |front| ==> steps[..k] == front[..k] && steps[k] == front[k];
      if Strands(Run(front), last, id) {
        assert Strands(Run(steps[..|front|]), steps[|front|], id);
      }
    }
  }

  lemma NothingStranded(id: int)
    ensures !Stranded(INIT, id)
  {
  }

  /** So if no worker crashes and everything is recorded, every claimed row is in somebody's hands. */
  lemma CalmRunsStrandNothing(steps: seq<Step>, id: int)
    requires forall k :: 0 <= k < |steps| ==> !steps[k].Crash? && (steps[k].Process? ==> steps[k].outcome.recorded)
    ensures !Stranded(Run(steps), id)
  {
    hide Run, Stranded;
    StrandedExactly(steps, id);
  }

  // ---- Batches ----

  predicate BatchOk(s: State, worker: int)
  {
    && |InHand(s, worker)| <= 5
    && forall i, j :: 0 <= i < j < |InHand(s, worker)| ==> InHand(s, worker)[i].id < InHand(s, worker)[j].id
  }

  /** A worker holds at most five events, oldest first. */
  lemma {:induction false} HandsAreBatches(steps: seq<Step>, worker: int)
    ensures BatchOk(Run(steps), worker)
  {
    if |steps| != 0 {
      HandsAreBatches(steps[..|steps| - 1], worker);
      BatchStep(Run(steps[..|steps| - 1]), steps[|steps| - 1], worker);
    }
  }

  lemma BatchStep(s: State, step: Step, worker: int)
    requires BatchOk(s, worker)
    ensures BatchOk(Apply(s, step), worker)
  {
    hide ProcessTx, ClaimTx;
  }

  // ---- Dead letters ----

  predicate GoneAfterFive(s: State, id: int)
  {
    1 <= id < s.t.nextRow && id !in s.t.rows ==> Calls(s.calls, id) == 5 && !Acked(s.calls, id)
  }

  lemma GoneStep(s: State, step: Step, id: int)
    requires Inv(s) && s.t.nextRow >= 1 && GoneAfterFive(s, id)
    ensures Apply(s, step).t.nextRow >= 1 && GoneAfterFive(Apply(s, step), id)
  {
    hide TablesOk, HandsOk, Covered, NoCallAfterAck, Calls, Acked, CallsOf;
    if step.Process? && InHand(s, step.worker) != [] {
      ProcessGone(s, step.worker, step.outcome, id);
    }
  }

  lemma ProcessGone(s: State, worker: int, o: Outcome, id: int)
    requires Inv(s) && s.t.nextRow >= 1 && GoneAfterFive(s, id) && InHand(s, worker) != []
    ensures GoneAfterFive(ApplyProcess(s, worker, o), id)
  {
    hide Covered, NoCallAfterAck, NoSharing, Calls, Acked;
    var ev := s.hands[worker][0];
    assert CallsOf(s, ev.id);
    assert Held(s, ev.id);
    CallsAppend(s.calls, Call(ev.id, o.acked, o.recorded), id);
    AckedAppend(s.calls, Call(ev.id, o.acked, o.recorded), id);
  }

  lemma CallsAppend(calls: seq<Call>, c: Call, id: int)
    ensures Calls(calls + [c], id) == Calls(calls, id) + if c.id == id then 1 else 0
  {
    assert (calls + [c])[..|calls|] == calls;
  }

  lemma AckedAppend(calls: seq<Call>, c: Call, id: int)
    ensures Acked(calls + [c], id) <==> Acked(calls, id) || (c.id == id && c.acked)
  {
    hide Calls;
  }

  /** An event leaves the outbox for the dead-letter queue after exactly five calls, none of them acknowledged. */
  lemma {:induction false} DeadAfterFiveCalls(steps: seq<Step>, id: int)
    requires 1 <= id < Run(steps).t.nextRow && id !in Run(steps).t.rows
    ensures Calls(Run(steps).calls, id) == 5 && !Acked(Run(steps).calls, id)
  {
    GoneRun(steps, id);
  }

  lemma {:induction false} GoneRun(steps: seq<Step>, id: int)
    ensures Run(steps).t.nextRow >= 1 && GoneAfterFive(Run(steps), id)
  {
    hide Apply, Inv, GoneAfterFive;
    if |steps| == 0 {
      NothingGoneYet(id);
    } else {
      GoneRun(steps[..|steps| - 1], id);
      InvRun(steps[..|steps| - 1]);
      GoneStep(Run(steps[..|steps| - 1]), steps[|steps| - 1], id);
    }
  }

  lemma NothingGoneYet(id: int)
    ensures INIT.t.nextRow >= 1 && GoneAfterFive(INIT, id)
  {
  }
}
