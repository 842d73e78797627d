/** The saga orchestrator: run the steps in order, and on a failure undo them in reverse. */
module Orchestrator {
  import opened Basics

  const MAX_RETRIES: nat := 3

  /** An action or a compensation runs in one transaction: `None` is an error and a rollback. */
  datatype SagaStep<!S> = SagaStep(action: S -> Option<S>, compensate: Option<S -> Option<S>>)

  /** What the orchestrator did, in order; `Stumbled` is an attempt at a compensation that failed. */
  datatype Event = Did(step: nat) | Failed(step: nat) | Undid(step: nat) | Stumbled(step: nat)

  /** COMPLETED, FAILED/COMPENSATED, or FAILED/CRITICAL at a compensation that never succeeded. */
  datatype Status = Completed | Compensated | Critical(step: nat)

  datatype Outcome<+S> = Outcome(state: S, trace: seq<Event>, status: Status)

  /** One transaction; the database is unreachable for the `clock`th one if `down(clock)`. */
  function Attempt<S>(f: S -> Option<S>, s: S, down: nat -> bool, clock: nat): Option<S>
  {
    if down(clock) then None else f(s)
  }

  /** Continue with step `n`. */
  function Forward<S>(s: S, steps: seq<SagaStep<S>>, n: nat, down: nat -> bool, clock: nat): Outcome<S>
    requires n <= |steps|
    decreases |steps| - n
  {
    if n == |steps| then Outcome(s, [], Completed)
    else
      var r := Attempt(steps[n].action, s, down, clock);
      if r.None? then Prepend(Failed(n), Backward(s, steps, n, 0, down, clock + 1))
      else Prepend(Did(n), Forward(r.value, steps, n + 1, down, clock + 1))
  }

  /** `n` steps stand; undoing the last of them has failed `tries` times. */
  function Backward<S>(s: S, steps: seq<SagaStep<S>>, n: nat, tries: nat, down: nat -> bool, clock: nat): Outcome<S>
    requires n <= |steps| && tries < MAX_RETRIES
    decreases n, MAX_RETRIES - tries
  {
    if n == 0 then Outcome(s, [], Compensated)
    else if steps[n - 1].compensate.None? then Backward(s, steps, n - 1, 0, down, clock)
    else
      var r := Attempt(steps[n - 1].compensate.value, s, down, clock);
      if r.Some? then Prepend(Undid(n - 1), Backward(r.value, steps, n - 1, 0, down, clock + 1))
      else if tries + 1 == MAX_RETRIES then Outcome(s, [Stumbled(n - 1)], Critical(n - 1))
      else Prepend(Stumbled(n - 1), Backward(s, steps, n, tries + 1, down, clock + 1))
  }

  function Prepend<S>(e: Event, o: Outcome<S>): Outcome<S>
  {
    o.(trace := [e] + o.trace)
  }

  /** The result of having done `before` already. */
  function After<S>(before: seq<Event>, o: Outcome<S>): Outcome<S>
  {
    o.(trace := before + o.trace)
  }

  lemma AfterPrepend<S>(before: seq<Event>, e: Event, o: Outcome<S>)
    ensures After(before, Prepend(e, o)) == After(before + [e], o)
  {
  }

  /** `Execute` and `compensate`, as the loops they are. */
  method Execute<S>(start: S, steps: seq<SagaStep<S>>, down: nat -> bool) returns (o: Outcome<S>)
    ensures o == Forward(start, steps, 0, down, 0)
  {
    var s, trace := start, [];
    var clock: nat, n: nat := 0, 0;
    while n < |steps|
      invariant n <= |steps| && clock == n
      invariant After(trace, Forward(s, steps, n, down, clock)) == Forward(start, steps, 0, down, 0)
    {
      var r := Attempt(steps[n].action, s, down, clock);
      clock := clock + 1;
      if r.None? {
        AfterPrepend(trace, Failed(n), Backward(s, steps, n, 0, down, clock));
        o := Compensate(s, steps, n, down, clock);
        o := o.(trace := trace + [Failed(n)] + o.trace);
        return;
      }
      AfterPrepend(trace, Did(n), Forward(r.value, steps, n + 1, down, clock));
      s, trace, n := r.value, trace + [Did(n)], n + 1;
    }
    o := Outcome(s, trace, Completed);
  }

  method Compensate<S>(start: S, steps: seq<SagaStep<S>>, executed: nat, down: nat -> bool, clock0: nat)
    returns (o: Outcome<S>)
    requires executed <= |steps|
    ensures o == Backward(start, steps, executed, 0, down, clock0)
  {
    var s, trace := start, [];
    var clock: nat, n: nat := clock0, executed;
    while n > 0
      invariant n <= |steps|
      invariant After(trace, Backward(s, steps, n, 0, down, clock)) == Backward(start, steps, executed, 0, down, clock0)
    {
      if steps[n - 1].compensate.Some? {
        var tries: nat, r := 0, None;
        while tries < MAX_RETRIES && r.None?
          invariant tries <= MAX_RETRIES
          invariant r.None? && tries < MAX_RETRIES ==>
                      After(trace, Backward(s, steps, n, tries, down, clock))
                          == Backward(start, steps, executed, 0, down, clock0)
          invariant r.None? && tries == MAX_RETRIES ==>
                      Outcome(s, trace, Critical(n - 1)) == Backward(start, steps, executed, 0, down, clock0)
          invariant r.Some? ==>
                      After(trace, Backward(r.value, steps, n - 1, 0, down, clock))
                          == Backward(start, steps, executed, 0, down, clock0)
          decreases MAX_RETRIES - tries, r.None?
        {
          r := Attempt(steps[n - 1].compensate.value, s, down, clock);
          clock := clock + 1;
          if r.Some? {
            AfterPrepend(trace, Undid(n - 1), Backward(r.value, steps, n - 1, 0, down, clock));
            trace := trace + [Undid(n - 1)];
          } else {
            if tries + 1 < MAX_RETRIES {
              AfterPrepend(trace, Stumbled(n - 1), Backward(s, steps, n, tries + 1, down, clock));
            }
            trace := trace + [Stumbled(n - 1)];
            tries := tries + 1;
          }
        }
        if r.None? {
          return Outcome(s, trace, Critical(n - 1));
        }
        s := r.value;
      }
      n := n - 1;
    }
    o := Outcome(s, trace, Compensated);
  }

  // ---- What every execution looks like ----

  /** Steps `lo`, `lo + 1`, ..., `hi - 1` done in order. */
  function Dids(lo: nat, hi: nat): seq<Event>
    requires lo <= hi
    decreases hi - lo
  {
    if lo == hi then [] else [Did(lo)] + Dids(lo + 1, hi)
  }

  /** The standing steps that have a compensation, last first. */
  function Undoable<S>(steps: seq<SagaStep<S>>, n: nat): seq<nat>
    requires n <= |steps|
  {
    if n == 0 then []
    else (if steps[n - 1].compensate.Some? then [n - 1] else []) + Undoable(steps, n - 1)
  }

  /** The compensations that succeeded, in order. */
  function Undone(trace: seq<Event>): seq<nat>
  {
    if |trace| == 0 then [] else (if trace[0].Undid? then [trace[0].step] else []) + Undone(trace[1..])
  }

  /** How often undoing step `k` was tried. */
  function Tries(trace: seq<Event>, k: nat): nat
  {
    if |trace| == 0 then 0 else (if trace[0] in {Undid(k), Stumbled(k)} then 1 else 0) + Tries(trace[1..], k)
  }

  lemma {:induction false} TriesOf(e: Event, trace: seq<Event>, k: nat)
    ensures Tries([e] + trace, k) == (if e in {Undid(k), Stumbled(k)} then 1 else 0) + Tries(trace, k)
    ensures Undone([e] + trace) == (if e.Undid? then [e.step] else []) + Undone(trace)
  {
  }

  /** Steps not below `n` are not touched when undoing the first `n`. */
  lemma {:induction false} BackwardIsBelow<S>(s: S, steps: seq<SagaStep<S>>, n: nat, tries: nat, down: nat -> bool,
                                              clock: nat, k: nat)
    requires n <= |steps| && tries < MAX_RETRIES && n <= k
    ensures Tries(Backward(s, steps, n, tries, down, clock).trace, k) == 0
    decreases n, MAX_RETRIES - tries
  {
    hide Undone, Undoable, Attempt;
    if n != 0 {
      if steps[n - 1].compensate.None? {
        BackwardIsBelow(s, steps, n - 1, 0, down, clock, k);
      } else {
        var r := Attempt(steps[n - 1].compensate.value, s, down, clock);
        if r.Some? {
          var rest := Backward(r.value, steps, n - 1, 0, down, clock + 1);
          BackwardIsBelow(r.value, steps, n - 1, 0, down, clock + 1, k);
          TriesOf(Undid(n - 1), rest.trace, k);
        } else if tries + 1 < MAX_RETRIES {
          var rest := Backward(s, steps, n, tries + 1, down, clock + 1);
          BackwardIsBelow(s, steps, n, tries + 1, down, clock + 1, k);
          TriesOf(Stumbled(n - 1), rest.trace, k);
        } else {
          TriesOf(Stumbled(n - 1), [], k);
        }
      }
    }
  }

  /** Each compensation is tried at most three times, and three times if it is the one that stops the saga. */
  lemma {:induction false} BackwardTries<S>(s: S, steps: seq<SagaStep<S>>, n: nat, tries: nat, down: nat -> bool,
                                            clock: nat, k: nat)
    requires n <= |steps| && tries < MAX_RETRIES
    ensures var o := Backward(s, steps, n, tries, down, clock);
            Tries(o.trace, k) + (if k == n - 1 then tries else 0) <= MAX_RETRIES
    ensures var o := Backward(s, steps, n, tries, down, clock);
            o.status == Critical(k) ==> Tries(o.trace, k) + (if k == n - 1 then tries else 0) == MAX_RETRIES
    decreases n, MAX_RETRIES - tries
  {
    hide Undone, Undoable, Attempt;
    if n != 0 {
      if steps[n - 1].compensate.None? {
        BackwardTries(s, steps, n - 1, 0, down, clock, k);
        BackwardIsBelow(s, steps, n - 1, 0, down, clock, n - 1);
        BackwardStops(s, steps, n - 1, 0, down, clock);
      } else {
        var r := Attempt(steps[n - 1].compensate.value, s, down, clock);
        if r.Some? {
          var rest := Backward(r.value, steps, n - 1, 0, down, clock + 1);
          BackwardTries(r.value, steps, n - 1, 0, down, clock + 1, k);
          BackwardIsBelow(r.value, steps, n - 1, 0, down, clock + 1, n - 1);
          BackwardStops(r.value, steps, n - 1, 0, down, clock + 1);
          TriesOf(Undid(n - 1), rest.trace, k);
        } else if tries + 1 < MAX_RETRIES {
          var rest := Backward(s, steps, n, tries + 1, down, clock + 1);
          BackwardTries(s, steps, n, tries + 1, down, clock + 1, k);
          TriesOf(Stumbled(n - 1), rest.trace, k);
        } else {
          TriesOf(Stumbled(n - 1), [], k);
        }
      }
    }
  }

  /**
   * Undoing goes through the compensations in exact reverse order. It ends with all of them
   * undone, or stops at the first one that does not succeed.
   */
  lemma {:induction false} BackwardStops<S>(s: S, steps: seq<SagaStep<S>>, n: nat, tries: nat, down: nat -> bool,
                                            clock: nat)
    requires n <= |steps| && tries < MAX_RETRIES
    ensures var o := Backward(s, steps, n, tries, down, clock);
            match o.status
            case Completed => false
            case Compensated => Undone(o.trace) == Undoable(steps, n)
            case Critical(k) => k < n && Undone(o.trace) + [k] <= Undoable(steps, n)
    decreases n, MAX_RETRIES - tries
  {
    hide Tries, Undone, Attempt;
    NoTries(0);
    if n != 0 {
      if steps[n - 1].compensate.None? {
        BackwardStops(s, steps, n - 1, 0, down, clock);
      } else {
        var r := Attempt(steps[n - 1].compensate.value, s, down, clock);
        if r.Some? {
          var rest := Backward(r.value, steps, n - 1, 0, down, clock + 1);
          BackwardStops(r.value, steps, n - 1, 0, down, clock + 1);
          TriesOf(Undid(n - 1), rest.trace, 0);
          if rest.status.Critical? {
            var k := rest.status.step;
            assert [n - 1] + Undone(rest.trace) + [k] == [n - 1] + (Undone(rest.trace) + [k]);
          }
        } else if tries + 1 < MAX_RETRIES {
          var rest := Backward(s, steps, n, tries + 1, down, clock + 1);
          BackwardStops(s, steps, n, tries + 1, down, clock + 1);
          TriesOf(Stumbled(n - 1), rest.trace, 0);
        } else {
          TriesOf(Stumbled(n - 1), [], 0);
          assert [Stumbled(n - 1)] + [] == [Stumbled(n - 1)];
        }
      }
    }
  }

  /**
   * Every execution, for every step list and every pattern of failures: all actions in order,
   * or a strict prefix of them, the failure, and then an undoing of exactly that prefix.
   */
  lemma {:induction false} ForwardShape<S>(s: S, steps: seq<SagaStep<S>>, n: nat, down: nat -> bool, clock: nat)
    returns (m: nat, at: S, later: nat)
    requires n <= |steps|
    ensures var o := Forward(s, steps, n, down, clock);
            if o.status.Completed? then m == |steps| && o.trace == Dids(n, |steps|)
            else
              && n <= m < |steps|
              && o == After(Dids(n, m) + [Failed(m)], Backward(at, steps, m, 0, down, later))
    decreases |steps| - n
  {
    m, at, later := |steps|, s, clock + 1;
    if n < |steps| {
      var r := Attempt(steps[n].action, s, down, clock);
      if r.None? {
        m := n;
        BackwardStops(s, steps, n, 0, down, later);
      } else {
        m, at, later := ForwardShape(r.value, steps, n + 1, down, clock + 1);
        var o := Forward(r.value, steps, n + 1, down, clock + 1);
        if !o.status.Completed? {
          var b := Backward(at, steps, m, 0, down, later);
          assert [Did(n)] + (Dids(n + 1, m) + [Failed(m)] + b.trace)
              == [Did(n)] + Dids(n + 1, m) + [Failed(m)] + b.trace;
        }
      }
    }
  }

  lemma {:induction false} PrefixTries(front: seq<Event>, back: seq<Event>, k: nat)
    requires forall e :: e in front ==> e.Did? || e.Failed?
    ensures Tries(front + back, k) == Tries(back, k) && Undone(front + back) == Undone(back)
  {
    if |front| == 0 {
      assert front + back == back;
    } else {
      assert front[0] in front;
      assert front + back == [front[0]] + (front[1..] + back);
      PrefixTries(front[1..], back, k);
      TriesOf(front[0], front[1..] + back, k);
    }
  }

  lemma {:induction false} DidsAreDids(lo: nat, hi: nat)
    requires lo <= hi
    ensures forall e :: e in Dids(lo, hi) ==> e.Did?
    decreases hi - lo
  {
    if lo < hi {
      DidsAreDids(lo + 1, hi);
    }
  }

  /**
   * Action `m` failed after all before it, and they were undone: all of them, or down to the one
   * that never succeeded.
   */
  predicate AbortedAt<S>(o: Outcome<S>, steps: seq<SagaStep<S>>, m: nat)
    requires m < |steps|
  {
    && Dids(0, m) + [Failed(m)] <= o.trace
    && match o.status
       case Completed => false
       case Compensated => Undone(o.trace) == Undoable(steps, m)
       case Critical(k) => k < m && Undone(o.trace) + [k] <= Undoable(steps, m) && Tries(o.trace, k) == MAX_RETRIES
  }

  lemma AbortShape<S>(at: S, steps: seq<SagaStep<S>>, m: nat, down: nat -> bool, later: nat)
    requires m < |steps|
    ensures var o := After(Dids(0, m) + [Failed(m)], Backward(at, steps, m, 0, down, later));
            && AbortedAt(o, steps, m)
            && forall k: nat :: Tries(o.trace, k) <= MAX_RETRIES && (m <= k ==> Tries(o.trace, k) == 0)
  {
    hide Undone, Undoable, Backward, Tries, Dids;
    var front, b := Dids(0, m) + [Failed(m)], Backward(at, steps, m, 0, down, later);
    DidsAreDids(0, m);
    BackwardStops(at, steps, m, 0, down, later);
    forall k: nat
      ensures Undone(front + b.trace) == Undone(b.trace) && Tries(front + b.trace, k) <= MAX_RETRIES
      ensures m <= k ==> Tries(front + b.trace, k) == 0
      ensures b.status == Critical(k) ==> Tries(front + b.trace, k) == MAX_RETRIES
    {
      PrefixTries(front, b.trace, k);
      BackwardTries(at, steps, m, 0, down, later, k);
      if m <= k {
        BackwardIsBelow(at, steps, m, 0, down, later, k);
      }
    }
    assert Undone(front + b.trace) == Undone(b.trace) by {
      PrefixTries(front, b.trace, 0);
    }
  }

  /**
   * The orchestrator's promise: it completes every step, or it undoes exactly the steps that
   * committed, last first, trying each compensation at most three times and stopping at the
   * first that never succeeds. The last step is never undone.
   */
  lemma ExecuteShape<S>(start: S, steps: seq<SagaStep<S>>, down: nat -> bool)
    ensures var o := Forward(start, steps, 0, down, 0);
            if o.status.Completed? then o.trace == Dids(0, |steps|)
            else exists m: nat :: m < |steps| && AbortedAt(o, steps, m)
    ensures forall k: nat :: Tries(Forward(start, steps, 0, down, 0).trace, k) <= MAX_RETRIES
    ensures |steps| > 0 ==> Tries(Forward(start, steps, 0, down, 0).trace, |steps| - 1) == 0
  {
    hide Forward, Backward, Dids, Tries, AbortedAt;
    var m, at, later := ForwardShape(start, steps, 0, down, 0);
    var o := Forward(start, steps, 0, down, 0);
    if o.status.Completed? {
      DidsAreDids(0, |steps|);
      assert o.trace + [] == o.trace;
      forall k: nat
        ensures Tries(o.trace, k) == 0
      {
        PrefixTries(o.trace, [], k);
        NoTries(k);
      }
    } else {
      AbortShape(at, steps, m, down, later);
    }
  }

  lemma NoTries(k: nat)
    ensures Tries([], k) == 0 && Undone([]) == []
  {
  }

  // ---- When compensation restores the start ----

  /** Each compensation undoes its action, whatever state the action was applied to. */
  ghost predicate LeftInverses<S(!new)>(steps: seq<SagaStep<S>>)
  {
    forall k, s :: 0 <= k < |steps| && steps[k].action(s).Some? ==>
      steps[k].compensate.Some? && steps[k].compensate.value(steps[k].action(s).value) == Some(s)
  }

  /** The state after the first `n` actions, if they all succeed. */
  function Applied<S>(start: S, steps: seq<SagaStep<S>>, n: nat): Option<S>
    requires n <= |steps|
  {
    if n == 0 then Some(start)
    else
      var before := Applied(start, steps, n - 1);
      if before.None? then None else steps[n - 1].action(before.value)
  }

  lemma {:induction false} BackwardRestores<S(!new)>(start: S, s: S, steps: seq<SagaStep<S>>, n: nat, tries: nat,
                                              down: nat -> bool, clock: nat)
    requires LeftInverses(steps) && n <= |steps| && tries < MAX_RETRIES
    requires Applied(start, steps, n) == Some(s)
    ensures var o := Backward(s, steps, n, tries, down, clock); o.status.Compensated? ==> o.state == start
    decreases n, MAX_RETRIES - tries
  {
    if n != 0 {
      var before := Applied(start, steps, n - 1).value;
      assert steps[n - 1].action(before) == Some(s);
      var r := Attempt(steps[n - 1].compensate.value, s, down, clock);
      if r.Some? {
        BackwardRestores(start, before, steps, n - 1, 0, down, clock + 1);
      } else if tries + 1 < MAX_RETRIES {
        BackwardRestores(start, s, steps, n, tries + 1, down, clock + 1);
      }
    }
  }

  lemma {:induction false} ForwardRestores<S(!new)>(start: S, s: S, steps: seq<SagaStep<S>>, n: nat, down: nat -> bool,
                                             clock: nat)
    requires LeftInverses(steps) && n <= |steps| && Applied(start, steps, n) == Some(s)
    ensures var o := Forward(s, steps, n, down, clock); o.status.Compensated? ==> o.state == start
    decreases |steps| - n
  {
    if n < |steps| {
      var r := Attempt(steps[n].action, s, down, clock);
      if r.None? {
        BackwardRestores(start, s, steps, n, 0, down, clock + 1);
      } else {
        assert Applied(start, steps, n + 1) == Some(r.value);
        ForwardRestores(start, r.value, steps, n + 1, down, clock + 1);
      }
    }
  }

  /** If the compensations are left inverses, a compensated saga leaves the state it found. */
  lemma CompensationRestores<S(!new)>(start: S, steps: seq<SagaStep<S>>, down: nat -> bool)
    requires LeftInverses(steps)
    ensures var o := Forward(start, steps, 0, down, 0); o.status.Compensated? ==> o.state == start
  {
    ForwardRestores(start, start, steps, 0, down, 0);
  }
}
