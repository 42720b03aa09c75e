/** The retry of the durable halt write: exactly when a halt whose row is still owed keeps a write of it, or its
    retry timer, alive, over every run of the halt protocol, whether or not its clears are admissible.
 */
module HaltRetry {

  import opened Hashing
  import opened HaltPersistence

  /** The process runs with a halt in force and no clear under way. */
  ghost predicate Watched(s: State) {
    s.phase == Running && s.clear == NoClear && s.halted.Some?
  }

  /** The halt's row has not been written, or is not known to have been. */
  ghost predicate Owed(s: State)
    requires s.halted.Some?
  {
    !s.durable || !RowHolds(s, s.halted.value.block)
  }

  /** The task is a write of the halt in force: it ends with the row written or leads to another try. */
  ghost predicate Own(s: State, t: Task)
    requires s.halted.Some?
  {
    (t.Recording? || t.Copying?) && t.h == s.halted.value
  }

  ghost predicate Writing(s: State)
    requires s.halted.Some?
  {
    exists i :: 0 <= i < |s.tasks| && Own(s, s.tasks[i])
  }

  ghost predicate WritingBesides(s: State, i: nat)
    requires s.halted.Some?
  {
    exists j :: 0 <= j < |s.tasks| && j != i && Own(s, s.tasks[j])
  }

  /** An owed row is being written or its retry is armed. */
  ghost predicate Retried(s: State) {
    Watched(s) && Owed(s) ==> s.timer == s.halted || Writing(s)
  }

  /** What to check before a step: the one timer is taken over, and the durable flag lowered, by the failure of
      a write of an earlier halt; and a clear that fails puts back the flag it found, not the timer it
      cancelled, when the flag said durable. */
  ghost predicate RetryGuard(s: State, e: Event)
    requires Enabled(s, e)
  {
    match e
    case RecordDone(i, ok) =>
      !ok && Watched(s) ==>
        || Own(s, s.tasks[i]) || WritingBesides(s, i)
        || (if s.tasks[i].retry then !Owed(s) else s.timer == s.halted)
    case CopyDone(i) => Watched(s) ==> Own(s, s.tasks[i]) || WritingBesides(s, i) || !Owed(s)
    case ClearReturns(ok) =>
      !ok && s.phase == Running && s.halted.Some? && s.clear.wasDurable ==>
        RowHolds(s, s.halted.value.block) || s.timer == s.halted || Writing(s)
    case _ => true
  }

  // ---------------------------------------------------------------------------
  // What every run keeps
  // ---------------------------------------------------------------------------

  /** A write of the halt in force that has landed is in the rows until a clear lands. */
  ghost predicate StoredOk(s: State) {
    InForce(s) ==>
      forall i :: 0 <= i < |s.tasks| && s.tasks[i].Recording? && s.tasks[i].stored && s.halted == Some(s.tasks[i].h) ==>
        RowHolds(s, s.tasks[i].h.block)
  }

  ghost predicate Kept(s: State) {
    && NamesOk(s) && StoredOk(s)
    && (s.clear != NoClear ==> s.halted.Some? && !s.halted.value.synthetic)
    && (s.phase == Down || s.phase == ReadingRow || s.phase == ReadingCopy ==> s.halted == None)
  }

  lemma RecordLandsKept(s: State, e: Event)
    requires Kept(s) && Enabled(s, e) && e.RecordLands?
    ensures Kept(Step(s, e))
  {
  }

  lemma RecordDoneKept(s: State, e: Event)
    requires Kept(s) && Enabled(s, e) && e.RecordDone?
    ensures Kept(Step(s, e))
  {
  }

  lemma WriteKept(s: State, e: Event)
    requires Kept(s) && Enabled(s, e) && WriteEvent(e) && !e.RecordLands? && !e.RecordDone?
    ensures Kept(Step(s, e))
  {
  }

  lemma DivergeKept(s: State, e: Event)
    requires Kept(s) && Enabled(s, e) && e.Diverge?
    ensures Kept(Step(s, e))
  {
  }

  lemma ReadKept(s: State, e: Event)
    requires Kept(s) && Enabled(s, e) && (e.RowRead? || e.CopyRead?)
    ensures Kept(Step(s, e))
  {
  }

  lemma RetryFiresKept(s: State, e: Event)
    requires Kept(s) && Enabled(s, e) && e.RetryFires?
    ensures Kept(Step(s, e))
  {
  }

  lemma ClearKept(s: State, e: Event)
    requires Kept(s) && Enabled(s, e) && ClearEvent(e)
    ensures Kept(Step(s, e))
  {
  }

  lemma StepKept(s: State, e: Event)
    requires Kept(s) && Enabled(s, e)
    ensures Kept(Step(s, e))
  {
    if e.RecordLands? {
      RecordLandsKept(s, e);
    } else if e.RecordDone? {
      RecordDoneKept(s, e);
    } else if WriteEvent(e) {
      WriteKept(s, e);
    } else if e.Diverge? {
      DivergeKept(s, e);
    } else if e.RowRead? || e.CopyRead? {
      ReadKept(s, e);
    } else if e.RetryFires? {
      RetryFiresKept(s, e);
    } else if ClearEvent(e) {
      ClearKept(s, e);
    }
  }

  // ---------------------------------------------------------------------------
  // The guard is exact
  // ---------------------------------------------------------------------------

  lemma OwnRemains(s: State, t: State, i: nat)
    requires s.halted.Some? && t.halted == s.halted && i < |s.tasks| && WritingBesides(s, i)
    requires |t.tasks| == |s.tasks| && forall j :: 0 <= j < |s.tasks| && j != i ==> t.tasks[j] == s.tasks[j]
    ensures Writing(t)
  {
    var j :| 0 <= j < |s.tasks| && j != i && Own(s, s.tasks[j]);
    assert Own(t, t.tasks[j]);
  }

  lemma RecordFailed(s: State, e: Event)
    requires Kept(s) && Retried(s) && Enabled(s, e) && e.RecordDone? && !e.ok
    ensures RetryGuard(s, e) <==> Retried(Step(s, e))
  {
    var t := Step(s, e);
    if Watched(s) {
      assert t.tasks[e.i] == if s.tasks[e.i].retry then Finished else Copying(s.tasks[e.i].h);
      if WritingBesides(s, e.i) {
        OwnRemains(s, t, e.i);
      } else if Own(s, s.tasks[e.i]) && !s.tasks[e.i].retry {
        assert Own(t, t.tasks[e.i]);
      }
    }
  }

  lemma CopyReturned(s: State, e: Event)
    requires Kept(s) && Retried(s) && Enabled(s, e) && e.CopyDone?
    ensures RetryGuard(s, e) <==> Retried(Step(s, e))
  {
    var t := Step(s, e);
    if Watched(s) {
      if WritingBesides(s, e.i) {
        OwnRemains(s, t, e.i);
      }
    }
  }

  lemma ClearFailed(s: State, e: Event)
    requires Kept(s) && Retried(s) && Enabled(s, e) && e.ClearReturns? && !e.ok
    ensures RetryGuard(s, e) <==> Retried(Step(s, e))
  {
    var t := Step(s, e);
    assert Writing(t) <==> Writing(s);
  }

  /** Every other step keeps an owed row's write alive. */
  lemma WriteStepRetries(s: State, e: Event)
    requires Kept(s) && Retried(s) && Enabled(s, e) && WriteEvent(e) && !e.CopyDone? && (e.RecordDone? ==> e.ok)
    ensures Retried(Step(s, e))
  {
    var t := Step(s, e);
    if Watched(t) && Owed(t) && t.timer != t.halted {
      var j :| 0 <= j < |s.tasks| && Own(s, s.tasks[j]);
      assert Own(t, t.tasks[j]);
    }
  }

  lemma RestRetries(s: State, e: Event)
    requires Kept(s) && Retried(s) && Enabled(s, e) && !WriteEvent(e) && (e.ClearReturns? ==> e.ok)
    ensures Retried(Step(s, e))
  {
    var t := Step(s, e);
    if e.Diverge? || e.RetryFires? || e.CopyRead? {
      if |t.tasks| > |s.tasks| {
        assert Own(t, t.tasks[|s.tasks|]);
      } else if Watched(t) && Owed(t) && t.timer != t.halted {
        var j :| 0 <= j < |s.tasks| && Own(s, s.tasks[j]);
        assert Own(t, t.tasks[j]);
      }
    }
  }

  /** A step keeps an owed row's write or retry alive if and only if its guard holds. */
  lemma RetryGuardIsExact(s: State, e: Event)
    requires Kept(s) && Retried(s) && Enabled(s, e)
    ensures RetryGuard(s, e) <==> Retried(Step(s, e))
  {
    if e.RecordDone? && !e.ok {
      RecordFailed(s, e);
    } else if e.CopyDone? {
      CopyReturned(s, e);
    } else if e.ClearReturns? && !e.ok {
      ClearFailed(s, e);
    } else if WriteEvent(e) {
      WriteStepRetries(s, e);
    } else {
      RestRetries(s, e);
    }
  }

  // ---------------------------------------------------------------------------
  // Every run
  // ---------------------------------------------------------------------------

  ghost predicate Guarded(s: State, e: Event) {
    Enabled(s, e) ==> RetryGuard(s, e)
  }

  lemma {:induction false} RunKept(states: seq<State>, events: seq<Event>, n: nat)
    requires Run(states, events) && Stopped(states[0]) && n <= |events|
    ensures Kept(states[n])
  {
    if n > 0 {
      RunKept(states, events, n - 1);
      assert Linked(states[n - 1], events[n - 1], states[n - 1 + 1]);
      StepKept(states[n - 1], events[n - 1]);
    }
  }

  /** Over every run: each step meets its guard if and only if at every point an owed row is being written or
      its retry is armed. */
  lemma {:induction false} RetriedIffGuarded(states: seq<State>, events: seq<Event>, n: nat)
    requires Run(states, events) && Stopped(states[0]) && n <= |events|
    ensures (forall i :: 0 <= i < n ==> Guarded(states[i], events[i]))
            <==> (forall i :: 0 <= i <= n ==> Retried(states[i]))
  {
    if n > 0 {
      RetriedIffGuarded(states, events, n - 1);
      RetriedOnce(states, events, n - 1);
    }
  }

  lemma RetriedOnce(states: seq<State>, events: seq<Event>, k: nat)
    requires Run(states, events) && Stopped(states[0]) && k < |events|
    ensures Retried(states[k]) ==> (Guarded(states[k], events[k]) <==> Retried(states[k + 1]))
  {
    RunKept(states, events, k);
    assert Linked(states[k], events[k], states[k + 1]);
    if Retried(states[k]) {
      RetryGuardIsExact(states[k], events[k]);
    }
  }

  // ---------------------------------------------------------------------------
  // A retried row can be written
  // ---------------------------------------------------------------------------

  /** The row of the halt in force is written and known to be. */
  ghost predicate Written(s: State, h: Halt) {
    s.halted == Some(h) && s.durable && RowHolds(s, h.block)
  }

  lemma RecordingWrites(s: State, t: State, i: nat, h: Halt)
    requires Leads(s, t) && Kept(t) && Watched(t) && t.halted == Some(h)
    requires i < |t.tasks| && t.tasks[i].Recording? && t.tasks[i].h == h && t.tasks[i].stored
    ensures exists u :: Leads(s, u) && Written(u, h)
  {
    var u := Step(t, RecordDone(i, true));
    Then(s, t, RecordDone(i, true), u);
    assert Written(u, h);
  }

  lemma RecordingLands(s: State, t: State, i: nat, h: Halt)
    requires Leads(s, t) && Kept(t) && Watched(t) && t.halted == Some(h)
    requires i < |t.tasks| && t.tasks[i].Recording? && t.tasks[i].h == h
    ensures exists u :: Leads(s, u) && Written(u, h)
  {
    if t.tasks[i].stored {
      RecordingWrites(s, t, i, h);
    } else {
      var u := Step(t, RecordLands(i, false));
      Then(s, t, RecordLands(i, false), u);
      StepKept(t, RecordLands(i, false));
      RecordingWrites(s, u, i, h);
    }
  }

  lemma TimerWrites(s: State, t: State, h: Halt)
    requires Leads(s, t) && Kept(t) && Watched(t) && t.halted == t.timer == Some(h)
    ensures exists u :: Leads(s, u) && Written(u, h)
  {
    var u := Step(t, RetryFires);
    Then(s, t, RetryFires, u);
    StepKept(t, RetryFires);
    RecordingLands(s, u, |t.tasks|, h);
  }

  /** Where an owed row is being written or its retry is armed, steps of that write alone lead to the row
      written and known to be. */
  lemma OwedRowCanLand(t: State)
    requires Kept(t) && Watched(t) && Owed(t) && Retried(t)
    ensures exists u :: Leads(t, u) && Written(u, t.halted.value)
  {
    var h := t.halted.value;
    Stay(t);
    if t.timer == t.halted {
      TimerWrites(t, t, h);
    } else {
      var i :| 0 <= i < |t.tasks| && Own(t, t.tasks[i]);
      if t.tasks[i].Recording? {
        RecordingLands(t, t, i, h);
      } else {
        var u := Step(t, CopyDone(i));
        Then(t, t, CopyDone(i), u);
        StepKept(t, CopyDone(i));
        TimerWrites(t, u, h);
      }
    }
  }

  // ---------------------------------------------------------------------------
  // Runs that forget an owed row
  // ---------------------------------------------------------------------------

  ghost const SECOND := Halt(1, 2, false)

  /** The first halt is being retried when the operator clears it. */
  ghost const CLEARED :=
    State([], NoCopy, Running, None, true, false, None, [Finished, Recording(FIRST, true, false)], NoClear, 1, {})

  lemma ReachesCleared()
    ensures Leads(STOPPED, CLEARED)
  {
    ReachesCopied();
    var s1 := COPIED.(timer := None, tasks := [Finished, Recording(FIRST, true, false)]);
    Then(STOPPED, COPIED, RetryFires, s1);
    var s2 := s1.(durable := true, clear := Updating(false));
    Then(STOPPED, s1, ClearBegin, s2);
    var s3 := s2.(landed := {}, clear := Updated);
    Then(STOPPED, s2, ClearLands, s3);
    var s4 := s3.(clear := ClearDropping, pendingCopy := false);
    Then(STOPPED, s3, ClearReturns(true), s4);
    ClearingEnds(s4);
  }

  lemma ClearingEnds(s: State)
    requires Leads(STOPPED, s)
    requires s == State([], CopyOf(1), Running, Some(FIRST), true, false, None,
                        [Finished, Recording(FIRST, true, false)], ClearDropping, 1, {})
    ensures Leads(STOPPED, CLEARED)
  {
    var t := s.(copy := NoCopy);
    Then(STOPPED, s, ClearDropLands, t);
    Then(STOPPED, t, ClearDropReturns(true, false), CLEARED);
  }

  /** The second halt's first write has failed and its retry is armed. */
  ghost const ARMED :=
    State([], NoCopy, Running, Some(SECOND), false, true, Some(SECOND),
          [Finished, Recording(FIRST, true, false), Finished], NoClear, 2, {})

  lemma ReachesArmed()
    ensures Leads(STOPPED, ARMED)
  {
    ReachesCleared();
    var s1 := CLEARED.(halted := Some(SECOND), nextId := 2, tasks := CLEARED.tasks + [Recording(SECOND, false, false)]);
    Then(STOPPED, CLEARED, Diverge(2), s1);
    var s2 := s1.(durable := false, pendingCopy := true, tasks := CLEARED.tasks + [Copying(SECOND)]);
    assert s2.tasks == s1.tasks[2 := Copying(SECOND)];
    Then(STOPPED, s1, RecordDone(2, false), s2);
    assert s2.tasks[2 := Finished] == ARMED.tasks;
    Then(STOPPED, s2, CopyDone(2), ARMED);
  }

  /** The retry of a halt already cleared fails and takes over the one timer: the next halt's own retry is
      gone, and no write of it is left. */
  lemma StaleRetryTakesTimer()
    ensures Stopped(STOPPED) && Leads(STOPPED, ARMED)
    ensures Retried(ARMED) && Enabled(ARMED, RecordDone(1, false)) && !Retried(Step(ARMED, RecordDone(1, false)))
  {
    ReachesArmed();
    assert Step(ARMED, RecordDone(1, false)).tasks == [Finished, Finished, Finished];
  }

  /** The first write failed while a clear was failing: the flag was put back to durable. A second clear is
      under way and has cancelled the retry. */
  ghost const FORGETTING :=
    State([], NoCopy, Running, Some(FIRST), true, true, None, [Finished], Updating(true), 1, {})

  lemma ReachesForgetting()
    ensures Leads(STOPPED, FORGETTING)
  {
    ReachesRunning();
    var s1 := STOPPED.(phase := Running);
    var s2 := s1.(halted := Some(FIRST), nextId := 1, tasks := [Recording(FIRST, false, false)]);
    Then(STOPPED, s1, Diverge(1), s2);
    var s3 := s2.(clear := Updating(true));
    Then(STOPPED, s2, ClearBegin, s3);
    var s4 := s3.(durable := false, pendingCopy := true, tasks := [Copying(FIRST)]);
    Then(STOPPED, s3, RecordDone(0, false), s4);
    FirstClearFails(s4);
  }

  lemma FirstClearFails(s: State)
    requires Leads(STOPPED, s)
    requires s == State([], NoCopy, Running, Some(FIRST), false, true, None, [Copying(FIRST)], Updating(true), 1, {})
    ensures Leads(STOPPED, FORGETTING)
  {
    var s1 := s.(timer := Some(FIRST), tasks := [Finished]);
    Then(STOPPED, s, CopyDone(0), s1);
    var s2 := s1.(durable := true, clear := NoClear);
    Then(STOPPED, s1, ClearReturns(false), s2);
    Then(STOPPED, s2, ClearBegin, FORGETTING);
  }

  /** A failed clear puts back the durable flag it found and not the retry it cancelled: the halt is reported
      durable, no row holds it, and nothing writes it. */
  lemma FailedClearForgets()
    ensures Leads(STOPPED, FORGETTING) && Enabled(FORGETTING, ClearReturns(false))
    ensures var t := Step(FORGETTING, ClearReturns(false));
            t.durable && t.rows == [] && t.halted == Some(FIRST) && !Retried(t)
  {
    ReachesForgetting();
  }
}
