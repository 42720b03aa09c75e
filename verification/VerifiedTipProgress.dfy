/** What the verified-tip tasks achieve, over every run, admissible or not: a bad verdict reached over unchanged
    rows is the walk's answer, an ok answer comes with a marker that covers the tip, and a save that is waited for is
    always under way.
 */
module VerifiedTipProgress {

  import opened VerifiedTip
  import opened VerifiedTipShape
  import opened VerifiedTipExact

  // ---------------------------------------------------------------------------
  // A bad verdict is the walk's answer
  // ---------------------------------------------------------------------------

  /** What a caller is told of a block that did not verify. */
  ghost function Answer(h: int, verdict: Verdict): Returned {
    if verdict == Halt then Halted(h) else Held
  }

  ghost predicate Settling(s: State, h: int, verdict: Verdict) {
    s.walk.Saving? && s.walk.after == Settle(h, verdict) && s.returned == Nothing
  }

  ghost predicate Told(s: State, h: int, verdict: Verdict) {
    s.walk == NoWalk && s.returned == Answer(h, verdict)
  }

  lemma SettlingStep(s: State, e: Event, h: int, verdict: Verdict)
    requires Enabled(s, e) && !e.Crash? && Settling(s, h, verdict)
    ensures Settling(Step(s, e), h, verdict) || Told(Step(s, e), h, verdict)
  {
  }

  lemma VerdictStays(s: State, e: Event)
    requires Enabled(s, e) && s.walk.Evaluated? && !e.WalkFinish? && !e.Crash?
    ensures Step(s, e).walk == s.walk
  {
  }

  lemma VerdictSettles(s: State, e: Event)
    requires Enabled(s, e) && e.WalkFinish? && s.walk.verdict != Clean
    ensures if Unchanged(s.core, s.walk.gen) then Settling(Step(s, e), s.walk.h, s.walk.verdict)
            else Step(s, e).walk == NoWalk && Step(s, e).returned == Held
  {
  }

  lemma {:induction false} VerdictHeld(states: seq<State>, events: seq<Event>, k: nat, m: nat, h: int, verdict: Verdict)
    requires Run(states, events) && k < m <= |events| && verdict != Clean
    requires events[k] == WalkRead(verdict) && states[k].walk.Evaluating? && states[k].walk.h == h
    requires forall i :: k < i < m ==> !events[i].WalkFinish? && !events[i].Crash?
    ensures states[m].walk.Evaluated? && states[m].walk.h == h && states[m].walk.verdict == verdict
  {
    assert Linked(states[m - 1], events[m - 1], states[m - 1 + 1]);
    if m > k + 1 {
      VerdictHeld(states, events, k, m - 1, h, verdict);
      VerdictStays(states[m - 1], events[m - 1]);
    }
  }

  lemma SettlingOnce(states: seq<State>, events: seq<Event>, i: nat, h: int, verdict: Verdict)
    requires Run(states, events) && i < |events| && !events[i].Crash? && Settling(states[i], h, verdict)
    ensures Settling(states[i + 1], h, verdict) || Told(states[i + 1], h, verdict)
  {
    assert Linked(states[i], events[i], states[i + 1]);
    SettlingStep(states[i], events[i], h, verdict);
  }

  lemma {:induction false} SettlingUntilAnswered(states: seq<State>, events: seq<Event>, m: nat, j: nat, h: int,
                                                 verdict: Verdict)
    requires Run(states, events) && m < j <= |events| && Settling(states[m + 1], h, verdict)
    requires forall i :: m < i < j ==> !events[i].Crash? && states[i].walk != NoWalk
    ensures Settling(states[j], h, verdict) || Told(states[j], h, verdict)
  {
    if j > m + 1 {
      SettlingUntilAnswered(states, events, m, j - 1, h, verdict);
      SettlingOnce(states, events, j - 1, h, verdict);
    }
  }

  /** In any run without a crash, a bad verdict read at k and taken up at m, its rows unchanged since the walk
      began, is the walk's answer: up to the first point where the walk has ended nothing is answered, and there
      a halt verdict answers halted on its block. If the rows changed, the verdict is dropped and the walk
      answers held. */
  lemma BadVerdictIsAnswered(states: seq<State>, events: seq<Event>, k: nat, m: nat, j: nat, h: int, verdict: Verdict)
    requires Run(states, events) && k < m < j <= |events| && verdict != Clean
    requires events[k] == WalkRead(verdict) && states[k].walk.Evaluating? && states[k].walk.h == h
    requires events[m].WalkFinish? && forall i :: k < i < m ==> !events[i].WalkFinish?
    requires forall i :: k < i < j ==> !events[i].Crash?
    requires forall i :: m < i < j ==> states[i].walk != NoWalk
    ensures states[m].walk.Evaluated?
    ensures Unchanged(states[m].core, states[m].walk.gen) ==>
              if states[j].walk == NoWalk then states[j].returned == Answer(h, verdict)
              else states[j].walk.Saving? && states[j].returned == Nothing
    ensures !Unchanged(states[m].core, states[m].walk.gen) ==>
              j == m + 1 && states[j].walk == NoWalk && states[j].returned == Held
  {
    VerdictHeld(states, events, k, m, h, verdict);
    assert Linked(states[m], events[m], states[m + 1]);
    VerdictSettles(states[m], events[m]);
    if Unchanged(states[m].core, states[m].walk.gen) {
      SettlingUntilAnswered(states, events, m, j, h, verdict);
    }
  }

  // ---------------------------------------------------------------------------
  // A save that is waited for is under way
  // ---------------------------------------------------------------------------

  ghost predicate SaveUnderWay(c: Core) {
    (exists i :: 0 <= i < |c.queue| && c.queue[i].Persist?) || (c.busy.Writing? && c.busy.job.Persist?)
  }

  ghost predicate Awaited(s: State) {
    s.walk.Saving? ==> SaveUnderWay(s.core)
  }

  lemma SaveThenAwaited(s: State, gen: nat, tip: int, after: After)
    ensures Awaited(SaveThen(s, gen, tip, after))
  {
    var t := SaveThen(s, gen, tip, after);
    assert t.core.queue[|s.core.queue|].Persist?;
  }

  lemma QueueGrows(c: Core, d: Core, job: Job)
    requires SaveUnderWay(c) && d.queue == c.queue + [job] && d.busy == c.busy
    ensures SaveUnderWay(d)
  {
    if i :| 0 <= i < |c.queue| && c.queue[i].Persist? {
      assert d.queue[i].Persist?;
    }
  }

  lemma JobStartAwaited(s: State, e: Event)
    requires Awaited(s) && Enabled(s, e) && e.JobStart?
    ensures Awaited(Step(s, e))
  {
    var t := Step(s, e);
    if t.walk.Saving? && !t.core.busy.Writing? {
      var i :| 0 <= i < |s.core.queue| && s.core.queue[i].Persist?;
      assert t.core.queue[i - 1].Persist?;
    } else if t.walk.Saving? && !t.core.busy.job.Persist? {
      var i :| 0 <= i < |s.core.queue| && s.core.queue[i].Persist?;
      assert t.core.queue[i - 1].Persist?;
    }
  }

  lemma WalkAwaited(s: State, e: Event)
    requires Awaited(s) && Enabled(s, e) && (WalkReadingEvent(e) || WalkVerdictEvent(e))
    ensures Awaited(Step(s, e))
  {
    var t, w := s.(returned := Nothing), s.walk;
    if e.WalkFinish? && Step(s, e).walk.Saving? {
      var noted := t.(core := Step(s, e).core.(queue := s.core.queue));
      SaveThenAwaited(noted, w.gen, w.tip, Step(s, e).walk.after);
    }
  }

  lemma QueueingAwaited(s: State, e: Event)
    requires Awaited(s) && Enabled(s, e)
    requires e.LiveRaise? || e.RemovalBegin? || e.RemovalLoadDone? || e.SnapshotAdopt? || e.WindowAdopt?
    ensures Awaited(Step(s, e))
  {
    var d := Step(s, e).core;
    if s.walk.Saving? && |d.queue| > |s.core.queue| {
      QueueGrows(s.core, d, d.queue[|s.core.queue|]);
    }
  }

  lemma StepAwaited(s: State, e: Event)
    requires Awaited(s) && Enabled(s, e)
    ensures Awaited(Step(s, e))
  {
    if e.JobStart? {
      JobStartAwaited(s, e);
    } else if WalkReadingEvent(e) || WalkVerdictEvent(e) {
      WalkAwaited(s, e);
    } else if e.LiveRaise? || e.RemovalBegin? || e.RemovalLoadDone? || e.SnapshotAdopt? || e.WindowAdopt? {
      QueueingAwaited(s, e);
    }
  }

  /** In any run a walk that waits for its save has it queued or in flight: it never waits for nothing. */
  lemma {:induction false} SavesNeverForgotten(states: seq<State>, events: seq<Event>, n: nat)
    requires Run(states, events) && n <= |events|
    ensures states[n].walk.Saving? ==> SaveUnderWay(states[n].core)
  {
    if n > 0 {
      SavesNeverForgotten(states, events, n - 1);
      assert Linked(states[n - 1], events[n - 1], states[n - 1 + 1]);
      StepAwaited(states[n - 1], events[n - 1]);
    }
  }

  // ---------------------------------------------------------------------------
  // An ok answer comes with a marker that covers the tip
  // ---------------------------------------------------------------------------

  /** The in-memory marker covers m; blocks below the truncation floor are not stored and need none. */
  ghost predicate Reached(c: Core, m: int) {
    c.mark.At? && (c.mark.height >= m || (c.truncated && m < c.base))
  }

  /** Everything below the walk's position is covered while the rows are unchanged since it began. */
  ghost predicate WalkReached(c: Core, w: Walk) {
    && ((w.Ready? || w.Evaluating? || w.Evaluated?) && Unchanged(c, w.gen) ==> Reached(c, w.h - 1))
    && (w.Saving? && w.after.Next? && Unchanged(c, w.gen) ==> Reached(c, w.after.h - 1))
    && (w.Saving? && w.after.Done? && Unchanged(c, w.gen) ==> Reached(c, w.tip))
  }

  ghost predicate OkReached(s: State) {
    s.returned.Ok? ==> Empty(s.core) || Reached(s.core, s.returned.tip)
  }

  ghost predicate Progress(s: State) {
    WalkReached(s.core, s.walk) && OkReached(s)
  }

  lemma ProceedProgress(s: State, gen: nat, tip: int, mark: int)
    requires s.core.mark == At(mark) && s.returned == Nothing
    ensures Progress(Proceed(s, gen, tip, mark))
  {
  }

  lemma MarkerKnownProgress(s: State, gen: nat, tip: int)
    requires s.returned == Nothing
    ensures Progress(MarkerKnown(s, gen, tip))
  {
    if s.core.mark.At? && s.core.mark.height <= tip {
      ProceedProgress(s, gen, tip, s.core.mark.height);
    }
  }

  lemma WalkReadingProgress(s: State, e: Event)
    requires Enabled(s, e) && WalkReadingEvent(e)
    ensures Progress(Step(s, e))
  {
    var t, c, w := s.(returned := Nothing), s.core, s.walk;
    if e.WalkTip? && !Empty(c) {
      MarkerKnownProgress(t, w.gen, c.tip);
    } else if e.WalkLoaded? {
      MarkerKnownProgress(t.(core := c.(mark := w.raw, saved := w.raw)), w.gen, w.tip);
    } else if e.WalkSeeded? {
      var start := SeedFrom(w, e.legacy);
      var d := c.(mark := At(start - 1), passed := c.passed + VersionsUpTo(c.row, start - 1));
      SeededStep(s, e, d, start);
      ProceedProgress(t.(core := d), w.gen, w.tip, start - 1);
    }
  }

  lemma WalkVerdictProgress(s: State, e: Event)
    requires Progress(s) && Enabled(s, e) && WalkVerdictEvent(e)
    ensures Progress(Step(s, e))
  {
  }

  lemma LiveProgress(s: State, e: Event)
    requires Shape(s) && Progress(s) && Enabled(s, e) && LiveEvent(e)
    ensures Progress(Step(s, e))
  {
  }

  lemma RemovalProgress(s: State, e: Event)
    requires Shape(s) && Progress(s) && Enabled(s, e) && RemovalEvent(e)
    ensures Progress(Step(s, e))
  {
  }

  lemma SnapshotProgress(s: State, e: Event)
    requires Shape(s) && Progress(s) && Enabled(s, e) && SnapshotEvent(e)
    ensures Progress(Step(s, e))
  {
  }

  lemma WindowProgress(s: State, e: Event)
    requires Shape(s) && Progress(s) && Enabled(s, e) && WindowEvent(e)
    ensures Progress(Step(s, e))
  {
  }

  lemma ArrivalProgress(s: State, e: Event)
    requires Shape(s) && Progress(s) && Enabled(s, e) && (e.Arrive? || e.Append?)
    ensures Progress(Step(s, e))
  {
  }

  lemma ResumeProgress(s: State)
    requires WalkReached(s.core, s.walk) && s.returned == Nothing
    ensures Progress(Resume(s))
  {
  }

  lemma JobStartProgress(s: State, e: Event)
    requires Shape(s) && Progress(s) && Enabled(s, e) && e.JobStart?
    ensures Progress(Step(s, e))
  {
    var t := s.(core := s.core.(queue := s.core.queue[1..]), returned := Nothing);
    if s.core.queue[0].Persist? {
      ResumeProgress(t);
    }
  }

  lemma JobEndProgress(s: State, e: Event)
    requires Shape(s) && Progress(s) && Enabled(s, e) && e.JobEnd?
    ensures Progress(Step(s, e))
  {
    if s.core.busy.job.Persist? {
      var saved := if e.reported then At(s.core.busy.value) else s.core.saved;
      ResumeProgress(s.(core := s.core.(busy := Idle, saved := saved), returned := Nothing));
    }
  }

  lemma StepProgress(s: State, e: Event)
    requires Shape(s) && Progress(s) && Enabled(s, e)
    ensures Progress(Step(s, e))
  {
    if WalkReadingEvent(e) {
      WalkReadingProgress(s, e);
    } else if WalkVerdictEvent(e) {
      WalkVerdictProgress(s, e);
    } else if e.JobStart? {
      JobStartProgress(s, e);
    } else if e.JobEnd? {
      JobEndProgress(s, e);
    } else if LiveEvent(e) {
      LiveProgress(s, e);
    } else if RemovalEvent(e) {
      RemovalProgress(s, e);
    } else if SnapshotEvent(e) {
      SnapshotProgress(s, e);
    } else if WindowEvent(e) {
      WindowProgress(s, e);
    } else if !e.WriteLands? && !e.Crash? {
      ArrivalProgress(s, e);
    }
  }

  lemma {:induction false} RunProgress(states: seq<State>, events: seq<Event>, n: nat)
    requires Run(states, events) && n <= |events|
    ensures Progress(states[n])
  {
    if n > 0 {
      RunProgress(states, events, n - 1);
      RunHasShape(states, events, n - 1);
      assert Linked(states[n - 1], events[n - 1], states[n - 1 + 1]);
      StepProgress(states[n - 1], events[n - 1]);
    }
  }

  /** In any run, admissible or not, a walk answers ok only over an empty replica or with the in-memory marker
      at or above the tip it read, unless everything up to that tip is below the truncation floor. */
  lemma OkCoversTip(states: seq<State>, events: seq<Event>, n: nat)
    requires Run(states, events) && n <= |events| && states[n].returned.Ok?
    ensures Empty(states[n].core) || Reached(states[n].core, states[n].returned.tip)
  {
    RunProgress(states, events, n);
  }

  // ---------------------------------------------------------------------------
  // Callers, seeds and removals
  // ---------------------------------------------------------------------------

  /** A caller goes on waiting, or the walk has answered all of them and those it let through hold a pass. */
  ghost predicate Attended(t: State, h: int) {
    && (t.returned == Nothing ==> h in t.core.waiting)
    && (t.returned.Ok? ==> h in t.core.passes)
    && (t.returned != Nothing ==> t.core.waiting == {} && t.walk == NoWalk)
  }

  lemma WalkAttends(s: State, e: Event, h: int)
    requires Enabled(s, e) && h in s.core.waiting && (WalkReadingEvent(e) || WalkVerdictEvent(e))
    ensures Attended(Step(s, e), h)
  {
  }

  lemma JobAttends(s: State, e: Event, h: int)
    requires Enabled(s, e) && h in s.core.waiting && (e.JobStart? || e.JobEnd?)
    ensures Attended(Step(s, e), h)
  {
  }

  lemma RestAttends(s: State, e: Event, h: int)
    requires Enabled(s, e) && h in s.core.waiting && !e.Crash? && !e.JobStart? && !e.JobEnd?
    requires !WalkReadingEvent(e) && !WalkVerdictEvent(e)
    ensures Attended(Step(s, e), h)
  {
  }

  lemma WaitingStays(s: State, e: Event, h: int)
    requires Enabled(s, e) && !e.Crash? && h in s.core.waiting
    ensures Attended(Step(s, e), h)
  {
    if WalkReadingEvent(e) || WalkVerdictEvent(e) {
      WalkAttends(s, e, h);
    } else if e.JobStart? || e.JobEnd? {
      JobAttends(s, e, h);
    } else {
      RestAttends(s, e, h);
    }
  }

  lemma WaitingOnce(states: seq<State>, events: seq<Event>, i: nat, h: int)
    requires Run(states, events) && i < |events| && !events[i].Crash? && h in states[i].core.waiting
    ensures states[i + 1].returned == Nothing ==> h in states[i + 1].core.waiting
    ensures states[i + 1].returned.Ok? ==> h in states[i + 1].core.passes
  {
    assert Linked(states[i], events[i], states[i + 1]);
    WaitingStays(states[i], events[i], h);
  }

  /** In any run without a crash, a caller that comes for the block above the tip waits until the walk answers,
      and is let through if that answer is ok. */
  lemma {:induction false} CallersAreAnswered(states: seq<State>, events: seq<Event>, k: nat, j: nat, h: int)
    requires Run(states, events) && k < j <= |events| && events[k] == Arrive && h == states[k].core.tip + 1
    requires forall i :: k < i < j ==> !events[i].Crash? && states[i].returned == Nothing
    ensures states[j].returned == Nothing ==> h in states[j].core.waiting
    ensures states[j].returned.Ok? ==> h in states[j].core.passes
  {
    if j > k + 1 {
      CallersAreAnswered(states, events, k, j - 1, h);
      WaitingOnce(states, events, j - 1, h);
    } else {
      assert Linked(states[k], events[k], states[k + 1]);
    }
  }

  /** A seed adopts only rows below both the legacy height and the tip the walk read, and verifies from there. */
  lemma SeedAdoptsBelow(s: State, e: Event, v: nat)
    requires Enabled(s, e) && e.WalkSeeded? && v in Step(s, e).core.passed && v !in s.core.passed
    ensures exists h <- s.core.row :: h < e.legacy && h < s.walk.tip && s.core.row[h] == v
    ensures Step(s, e).core.mark == At((if e.legacy < s.walk.tip then e.legacy else s.walk.tip) - 1)
  {
  }

  /** The removal is free to delete: the in-memory marker is at or below what stays, and either that height was
      written durably or the marker was there already. */
  ghost predicate OpensLowered(s: State, t: State)
    requires t.core.removal.Open?
  {
    var c, n := t.core, t.core.removal.n;
    && s.core.removal == Lowering(n) && c.mark.At? && c.mark.height <= n && c.row == s.core.row
    && (c.durable == At(n) || (c.mark == s.core.mark && c.durable == s.core.durable))
  }

  lemma JobStartOpens(s: State, e: Event)
    requires Enabled(s, e) && e.JobStart? && !s.core.removal.Open? && Step(s, e).core.removal.Open?
    ensures OpensLowered(s, Step(s, e))
  {
  }

  lemma JobEndOpens(s: State, e: Event)
    requires Shape(s) && Enabled(s, e) && e.JobEnd? && !s.core.removal.Open? && Step(s, e).core.removal.Open?
    ensures OpensLowered(s, Step(s, e))
  {
  }

  lemma OnlyJobsOpen(s: State, e: Event)
    requires Enabled(s, e) && !s.core.removal.Open? && Step(s, e).core.removal.Open?
    ensures e.JobStart? || e.JobEnd?
  {
  }

  /** In any run a removal becomes free to delete only with the in-memory marker at or below what stays, and then
      either it wrote that height durably or the marker was there already. */
  lemma RemovalOpensLowered(states: seq<State>, events: seq<Event>, k: nat)
    requires Run(states, events) && k < |events|
    requires !states[k].core.removal.Open? && states[k + 1].core.removal.Open?
    ensures OpensLowered(states[k], states[k + 1])
  {
    RunHasShape(states, events, k);
    assert Linked(states[k], events[k], states[k + 1]);
    OnlyJobsOpen(states[k], events[k]);
    if events[k].JobStart? {
      JobStartOpens(states[k], events[k]);
    } else {
      JobEndOpens(states[k], events[k]);
    }
  }

  // ---------------------------------------------------------------------------
  // What counts as verified
  // ---------------------------------------------------------------------------

  /** The step reads the version from the rows, with none being removed, and finds it clean. */
  ghost predicate Verifies(s: State, e: Event, v: nat) {
    && s.core.removals == 0
    && ((e == WalkRead(Clean) && s.walk.Evaluating? && s.walk.h in s.core.row && s.core.row[s.walk.h] == v)
        || (e == LiveRecompute(true) && s.live.Applied? && s.live.h in s.core.row && s.core.row[s.live.h] == v))
  }

  /** Stored history taken on trust: below a seed, and at or below a lowering that finds no marker. */
  ghost predicate Trusts(s: State, e: Event, v: nat) {
    exists h <- s.core.row ::
      && s.core.row[h] == v
      && ((e.WalkSeeded? && s.walk.Seeding? && h < e.legacy && h < s.walk.tip)
          || (e.JobStart? && s.core.queue != [] && s.core.queue[0].Lower? && !s.core.mark.At?
              && s.core.removal == Lowering(s.core.queue[0].n) && h <= s.core.queue[0].n))
  }

  /** Rows taken on trust as they land: a full snapshot's, and a window's join block. */
  ghost predicate LandsAdopted(s: State, e: Event, v: nat) {
    || (e.SnapshotLand? && s.core.next <= v <= s.core.next + (e.last - e.first))
    || (e.WindowLand? && v == s.core.next)
  }

  ghost predicate Passed(s: State, e: Event, v: nat) {
    Verifies(s, e, v) || Trusts(s, e, v) || LandsAdopted(s, e, v)
  }

  lemma JobStartPasses(s: State, e: Event, v: nat)
    requires Enabled(s, e) && e.JobStart? && v in Step(s, e).core.passed && v !in s.core.passed
    ensures Trusts(s, e, v)
  {
  }

  lemma LandingPasses(s: State, e: Event, v: nat)
    requires Enabled(s, e) && (e.SnapshotLand? || e.WindowLand?) && v in Step(s, e).core.passed && v !in s.core.passed
    ensures LandsAdopted(s, e, v)
  {
  }

  lemma WalkPasses(s: State, e: Event, v: nat)
    requires Enabled(s, e) && (WalkReadingEvent(e) || WalkVerdictEvent(e))
    requires v in Step(s, e).core.passed && v !in s.core.passed
    ensures Verifies(s, e, v) || Trusts(s, e, v)
  {
    if e.WalkSeeded? {
      SeedAdoptsBelow(s, e, v);
    }
  }

  lemma LivePasses(s: State, e: Event, v: nat)
    requires Enabled(s, e) && LiveEvent(e) && v in Step(s, e).core.passed && v !in s.core.passed
    ensures Verifies(s, e, v)
  {
  }

  lemma NothingElsePasses(s: State, e: Event)
    requires Enabled(s, e) && !WalkReadingEvent(e) && !WalkVerdictEvent(e) && !LiveEvent(e)
    requires !e.JobStart? && !e.SnapshotLand? && !e.WindowLand?
    ensures Step(s, e).core.passed == s.core.passed
  {
  }

  lemma StepPasses(s: State, e: Event, v: nat)
    requires Enabled(s, e) && v in Step(s, e).core.passed && v !in s.core.passed
    ensures Passed(s, e, v)
  {
    if WalkReadingEvent(e) || WalkVerdictEvent(e) {
      WalkPasses(s, e, v);
    } else if LiveEvent(e) {
      LivePasses(s, e, v);
    } else if e.JobStart? {
      JobStartPasses(s, e, v);
    } else if e.SnapshotLand? || e.WindowLand? {
      LandingPasses(s, e, v);
    } else {
      NothingElsePasses(s, e);
    }
  }

  /** In any run a version counts as verified only if it did at the start, or some step found it clean in the rows,
      took it on trust as the code documents, or adopted it as it landed. */
  lemma {:induction false} PassedHasCause(states: seq<State>, events: seq<Event>, n: nat, v: nat)
    requires Run(states, events) && n <= |events| && v in states[n].core.passed
    ensures v in states[0].core.passed || exists k :: 0 <= k < n && Passed(states[k], events[k], v)
  {
    if n > 0 {
      assert Linked(states[n - 1], events[n - 1], states[n - 1 + 1]);
      if v in states[n - 1].core.passed {
        PassedHasCause(states, events, n - 1, v);
      } else {
        StepPasses(states[n - 1], events[n - 1], v);
      }
    }
  }

  // ---------------------------------------------------------------------------
  // Failures
  // ---------------------------------------------------------------------------

  /** A save writes the in-memory marker exactly when no removal came between and no write of that height was
      reported since; a write that reports failure leaves the height owed. */
  lemma OwedHeightIsWritten(s: State, gen: nat)
    requires Enabled(s, JobStart) && s.core.queue[0] == Persist(gen)
    ensures var c := Step(s, JobStart).core;
            && (c.busy.Writing? <==> Unchanged(s.core, gen) && s.core.mark.At? && s.core.mark != s.core.saved)
            && (c.busy.Writing? ==> At(c.busy.value) == s.core.mark)
  {
  }

  lemma FailedWriteStaysOwed(s: State, reported: bool)
    requires Enabled(s, JobEnd(reported))
    ensures Step(s, JobEnd(reported)).core.saved == if reported then At(s.core.busy.value) else s.core.saved
  {
  }

  /** A walk that is stopped, or cannot read the tip, the marker or the legacy height, answers held. */
  lemma StoppedWalkHolds(s: State, e: Event)
    requires Enabled(s, e) && (e.WalkStop? || e.WalkFault?)
    ensures Step(s, e).walk == NoWalk && Step(s, e).returned == Held
    ensures Step(s, e).core == s.core.(waiting := {})
  {
  }

  /** No walk begins while rows are being removed. */
  lemma NoWalkDuringRemoval(s: State)
    requires Enabled(s, WalkStart)
    ensures s.core.removals > 0 <==> Step(s, WalkStart).returned == Held
    ensures s.core.removals == 0 <==> Step(s, WalkStart).walk == ReadingTip(s.core.gen)
  {
  }

  /** A walk over no rows answers ok, and one whose rows changed evaluates nothing. */
  lemma EmptyWalkIsOk(s: State, e: Event)
    requires Enabled(s, e)
    ensures e.WalkTip? && Empty(s.core) ==> Step(s, e).returned == Ok(s.core.tip)
    ensures e.WalkEvaluate? && !Unchanged(s.core, s.walk.gen) ==> Step(s, e).returned == Held
  {
  }

  /** A live block that is dropped, or does not recompute clean, raises nothing and counts as verified nowhere. */
  lemma BadLiveBlockIsDropped(s: State, e: Event)
    requires Enabled(s, e) && (e.LiveDrop? || e == LiveRecompute(false))
    ensures Step(s, e) == s.(live := NoLive, returned := Nothing)
  {
  }

  /** A window's marker write that fails lands nothing and leaves the marker alone. */
  lemma FailedAdoptLandsNothing(s: State)
    requires Enabled(s, JobEnd(false)) && s.core.busy.job.Adopt? && s.core.busy.job.strict
    ensures var c := Step(s, JobEnd(false)).core;
            && c.boot == NoBoot && c.row == s.core.row && c.mark == s.core.mark && c.durable == s.core.durable
            && c.busy == Idle
  {
  }

  /** A lowering whose write fails opens nothing and deletes nothing. */
  lemma FailedLoweringDeletesNothing(s: State)
    requires Enabled(s, JobEnd(false)) && s.core.busy.job.Lower?
    ensures var c := Step(s, JobEnd(false)).core;
            c.removal == NoRemoval && c.row == s.core.row && c.tip == s.core.tip && c.mark == s.core.mark
  {
  }
}
