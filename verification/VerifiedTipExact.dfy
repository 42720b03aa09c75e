/** Exactly when the verified-tip markers can be trusted: a step keeps the invariant if and only if it is
    admissible, after an inadmissible one a marker lies or does so when the next rows land, and so a run is
    admissible if and only if its markers hold throughout.
 */
module VerifiedTipExact {

  import opened VerifiedTip
  import opened VerifiedTipShape

  /** A step keeps the invariant if and only if it is admissible. */
  lemma AdmissibleExactly(s: State, e: Event)
    requires Inv(s) && Enabled(s, e)
    ensures Admissible(s, e) <==> Inv(Step(s, e))
  {
    if Admissible(s, e) {
      StepKeeps(s, e);
    } else if Inv(Step(s, e)) {
      LoadedMarkIsTheMark(s, e);
    }
  }

  lemma LoadedMarkIsTheMark(s: State, e: Event)
    requires Enabled(s, e) && e.WalkLoaded?
    ensures var c := Step(s, e).core; c.mark == s.walk.raw && c.row == s.core.row && c.passed == s.core.passed
  {
  }

  /** The steps that can leave a marker above rows about to land: an answer or a marker the walk delivers, a live
      gate, the end of a removal, a catch-up onto an empty replica, and marker writes that start or return. */
  ghost predicate Risky(e: Event) {
    || e.WalkTip? || e.WalkLoaded? || e.WalkSeeded? || e.LiveGate?
    || e.RemovalEnd? || e.StartBelow? || e.JobStart? || e.JobEnd?
  }

  lemma SafeWalkStep(s: State, e: Event)
    requires Inv(s) && Enabled(s, e) && !Risky(e) && (WalkReadingEvent(e) || WalkVerdictEvent(e))
    ensures Inv(Step(s, e))
  {
    if e.WalkStart? { WalkStartKeeps(s, e); }
    else if e.WalkLoadRead? { WalkLoadReadKeeps(s, e); }
    else if e.WalkEvaluate? { WalkEvaluateKeeps(s, e); }
    else if e.WalkRead? { WalkReadKeeps(s, e); }
    else if e.WalkFinish? { WalkFinishKeeps(s, e); }
    else if e.WalkStop? { WalkStopKeeps(s, e); }
    else { WalkFaultKeeps(s, e); }
  }

  lemma SafeLiveStep(s: State, e: Event)
    requires Inv(s) && Enabled(s, e) && !Risky(e) && LiveEvent(e)
    ensures Inv(Step(s, e))
  {
    if e.LiveApply? { LiveApplyKeeps(s, e); }
    else if e.LiveRecompute? { LiveRecomputeKeeps(s, e); }
    else if e.LiveRaise? { LiveRaiseKeeps(s, e); }
    else { LiveDropKeeps(s, e); }
  }

  lemma SafeRemovalStep(s: State, e: Event)
    requires Inv(s) && Enabled(s, e) && !Risky(e) && RemovalEvent(e)
    ensures Inv(Step(s, e))
  {
    if e.RemovalBegin? { RemovalBeginKeeps(s, e); }
    else if e.RemovalLoadRead? { RemovalLoadReadKeeps(s, e); }
    else if e.RemovalLoadDone? { RemovalLoadDoneKeeps(s, e); }
    else { RemovalDeleteKeeps(s, e); }
  }

  lemma SafeBootStep(s: State, e: Event)
    requires Inv(s) && Enabled(s, e) && !Risky(e) && (SnapshotEvent(e) || WindowEvent(e))
    ensures Inv(Step(s, e))
  {
    if e.SnapshotBegin? { SnapshotBeginKeeps(s, e); }
    else if e.SnapshotLand? { SnapshotLandKeeps(s, e); }
    else if e.SnapshotEnd? { SnapshotEndKeeps(s, e); }
    else if e.SnapshotAdopt? { SnapshotAdoptKeeps(s, e); }
    else if e.WindowAdopt? { WindowAdoptKeeps(s, e); }
    else if e.WindowLand? { WindowLandKeeps(s, e); }
    else { RangeLandKeeps(s, e); }
  }

  lemma SafeRowStep(s: State, e: Event)
    requires Inv(s) && Enabled(s, e) && !Risky(e) && OtherEvent(e)
    ensures Inv(Step(s, e))
  {
    if e.Arrive? { ArriveKeeps(s, e); }
    else if e.Append? { AppendKeeps(s, e); }
    else if e.WriteLands? { WriteLandsKeeps(s, e); }
    else { CrashKeeps(s, e); }
  }

  /** Every other step is admissible: reorgs up to their end, a crash at any point and a write landing included. */
  lemma OnlyRiskyStepsGoWrong(s: State, e: Event)
    requires Inv(s) && Enabled(s, e) && !Risky(e)
    ensures Admissible(s, e) && Inv(Step(s, e))
  {
    if WalkReadingEvent(e) || WalkVerdictEvent(e) {
      SafeWalkStep(s, e);
    } else if LiveEvent(e) {
      SafeLiveStep(s, e);
    } else if RemovalEvent(e) {
      SafeRemovalStep(s, e);
    } else if SnapshotEvent(e) || WindowEvent(e) {
      SafeBootStep(s, e);
    } else {
      SafeRowStep(s, e);
    }
    AdmissibleExactly(s, e);
  }

  /** No marker stands above rows about to land, were the marker and the passes these. */
  ghost predicate Covered(c: Core, mark: Mark, passes: set<int>) {
    !Exposed(c.(mark := mark, passes := passes))
  }

  /** The passes once the walk has answered its callers, ok or not. */
  ghost function Answered(c: Core, ok: bool): set<int> {
    if ok then c.passes + c.waiting else c.passes
  }

  /** With the marker known, the walk finds nothing above it up to the tip it read. */
  ghost predicate NothingLeft(c: Core, mark: Mark, tip: int) {
    mark.At? && mark.height <= tip && StartAt(c, mark.height) > tip
  }

  /** The save a walk waits for returns, and the walk then answers ok. */
  ghost predicate SaveAnswersOk(s: State) {
    s.walk.Saving? && s.walk.after.Done? && Unchanged(s.core, s.walk.gen)
  }

  /** What to check before each risky step. */
  ghost predicate Guard(s: State, e: Event)
    requires Enabled(s, e)
  {
    var c, w := s.core, s.walk;
    match e
    case WalkTip => Covered(c, c.mark, Answered(c, Empty(c) || NothingLeft(c, c.mark, c.tip)))
    case WalkLoaded => MarkVouched(c, w.raw) && Covered(c, w.raw, Answered(c, NothingLeft(c, w.raw, w.tip)))
    case WalkSeeded(legacy) =>
      var mark := At(SeedFrom(w, legacy) - 1);
      Covered(c, mark, Answered(c, StartAt(c, mark.height) > w.tip))
    case LiveGate(h) => Covered(c, c.mark, c.passes + {h})
    case RemovalEnd => Covered(c.(removal := NoRemoval), c.mark, c.passes)
    case StartBelow(since) => AtMost(c.durable, since - 1)
    case JobStart =>
      var job := c.queue[0];
      var skipped := job.Persist? && (!Unchanged(c, job.gen) || !c.mark.At? || c.mark == c.saved);
      skipped ==> Covered(c, c.mark, Answered(c, SaveAnswersOk(s)))
    case JobEnd(reported) =>
      (match c.busy.job
       case Persist(_) => Covered(c, c.mark, Answered(c, SaveAnswersOk(s)))
       case Lower(_) => !reported ==> Covered(c.(removal := NoRemoval), c.mark, c.passes)
       case Adopt(n, strict) => !strict ==> Covered(c.(boot := NoBoot), At(n), c.passes)
       case Raise(_, _) => true)
    case _ => true
  }

  lemma TipGuard(s: State, e: Event)
    requires Inv(s) && Enabled(s, e) && e.WalkTip?
    ensures Guard(s, e) <==> Admissible(s, e)
  {
  }

  lemma LoadedGuard(s: State, e: Event)
    requires Inv(s) && Enabled(s, e) && e.WalkLoaded?
    ensures Guard(s, e) <==> Admissible(s, e)
  {
  }

  lemma SeededGuard(s: State, e: Event)
    requires Inv(s) && Enabled(s, e) && e.WalkSeeded?
    ensures Guard(s, e) <==> Admissible(s, e)
  {
  }

  lemma GateGuard(s: State, e: Event)
    requires Inv(s) && Enabled(s, e) && (e.LiveGate? || e.RemovalEnd? || e.StartBelow?)
    ensures Guard(s, e) <==> Admissible(s, e)
  {
  }

  lemma SaveStartGuard(s: State, e: Event)
    requires Inv(s) && Enabled(s, e) && e.JobStart? && s.core.queue[0].Persist?
    ensures Guard(s, e) <==> Admissible(s, e)
  {
    assert JobOk(s.core, s.core.queue[0]);
  }

  lemma MarkStartGuard(s: State, e: Event)
    requires Inv(s) && Enabled(s, e) && e.JobStart? && !s.core.queue[0].Persist?
    ensures Guard(s, e) <==> Admissible(s, e)
  {
    assert JobOk(s.core, s.core.queue[0]);
  }

  lemma JobGuard(s: State, e: Event)
    requires Inv(s) && Enabled(s, e) && (e.JobStart? || e.JobEnd?)
    ensures Guard(s, e) <==> Admissible(s, e)
  {
    if e.JobStart? {
      if s.core.queue[0].Persist? { SaveStartGuard(s, e); } else { MarkStartGuard(s, e); }
    } else {
      if s.core.busy.job.Persist? { SaveEndGuard(s, e); } else { MarkEndGuard(s, e); }
    }
  }

  lemma WalkGuard(s: State, e: Event)
    requires Inv(s) && Enabled(s, e) && (e.WalkTip? || e.WalkLoaded? || e.WalkSeeded?)
    ensures Guard(s, e) <==> Admissible(s, e)
  {
    if e.WalkTip? { TipGuard(s, e); }
    else if e.WalkLoaded? { LoadedGuard(s, e); }
    else { SeededGuard(s, e); }
  }

  lemma SaveEndGuard(s: State, e: Event)
    requires Inv(s) && Enabled(s, e) && e.JobEnd? && s.core.busy.job.Persist?
    ensures Guard(s, e) <==> Admissible(s, e)
  {
  }

  lemma MarkEndGuard(s: State, e: Event)
    requires Inv(s) && Enabled(s, e) && e.JobEnd? && !s.core.busy.job.Persist?
    ensures Guard(s, e) <==> Admissible(s, e)
  {
  }

  /** Admissibility, read off the state before the step. */
  lemma GuardIsExact(s: State, e: Event)
    requires Inv(s) && Enabled(s, e)
    ensures Guard(s, e) <==> Inv(Step(s, e))
  {
    AdmissibleExactly(s, e);
    if !Risky(e) {
      OnlyRiskyStepsGoWrong(s, e);
    } else if e.JobStart? || e.JobEnd? {
      JobGuard(s, e);
    } else if e.WalkTip? || e.WalkLoaded? || e.WalkSeeded? {
      WalkGuard(s, e);
    } else {
      GateGuard(s, e);
    }
  }

  /** Rows landing without having been verified. */
  ghost predicate LandsRows(e: Event) {
    e.Append? || e.WindowLand? || e.RangeLand?
  }

  ghost function Higher(m: Mark, n: Mark): int
    requires m.At? || n.At?
  {
    if !m.At? then n.height else if !n.At? then m.height else if m.height > n.height then m.height else n.height
  }

  /** The rows that land up to the higher marker were not verified, and the step is itself admissible. */
  ghost function LandUnder(c: Core): Event
    requires Exposed(c)
  {
    var top := Higher(c.mark, c.durable);
    match c.boot
    case NoBoot => Append(if top > c.tip then top - c.tip else 0, true)
    case WindowReady(_) => WindowLand(top)
    case _ => RangeLand(top)
  }

  lemma ExposedAppendLies(t: State)
    requires RowsOk(t.core) && Exposed(t.core) && t.core.boot == NoBoot
    ensures var f := LandUnder(t.core); Enabled(t, f) && Admissible(t, f) && LandsRows(f) && !Sound(Step(t, f).core)
  {
    var c, d := t.core, Step(t, LandUnder(t.core)).core;
    assert d.row[c.tip + 1] == c.next && c.next !in d.passed;
  }

  lemma ExposedBootLies(t: State)
    requires RowsOk(t.core) && Exposed(t.core) && t.core.boot != NoBoot && Empty(t.core)
    requires t.core.boot.WindowReady? ==> t.core.base == t.core.boot.first
    ensures var f := LandUnder(t.core); Enabled(t, f) && Admissible(t, f) && LandsRows(f) && !Sound(Step(t, f).core)
  {
    var c, d := t.core, Step(t, LandUnder(t.core)).core;
    var h := if c.boot.WindowReady? then c.boot.first + 1 else c.base;
    assert h in d.row && d.row[h] !in d.passed;
  }

  /** The state already lies, or the next rows that may land make it lie. */
  ghost predicate CanLie(t: State) {
    !Sound(t.core) || exists f :: Enabled(t, f) && LandsRows(f) && !Sound(Step(t, f).core)
  }

  /** After an inadmissible step a marker lies at once, or does so when the next rows land. */
  lemma InadmissibleCanLie(s: State, e: Event)
    requires Inv(s) && Enabled(s, e) && !Admissible(s, e)
    ensures CanLie(Step(s, e))
  {
    var t := Step(s, e);
    if Exposed(t.core) {
      InvHasShape(s);
      StepShape(s, e);
      if t.core.boot == NoBoot {
        ExposedAppendLies(t);
      } else {
        ExposedBootLies(t);
      }
    } else {
      LoadedMarkIsTheMark(s, e);
    }
  }

  /** From a state of the invariant no rows that may land make a marker lie. */
  lemma InvCannotLie(t: State)
    requires Inv(t)
    ensures !CanLie(t)
  {
    forall f | Enabled(t, f) && LandsRows(f)
      ensures Sound(Step(t, f).core)
    {
      OnlyRiskyStepsGoWrong(t, f);
    }
  }

  // ---------------------------------------------------------------------------
  // Every run
  // ---------------------------------------------------------------------------

  /** A process with nothing under way over a contiguous replica whose markers are sound. */
  ghost predicate Start(s: State) {
    var c := s.core;
    && s.walk == NoWalk && s.live == NoLive && s.returned == Nothing
    && c.queue == [] && c.busy == Idle && c.removal == NoRemoval && c.boot == NoBoot && c.removals == 0
    && c.waiting == {} && c.passes == {}
    && RowsOk(c) && Sound(c) && c.durable != Unloaded
  }

  ghost predicate Linked(s: State, e: Event, t: State) {
    Enabled(s, e) && t == Step(s, e)
  }

  ghost predicate Run(states: seq<State>, events: seq<Event>) {
    && |states| == |events| + 1 && Start(states[0])
    && forall i :: 0 <= i < |events| ==> Linked(states[i], events[i], states[i + 1])
  }

  ghost predicate AdmissibleUpTo(states: seq<State>, events: seq<Event>, n: nat)
    requires Run(states, events) && n <= |events|
  {
    forall i :: 0 <= i < n ==> Passes(states[i], events[i])
  }

  ghost predicate Passes(s: State, e: Event) {
    Enabled(s, e) ==> Admissible(s, e)
  }

  lemma StartSound(s: State)
    requires Start(s)
    ensures Inv(s)
  {
  }

  lemma {:induction false} RunKeeps(states: seq<State>, events: seq<Event>, n: nat)
    requires Run(states, events) && n <= |events| && AdmissibleUpTo(states, events, n)
    ensures Inv(states[n])
  {
    if n == 0 {
      StartSound(states[0]);
    } else {
      RunKeeps(states, events, n - 1);
      assert Linked(states[n - 1], events[n - 1], states[n - 1 + 1]) && Passes(states[n - 1], events[n - 1]);
      StepKeeps(states[n - 1], events[n - 1]);
    }
  }

  /** In every admissible interleaving both markers vouch only for blocks that recomputed clean against, or
      were adopted with, the rows now stored, and a walk that returns ok leaves that true up to the tip it
      read. */
  lemma MarkersNeverLie(states: seq<State>, events: seq<Event>, n: nat)
    requires Run(states, events) && n <= |events| && AdmissibleUpTo(states, events, n)
    ensures Sound(states[n].core)
    ensures states[n].returned.Ok? ==> Vouched(states[n].core, states[n].returned.tip)
  {
    RunKeeps(states, events, n);
  }

  /** A run is admissible if and only if at none of its points a marker lies or can be made to lie by the next
      rows that land. */
  lemma {:induction false} AdmissibleIffMarkersHold(states: seq<State>, events: seq<Event>, n: nat)
    requires Run(states, events) && n <= |events|
    ensures AdmissibleUpTo(states, events, n) <==> forall i :: 0 <= i <= n ==> !CanLie(states[i])
  {
    if AdmissibleUpTo(states, events, n) {
      forall i | 0 <= i <= n
        ensures !CanLie(states[i])
      {
        RunKeeps(states, events, i);
        InvCannotLie(states[i]);
      }
    } else {
      FirstInadmissible(states, events, n);
    }
  }

  lemma {:induction false} FirstInadmissible(states: seq<State>, events: seq<Event>, n: nat)
    requires Run(states, events) && n <= |events| && !AdmissibleUpTo(states, events, n)
    ensures exists i :: 0 <= i <= n && CanLie(states[i])
  {
    if !AdmissibleUpTo(states, events, n - 1) {
      FirstInadmissible(states, events, n - 1);
    } else {
      RunKeeps(states, events, n - 1);
      assert Linked(states[n - 1], events[n - 1], states[n - 1 + 1]) && !Passes(states[n - 1], events[n - 1]);
      InadmissibleCanLie(states[n - 1], events[n - 1]);
      assert CanLie(states[n]);
    }
  }

  /** A restart never resumes above an unverified block: wherever the process stops, the walk of the next
      process starts at or below the first block that was not vouched for. */
  lemma RestartRewalks(states: seq<State>, events: seq<Event>, n: nat, h: int)
    requires Run(states, events) && n <= |events| && AdmissibleUpTo(states, events, n)
    requires h in states[n].core.row && states[n].core.row[h] !in states[n].core.passed
    ensures var c := Step(states[n], Crash).core;
            c.mark == Unloaded && (c.durable.At? ==> StartAt(c, c.durable.height) <= h)
  {
    RunKeeps(states, events, n);
  }

  // ---------------------------------------------------------------------------
  // Halts
  // ---------------------------------------------------------------------------

  /** The walk holds a halt verdict on a block, read from the rows now stored, with no removal begun or ended
      since the walk started. */
  ghost predicate HoldsHaltVerdict(s: State, h: int) {
    && s.walk.Evaluated? && s.walk.h == h && s.walk.verdict == Halt
    && s.walk.version == Version(s.core, h) && Unchanged(s.core, s.walk.gen)
  }

  lemma SettlesOnStoredRows(t: State, e: Event, h: int)
    requires Shape(t) && Enabled(t, e) && !(t.walk.Saving? && t.walk.after == Settle(h, Halt))
    requires var u := Step(t, e); u.walk.Saving? && u.walk.after == Settle(h, Halt)
    ensures HoldsHaltVerdict(t, h)
  {
  }

  lemma HaltedOnlyAfterSettle(s: State, e: Event, h: int)
    requires Enabled(s, e) && Step(s, e).returned == Halted(h)
    ensures s.walk.Saving? && s.walk.after == Settle(h, Halt)
  {
  }

  lemma {:induction false} RunHasShape(states: seq<State>, events: seq<Event>, n: nat)
    requires Run(states, events) && n <= |events|
    ensures Shape(states[n])
  {
    if n > 0 {
      RunHasShape(states, events, n - 1);
      assert Linked(states[n - 1], events[n - 1], states[n - 1 + 1]);
      StepShape(states[n - 1], events[n - 1]);
    } else {
      StartSound(states[0]);
      InvHasShape(states[0]);
    }
  }

  lemma {:induction false} SettledFromVerdict(states: seq<State>, events: seq<Event>, n: nat, h: int)
    requires Run(states, events) && n <= |events|
    requires states[n].walk.Saving? && states[n].walk.after == Settle(h, Halt)
    ensures exists i :: 0 <= i < n && HoldsHaltVerdict(states[i], h)
  {
    assert n > 0;
    assert Linked(states[n - 1], events[n - 1], states[n - 1 + 1]);
    if states[n - 1].walk.Saving? && states[n - 1].walk.after == Settle(h, Halt) {
      SettledFromVerdict(states, events, n - 1, h);
    } else {
      RunHasShape(states, events, n - 1);
      SettlesOnStoredRows(states[n - 1], events[n - 1], h);
    }
  }

  /** Whenever any run, admissible or not, returns a halt, an earlier state of it held a halt verdict on that
      block about the version then stored, with no removal since the walk started. */
  lemma HaltRestsOnStoredRows(states: seq<State>, events: seq<Event>, n: nat, h: int)
    requires Run(states, events) && 0 < n <= |events|
    requires states[n].returned == Halted(h)
    ensures exists i :: 0 <= i < n && HoldsHaltVerdict(states[i], h)
  {
    assert Linked(states[n - 1], events[n - 1], states[n - 1 + 1]);
    HaltedOnlyAfterSettle(states[n - 1], events[n - 1], h);
    SettledFromVerdict(states, events, n - 1, h);
  }
}
