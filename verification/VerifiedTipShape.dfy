/** What every step of the verified-tip protocol keeps, whether or not the markers can be trusted: the shape of
    the rows, of the tasks and of the queue, and that a verdict held while the rows are unchanged is about the
    version now stored.
 */
module VerifiedTipShape {

  import opened VerifiedTip

  ghost predicate JobShape(c: Core, job: Job) {
    match job
    case Adopt(n, strict) => if strict then c.boot == WindowAdopting(n) else c.boot.SnapshotAdopting?
    case _ => c.boot == NoBoot
  }

  ghost predicate QueueShape(c: Core) {
    forall i :: 0 <= i < |c.queue| ==> JobShape(c, c.queue[i])
  }

  ghost predicate BusyShape(c: Core) {
    c.busy.Writing? ==>
      && JobShape(c, c.busy.job)
      && (c.busy.job.Lower? ==> c.removal == Lowering(c.busy.job.n) && c.busy.value == c.busy.job.n)
  }

  ghost predicate RemovalShape(c: Core) {
    match c.removal
    case NoRemoval => true
    case RemovalLoading(n) => c.boot == NoBoot && !Empty(c) && c.base - 1 <= n <= c.tip
    case RemovalLoaded(n, _) => c.boot == NoBoot && !Empty(c) && c.base - 1 <= n <= c.tip
    case Lowering(n) => c.boot == NoBoot && !Empty(c) && c.base - 1 <= n <= c.tip
    case Open(n) => c.boot == NoBoot && c.base - 1 <= n <= c.tip && c.busy == Idle
    case OpenAll => true
  }

  ghost predicate BootShape(c: Core) {
    match c.boot
    case NoBoot => true
    case SnapshotAdopting => !Empty(c) && (c.queue == [] || (|c.queue| == 1 && c.queue[0].Adopt? && c.busy == Idle))
    case WindowAdopting(first) =>
      Empty(c) && c.base == first && (c.queue == [] || (|c.queue| == 1 && c.queue[0].Adopt? && c.busy == Idle))
    case WindowReady(first) => Empty(c) && c.base == first && c.queue == [] && c.busy == Idle
    case EmptyReady => Empty(c) && c.queue == [] && c.busy == Idle
    case SnapshotOpen => c.queue == [] && c.busy == Idle
    case _ => !Empty(c) && c.queue == [] && c.busy == Idle
  }

  ghost predicate CoreShape(c: Core) {
    RowsOk(c) && QueueShape(c) && BusyShape(c) && RemovalShape(c) && BootShape(c)
  }

  /** The walk stays below the tip it read while the rows are unchanged since it began. */
  ghost predicate WalkShape(c: Core, w: Walk) {
    && (!w.NoWalk? ==> w.gen <= c.gen)
    && (!w.NoWalk? && !w.ReadingTip? && Unchanged(c, w.gen) ==> w.tip <= c.tip && !Empty(c) && c.boot == NoBoot)
    && (w.ReadingTip? && Unchanged(c, w.gen) ==> c.boot == NoBoot || Empty(c))
    && ((w.Ready? || w.Evaluating? || w.Evaluated?) && Unchanged(c, w.gen) ==> w.h <= w.tip)
    && (w.Saving? && w.after.Next? && Unchanged(c, w.gen) ==> w.after.h <= w.tip)
    && (w.Evaluated? && Unchanged(c, w.gen) ==> w.version == Version(c, w.h))
  }

  ghost predicate Shape(s: State) {
    && CoreShape(s.core) && WalkShape(s.core, s.walk)
    && (s.core.boot != NoBoot ==> s.live == NoLive && !s.walk.Saving?)
  }

  lemma ReturnShape(s: State, r: Returned)
    requires CoreShape(s.core) && (s.core.boot != NoBoot ==> s.live == NoLive)
    ensures Shape(Return(s, r))
  {
  }

  lemma ProceedShape(s: State, gen: nat, tip: int, mark: int)
    requires CoreShape(s.core) && (s.core.boot != NoBoot ==> s.live == NoLive) && gen <= s.core.gen
    requires Unchanged(s.core, gen) ==> tip <= s.core.tip && !Empty(s.core) && s.core.boot == NoBoot
    ensures Shape(Proceed(s, gen, tip, mark))
  {
    if StartAt(s.core, mark) > tip {
      ReturnShape(s, Ok(tip));
    }
  }

  lemma MarkerKnownShape(s: State, gen: nat, tip: int)
    requires CoreShape(s.core) && (s.core.boot != NoBoot ==> s.live == NoLive) && gen <= s.core.gen
    requires Unchanged(s.core, gen) ==> tip <= s.core.tip && !Empty(s.core) && s.core.boot == NoBoot
    ensures Shape(MarkerKnown(s, gen, tip))
  {
    if s.core.mark.At? && s.core.mark.height <= tip {
      ProceedShape(s, gen, tip, s.core.mark.height);
    }
  }

  lemma WalkTipShape(s: State, e: Event)
    requires Shape(s) && Enabled(s, e) && e.WalkTip?
    ensures Shape(Step(s, e))
  {
    var t := s.(returned := Nothing);
    if Empty(s.core) {
      ReturnShape(t, Ok(s.core.tip));
    } else {
      MarkerKnownShape(t, s.walk.gen, s.core.tip);
    }
  }

  lemma WalkLoadedShape(s: State, e: Event)
    requires Shape(s) && Enabled(s, e) && e.WalkLoaded?
    ensures Shape(Step(s, e))
  {
    var c, w := s.core, s.walk;
    MarkedShape(c, w.raw, w.raw, c.passed);
    MarkerKnownShape(s.(core := c.(mark := w.raw, saved := w.raw), returned := Nothing), w.gen, w.tip);
  }

  lemma WalkSeededShape(s: State, e: Event)
    requires Shape(s) && Enabled(s, e) && e.WalkSeeded?
    ensures Shape(Step(s, e))
  {
    var start := SeedFrom(s.walk, e.legacy);
    var passed := s.core.passed + VersionsUpTo(s.core.row, start - 1);
    var c := s.core.(mark := At(start - 1), passed := passed);
    SeededStep(s, e, c, start);
    MarkedShape(s.core, At(start - 1), s.core.saved, passed);
    ProceedShape(s.(core := c, returned := Nothing), s.walk.gen, s.walk.tip, start - 1);
  }

  lemma WalkReadingShape(s: State, e: Event)
    requires Shape(s) && Enabled(s, e) && WalkReadingEvent(e)
    ensures Shape(Step(s, e))
  {
    if e.WalkStart? { ReturnShape(s.(returned := Nothing), Held); }
    else if e.WalkTip? { WalkTipShape(s, e); }
    else if e.WalkLoaded? { WalkLoadedShape(s, e); }
    else if e.WalkSeeded? { WalkSeededShape(s, e); }
  }

  lemma MarkedShape(c: Core, mark: Mark, saved: Mark, passed: set<nat>)
    requires CoreShape(c) && forall v <- passed :: v < c.next
    ensures CoreShape(c.(mark := mark, saved := saved, passed := passed))
  {
  }

  lemma SaveThenShape(s: State, gen: nat, tip: int, after: After)
    requires CoreShape(s.core) && gen <= s.core.gen && tip <= s.core.tip && !Empty(s.core) && s.core.boot == NoBoot
    requires after.Next? ==> after.h <= tip
    ensures Shape(SaveThen(s, gen, tip, after))
  {
  }

  lemma FinishShape(s: State, save: bool)
    requires Shape(s) && s.walk.Evaluated?
    ensures Shape(Finish(s, save))
  {
    var c, w := s.core, s.walk;
    if !Unchanged(c, w.gen) {
      ReturnShape(s, Held);
    } else if w.verdict != Clean {
      SaveThenShape(s, w.gen, w.tip, Settle(w.h, w.verdict));
    } else {
      var mark := if c.mark.At? && w.h <= c.mark.height then c.mark else At(w.h);
      MarkedShape(c, mark, c.saved, c.passed);
      SaveThenShape(s.(core := c.(mark := mark)), w.gen, w.tip, if w.h == w.tip then Done else Next(w.h + 1));
    }
  }

  lemma WalkVerdictShape(s: State, e: Event)
    requires Shape(s) && Enabled(s, e) && WalkVerdictEvent(e)
    ensures Shape(Step(s, e))
  {
    var t := s.(returned := Nothing);
    if e.WalkFinish? {
      FinishShape(t, e.save);
    } else if !e.WalkRead? {
      ReturnShape(t, Held);
    }
  }

  lemma LiveApplyShape(s: State, e: Event)
    requires Shape(s) && Enabled(s, e) && e.LiveApply?
    ensures Shape(Step(s, e))
  {
  }

  lemma LiveRecomputeShape(s: State, e: Event)
    requires Shape(s) && Enabled(s, e) && e.LiveRecompute?
    ensures Shape(Step(s, e))
  {
  }

  lemma LiveRaiseShape(s: State, e: Event)
    requires Shape(s) && Enabled(s, e) && e.LiveRaise?
    ensures Shape(Step(s, e))
  {
  }

  lemma LiveShape(s: State, e: Event)
    requires Shape(s) && Enabled(s, e) && LiveEvent(e)
    ensures Shape(Step(s, e))
  {
    if e.LiveApply? { LiveApplyShape(s, e); }
    else if e.LiveRecompute? { LiveRecomputeShape(s, e); }
    else if e.LiveRaise? { LiveRaiseShape(s, e); }
  }

  lemma RemovalBeginShape(s: State, e: Event)
    requires Shape(s) && Enabled(s, e) && e.RemovalBegin?
    ensures Shape(Step(s, e))
  {
  }

  lemma RemovalLoadDoneShape(s: State, e: Event)
    requires Shape(s) && Enabled(s, e) && e.RemovalLoadDone?
    ensures Shape(Step(s, e))
  {
  }

  lemma RemovalDeleteShape(s: State, e: Event)
    requires Shape(s) && Enabled(s, e) && e.RemovalDelete?
    ensures Shape(Step(s, e))
  {
  }

  lemma RemovalStepShape(s: State, e: Event)
    requires Shape(s) && Enabled(s, e) && RemovalEvent(e)
    ensures Shape(Step(s, e))
  {
    if e.RemovalBegin? { RemovalBeginShape(s, e); }
    else if e.RemovalLoadDone? { RemovalLoadDoneShape(s, e); }
    else if e.RemovalDelete? { RemovalDeleteShape(s, e); }
  }

  lemma SnapshotLandShape(s: State, e: Event)
    requires Shape(s) && Enabled(s, e) && e.SnapshotLand?
    ensures Shape(Step(s, e))
  {
  }

  lemma SnapshotAdoptShape(s: State, e: Event)
    requires Shape(s) && Enabled(s, e) && e.SnapshotAdopt?
    ensures Shape(Step(s, e))
  {
  }

  lemma SnapshotShape(s: State, e: Event)
    requires Shape(s) && Enabled(s, e) && SnapshotEvent(e)
    ensures Shape(Step(s, e))
  {
    if e.SnapshotLand? { SnapshotLandShape(s, e); }
    else if e.SnapshotAdopt? { SnapshotAdoptShape(s, e); }
  }

  lemma WindowAdoptShape(s: State, e: Event)
    requires Shape(s) && Enabled(s, e) && e.WindowAdopt?
    ensures Shape(Step(s, e))
  {
  }

  lemma WindowLandShape(s: State, e: Event)
    requires Shape(s) && Enabled(s, e) && e.WindowLand?
    ensures Shape(Step(s, e))
  {
  }

  lemma WindowShape(s: State, e: Event)
    requires Shape(s) && Enabled(s, e) && WindowEvent(e)
    ensures Shape(Step(s, e))
  {
    if e.WindowAdopt? { WindowAdoptShape(s, e); }
    else if e.WindowLand? { WindowLandShape(s, e); }
  }

  lemma ResumeShape(s: State)
    requires CoreShape(s.core) && WalkShape(s.core, s.walk) && s.core.boot == NoBoot
    ensures Shape(Resume(s))
  {
    if s.walk.Saving? && s.walk.after.Done? {
      ReturnShape(s, if Unchanged(s.core, s.walk.gen) then Ok(s.walk.tip) else Held);
    } else if s.walk.Saving? && s.walk.after.Settle? {
      ReturnShape(s, if s.walk.after.verdict == Halt then Halted(s.walk.after.h) else Held);
    }
  }

  lemma PoppedShape(s: State, t: State)
    requires Shape(s) && s.core.busy == Idle && s.core.queue != []
    requires t == s.(core := s.core.(queue := s.core.queue[1..]), returned := Nothing)
    ensures Shape(t) && JobShape(t.core, s.core.queue[0]) && (s.core.queue[0].Adopt? ==> t.core.queue == [])
  {
    assert JobShape(s.core, s.core.queue[0]);
    assert forall i :: 0 <= i < |t.core.queue| ==> t.core.queue[i] == s.core.queue[i + 1];
  }

  lemma StartJobShape(s: State, job: Job)
    requires Shape(s) && s.core.busy == Idle && JobShape(s.core, job) && (job.Adopt? ==> s.core.queue == [])
    ensures Shape(StartJob(s, job))
  {
    if job.Persist? {
      ResumeShape(s);
    }
  }

  lemma EndMarkerJobShape(s: State, reported: bool)
    requires Shape(s) && s.core.busy.Writing? && (s.core.busy.job.Raise? || s.core.busy.job.Lower?)
    ensures Shape(EndJob(s, reported))
  {
  }

  lemma EndAdoptShape(s: State, reported: bool)
    requires Shape(s) && s.core.busy.Writing? && s.core.busy.job.Adopt?
    ensures Shape(EndJob(s, reported))
  {
  }

  lemma IdleShape(c: Core, saved: Mark)
    requires CoreShape(c)
    ensures CoreShape(c.(busy := Idle, saved := saved))
  {
  }

  lemma EndJobShape(s: State, reported: bool)
    requires Shape(s) && s.core.busy.Writing?
    ensures Shape(EndJob(s, reported))
  {
    if s.core.busy.job.Persist? {
      var saved := if reported then At(s.core.busy.value) else s.core.saved;
      IdleShape(s.core, saved);
      ResumeShape(s.(core := s.core.(busy := Idle, saved := saved)));
    } else if s.core.busy.job.Adopt? {
      EndAdoptShape(s, reported);
    } else {
      EndMarkerJobShape(s, reported);
    }
  }

  lemma AppendShape(s: State, e: Event)
    requires Shape(s) && Enabled(s, e) && e.Append?
    ensures Shape(Step(s, e))
  {
  }

  lemma JobStartShape(s: State, e: Event)
    requires Shape(s) && Enabled(s, e) && e.JobStart?
    ensures Shape(Step(s, e))
  {
    var t := s.(core := s.core.(queue := s.core.queue[1..]), returned := Nothing);
    PoppedShape(s, t);
    StartJobShape(t, s.core.queue[0]);
  }

  lemma OtherShape(s: State, e: Event)
    requires Shape(s) && Enabled(s, e) && OtherEvent(e)
    ensures Shape(Step(s, e))
  {
    if e.JobStart? {
      JobStartShape(s, e);
    } else if e.JobEnd? {
      EndJobShape(s.(returned := Nothing), e.reported);
    } else if e.Append? {
      AppendShape(s, e);
    }
  }

  /** Every step keeps the shape. */
  lemma StepShape(s: State, e: Event)
    requires Shape(s) && Enabled(s, e)
    ensures Shape(Step(s, e))
  {
    if WalkReadingEvent(e) { WalkReadingShape(s, e); }
    else if WalkVerdictEvent(e) { WalkVerdictShape(s, e); }
    else if LiveEvent(e) { LiveShape(s, e); }
    else if RemovalEvent(e) { RemovalStepShape(s, e); }
    else if SnapshotEvent(e) { SnapshotShape(s, e); }
    else if WindowEvent(e) { WindowShape(s, e); }
    else { OtherShape(s, e); }
  }

  lemma InvHasShape(s: State)
    requires Inv(s)
    ensures Shape(s)
  {
  }
}
