/** Ordinary runs of the verified-tip protocol are admissible: the causes of an inadmissible step are few. */
module VerifiedTipOrdinary {

  import opened VerifiedTip
  import opened VerifiedTipShape
  import opened VerifiedTipExact

  /** The causes of an inadmissible step, each avoided: a marker read is delivered unchanged and first, a seed
      is stored with no removal since, a catch-up starts an empty replica above the durable marker, a lowering
      where no marker existed fails without landing, and a snapshot's marker write is not lost under a higher
      durable marker, to a crash or to a fail-soft write. */
  ghost predicate Ordinary(s: State, e: Event)
    requires Enabled(s, e)
  {
    var c := s.core;
    match e
    case WalkLoaded => s.walk.raw == c.durable && (c.mark == Unloaded || c.mark == s.walk.raw)
    case WalkSeeded(_) => Unchanged(c, s.walk.gen)
    case StartBelow(since) => AtMost(c.durable, since - 1)
    case JobEnd(reported) =>
      && (c.busy.job.Lower? && !reported && c.mark == Absent ==> c.durable == Absent)
      && (c.boot == SnapshotAdopting ==> AtMost(c.durable, c.tip))
    case Crash => SnapshotPending(c) ==> AtMost(c.durable, c.tip)
    case _ => true
  }

  /** A full snapshot is stored and its tip is not yet the marker. */
  ghost predicate SnapshotPending(c: Core) {
    c.boot == SnapshotLanded || c.boot == SnapshotClosed || c.boot == SnapshotAdopting
  }

  /** The durable marker is never above the in-memory one, nor either above the tip. */
  ghost predicate TidyMarks(c: Core) {
    && (!Empty(c) && !SnapshotPending(c) ==> AtMost(c.durable, c.tip))
    && (!Empty(c) && c.boot == NoBoot ==>
          && AtMost(c.mark, c.tip)
          && (c.mark.At? ==> AtMost(c.durable, c.mark.height))
          && (c.mark == Absent ==> c.durable == Absent || (c.busy.Writing? && c.busy.job.Lower?)))
    && (c.mark == Unloaded && c.boot == NoBoot ==> c.queue == [] && c.busy == Idle)
    && (c.boot.WindowReady? ==> c.mark == At(c.boot.first) && AtMost(c.durable, c.boot.first))
    && (c.boot == EmptyReady ==> c.mark == At(c.base - 1) && AtMost(c.durable, c.base - 1))
  }

  ghost predicate TidyTasks(c: Core) {
    && (c.busy.Writing? && (c.busy.job.Raise? || c.busy.job.Persist?) ==> c.mark.At? && c.busy.value <= c.mark.height)
    && (c.busy.Writing? && c.busy.job.Lower? && c.mark.At? ==> c.busy.value < c.mark.height)
    && (c.removal.RemovalLoading? || c.removal.RemovalLoaded? ==>
          c.queue == [] && c.busy == Idle && (c.mark == Unloaded || c.mark == c.durable))
    && (c.removal.RemovalLoaded? ==> c.removal.raw == c.durable)
    && (c.removal.Open? ==> c.mark.At? && c.mark.height <= c.removal.n && AtMost(c.durable, c.removal.n))
    && (forall i :: 0 <= i < |c.queue| && c.queue[i].Raise? ==> c.mark.At?)
  }

  /** Everything but the walk. */
  ghost predicate TidyBase(s: State) {
    var c := s.core;
    && TidyMarks(c) && TidyTasks(c)
    && (s.live != NoLive ==> c.mark.At?)
    && (s.returned.Ok? && !Empty(c) ==> c.mark.At?)
    && (c.removal.RemovalLoading? || c.removal.RemovalLoaded? ==> s.live == NoLive || s.live.Gated?)
  }

  ghost predicate TidyWalk(c: Core, w: Walk) {
    && (w.Seeding? || w.Ready? || w.Evaluating? || w.Evaluated? || w.Saving? ==> c.mark != Unloaded)
    && ((w.Loading? || w.Loaded?) && Unchanged(c, w.gen) ==> c.mark == Unloaded && AtMost(c.durable, w.tip))
    && (w.Seeding? && Unchanged(c, w.gen) ==> c.mark == Absent)
  }

  ghost predicate Tidy(s: State) {
    TidyBase(s) && TidyWalk(s.core, s.walk)
  }

  lemma TidyIsNotExposed(s: State)
    requires RowsOk(s.core) && Tidy(s)
    ensures !Exposed(s.core)
  {
  }

  lemma ReturnTidy(s: State, r: Returned)
    requires TidyBase(s.(returned := Nothing)) && (r.Ok? && !Empty(s.core) ==> s.core.mark.At?)
    ensures Tidy(Return(s, r))
  {
  }

  lemma MarkerKnownTidy(s: State, gen: nat, tip: int)
    requires TidyBase(s) && s.returned == Nothing
    requires Unchanged(s.core, gen) ==>
             AtMost(s.core.mark, tip) && (s.core.mark == Unloaded ==> AtMost(s.core.durable, tip))
    ensures Tidy(MarkerKnown(s, gen, tip))
  {
    if s.core.mark.At? && s.core.mark.height <= tip && StartAt(s.core, s.core.mark.height) > tip {
      ReturnTidy(s, Ok(tip));
    }
  }

  lemma WalkTipTidy(s: State, e: Event)
    requires Inv(s) && Tidy(s) && Enabled(s, e) && Ordinary(s, e) && e.WalkTip?
    ensures Tidy(Step(s, e))
  {
    var t := s.(returned := Nothing);
    if Empty(s.core) {
      ReturnTidy(t, Ok(s.core.tip));
    } else {
      MarkerKnownTidy(t, s.walk.gen, s.core.tip);
    }
  }

  lemma LoadedTidy(s: State, c: Core)
    requires Inv(s) && Tidy(s) && s.walk.Loaded? && c == s.core.(mark := s.walk.raw, saved := s.walk.raw)
    requires s.walk.raw == s.core.durable && (s.core.mark == Unloaded || s.core.mark == s.walk.raw)
    ensures TidyBase(s.(core := c, returned := Nothing))
    ensures Unchanged(c, s.walk.gen) ==> AtMost(c.mark, s.walk.tip)
  {
  }

  lemma WalkLoadedTidy(s: State, e: Event)
    requires Inv(s) && Tidy(s) && Enabled(s, e) && Ordinary(s, e) && e.WalkLoaded?
    ensures Tidy(Step(s, e))
  {
    var c := s.core.(mark := s.walk.raw, saved := s.walk.raw);
    LoadedTidy(s, c);
    MarkerKnownTidy(s.(core := c, returned := Nothing), s.walk.gen, s.walk.tip);
  }

  lemma WalkSeededTidy(s: State, e: Event)
    requires Inv(s) && Tidy(s) && Enabled(s, e) && Ordinary(s, e) && e.WalkSeeded?
    ensures Tidy(Step(s, e))
  {
  }

  lemma VoidFinishTidy(s: State, e: Event)
    requires Inv(s) && Tidy(s) && Enabled(s, e) && e.WalkFinish?
    requires (!Unchanged(s.core, s.walk.gen) || s.walk.verdict != Clean)
    ensures Tidy(Step(s, e))
  {
  }

  lemma CleanFinishTidy(s: State, e: Event)
    requires Inv(s) && Tidy(s) && Enabled(s, e) && e.WalkFinish? && Unchanged(s.core, s.walk.gen)
    requires s.walk.verdict == Clean
    ensures Tidy(Step(s, e))
  {
  }

  lemma WalkFinishTidy(s: State, e: Event)
    requires Inv(s) && Tidy(s) && Enabled(s, e) && Ordinary(s, e) && e.WalkFinish?
    ensures Tidy(Step(s, e))
  {
    if !Unchanged(s.core, s.walk.gen) || s.walk.verdict != Clean {
      VoidFinishTidy(s, e);
    } else {
      CleanFinishTidy(s, e);
    }
  }

  lemma RaiseJobStartTidy(s: State, e: Event)
    requires Inv(s) && Tidy(s) && Enabled(s, e) && Ordinary(s, e) && e.JobStart? && s.core.queue[0].Raise?
    ensures Tidy(Step(s, e))
  {
  }

  /** What is left of the walk once its save has returned. */
  lemma ResumeTidy(s: State)
    requires TidyBase(s) && TidyWalk(s.core, s.walk) && s.walk.Saving? && WalkOk(s.core, s.walk)
    requires s.returned == Nothing
    ensures Tidy(Resume(s))
  {
    if s.walk.after.Done? {
      ReturnTidy(s, if Unchanged(s.core, s.walk.gen) then Ok(s.walk.tip) else Held);
    } else if s.walk.after.Settle? {
      ReturnTidy(s, if s.walk.after.verdict == Halt then Halted(s.walk.after.h) else Held);
    }
  }

  lemma PoppedTidy(s: State, t: State)
    requires Inv(s) && Tidy(s) && s.core.busy == Idle && s.core.queue != []
    requires t == s.(core := s.core.(queue := s.core.queue[1..]), returned := Nothing)
    ensures Tidy(t) && WalkOk(t.core, t.walk)
  {
    assert forall i :: 0 <= i < |t.core.queue| ==> t.core.queue[i] == s.core.queue[i + 1];
  }

  lemma PersistJobStartTidy(s: State, e: Event)
    requires Inv(s) && Tidy(s) && Enabled(s, e) && Ordinary(s, e) && e.JobStart? && s.core.queue[0].Persist?
    ensures Tidy(Step(s, e))
  {
    var t := s.(core := s.core.(queue := s.core.queue[1..]), returned := Nothing);
    var gen := s.core.queue[0].gen;
    assert s.walk.Saving?;
    PoppedTidy(s, t);
    if !Unchanged(t.core, gen) || !t.core.mark.At? || t.core.mark == t.core.saved {
      ResumeTidy(t);
    }
  }

  lemma LowerJobStartTidy(s: State, e: Event)
    requires Inv(s) && Tidy(s) && Enabled(s, e) && Ordinary(s, e) && e.JobStart? && s.core.queue[0].Lower?
    ensures Tidy(Step(s, e))
  {
  }

  lemma AdoptJobStartTidy(s: State, e: Event)
    requires Inv(s) && Tidy(s) && Enabled(s, e) && Ordinary(s, e) && e.JobStart? && s.core.queue[0].Adopt?
    ensures Tidy(Step(s, e))
  {
  }

  lemma JobStartTidy(s: State, e: Event)
    requires Inv(s) && Tidy(s) && Enabled(s, e) && Ordinary(s, e) && e.JobStart?
    ensures Tidy(Step(s, e))
  {
    match s.core.queue[0]
    case Raise(_, _) => RaiseJobStartTidy(s, e);
    case Persist(_) => PersistJobStartTidy(s, e);
    case Lower(_) => LowerJobStartTidy(s, e);
    case Adopt(_, _) => AdoptJobStartTidy(s, e);
  }

  lemma RaiseJobEndTidy(s: State, e: Event)
    requires Inv(s) && Tidy(s) && Enabled(s, e) && Ordinary(s, e) && e.JobEnd? && s.core.busy.job.Raise?
    ensures Tidy(Step(s, e))
  {
  }

  lemma IdleTidy(s: State, c: Core, saved: Mark)
    requires Inv(s) && Tidy(s) && s.core.busy.Writing? && s.core.busy.job.Persist?
    requires c == s.core.(busy := Idle, saved := saved)
    ensures TidyBase(s.(core := c, returned := Nothing)) && TidyWalk(c, s.walk) && WalkOk(c, s.walk)
  {
  }

  lemma PersistJobEndTidy(s: State, e: Event)
    requires Inv(s) && Tidy(s) && Enabled(s, e) && Ordinary(s, e) && e.JobEnd? && s.core.busy.job.Persist?
    ensures Tidy(Step(s, e))
  {
    var saved := if e.reported then At(s.core.busy.value) else s.core.saved;
    var c := s.core.(busy := Idle, saved := saved);
    IdleTidy(s, c, saved);
    ResumeTidy(s.(core := c, returned := Nothing));
  }

  lemma LowerJobEndTidy(s: State, e: Event)
    requires Inv(s) && Tidy(s) && Enabled(s, e) && Ordinary(s, e) && e.JobEnd? && s.core.busy.job.Lower?
    ensures Tidy(Step(s, e))
  {
  }

  lemma AdoptJobEndTidy(s: State, e: Event)
    requires Inv(s) && Tidy(s) && Enabled(s, e) && Ordinary(s, e) && e.JobEnd? && s.core.busy.job.Adopt?
    ensures Tidy(Step(s, e))
  {
  }

  lemma JobEndTidy(s: State, e: Event)
    requires Inv(s) && Tidy(s) && Enabled(s, e) && Ordinary(s, e) && e.JobEnd?
    ensures Tidy(Step(s, e))
  {
    match s.core.busy.job
    case Raise(_, _) => RaiseJobEndTidy(s, e);
    case Persist(_) => PersistJobEndTidy(s, e);
    case Lower(_) => LowerJobEndTidy(s, e);
    case Adopt(_, _) => AdoptJobEndTidy(s, e);
  }

  lemma WalkReadingEventTidy(s: State, e: Event)
    requires Inv(s) && Tidy(s) && Enabled(s, e) && Ordinary(s, e) && WalkReadingEvent(e)
    ensures Tidy(Step(s, e))
  {
    if e.WalkTip? { WalkTipTidy(s, e); }
    else if e.WalkLoaded? { WalkLoadedTidy(s, e); }
    else if e.WalkSeeded? { WalkSeededTidy(s, e); }
  }

  lemma WalkVerdictEventTidy(s: State, e: Event)
    requires Inv(s) && Tidy(s) && Enabled(s, e) && Ordinary(s, e) && WalkVerdictEvent(e)
    ensures Tidy(Step(s, e))
  {
    if e.WalkFinish? { WalkFinishTidy(s, e); }
  }

  lemma LiveEventTidy(s: State, e: Event)
    requires Inv(s) && Tidy(s) && Enabled(s, e) && Ordinary(s, e) && LiveEvent(e)
    ensures Tidy(Step(s, e))
  {
  }

  lemma RemovalEventTidy(s: State, e: Event)
    requires Inv(s) && Tidy(s) && Enabled(s, e) && Ordinary(s, e) && RemovalEvent(e)
    ensures Tidy(Step(s, e))
  {
  }

  lemma SnapshotEventTidy(s: State, e: Event)
    requires Inv(s) && Tidy(s) && Enabled(s, e) && Ordinary(s, e) && SnapshotEvent(e)
    ensures Tidy(Step(s, e))
  {
  }

  lemma WindowEventTidy(s: State, e: Event)
    requires Inv(s) && Tidy(s) && Enabled(s, e) && Ordinary(s, e) && WindowEvent(e)
    ensures Tidy(Step(s, e))
  {
  }

  lemma OtherEventTidy(s: State, e: Event)
    requires Inv(s) && Tidy(s) && Enabled(s, e) && Ordinary(s, e) && OtherEvent(e)
    ensures Tidy(Step(s, e))
  {
    if e.JobStart? { JobStartTidy(s, e); }
    else if e.JobEnd? { JobEndTidy(s, e); }
  }

  lemma StepTidy(s: State, e: Event)
    requires Inv(s) && Tidy(s) && Enabled(s, e) && Ordinary(s, e)
    ensures Tidy(Step(s, e))
  {
    if WalkReadingEvent(e) { WalkReadingEventTidy(s, e); }
    else if WalkVerdictEvent(e) { WalkVerdictEventTidy(s, e); }
    else if LiveEvent(e) { LiveEventTidy(s, e); }
    else if RemovalEvent(e) { RemovalEventTidy(s, e); }
    else if SnapshotEvent(e) { SnapshotEventTidy(s, e); }
    else if WindowEvent(e) { WindowEventTidy(s, e); }
    else { OtherEventTidy(s, e); }
  }

  lemma OrdinaryIsAdmissible(s: State, e: Event)
    requires Inv(s) && Tidy(s) && Enabled(s, e) && Ordinary(s, e)
    ensures Admissible(s, e)
  {
    StepTidy(s, e);
    InvHasShape(s);
    StepShape(s, e);
    TidyIsNotExposed(Step(s, e));
  }

  ghost predicate OrdinaryUpTo(states: seq<State>, events: seq<Event>, n: nat)
    requires Run(states, events) && n <= |events|
  {
    forall i :: 0 <= i < n ==> IsOrdinary(states[i], events[i])
  }

  ghost predicate IsOrdinary(s: State, e: Event) {
    Enabled(s, e) ==> Ordinary(s, e)
  }

  /** Started with the durable marker at or below the in-memory one and the tip, a run that avoids the causes
      is admissible throughout: reorgs, failed lowerings, lost raises and saves, and crashes need no other
      care. */
  lemma {:induction false} OrdinaryRunsAreAdmissible(states: seq<State>, events: seq<Event>, n: nat)
    requires Run(states, events) && n <= |events| && Tidy(states[0]) && OrdinaryUpTo(states, events, n)
    ensures AdmissibleUpTo(states, events, n) && Inv(states[n]) && Tidy(states[n])
  {
    if n == 0 {
      StartSound(states[0]);
    } else {
      OrdinaryRunsAreAdmissible(states, events, n - 1);
      assert Linked(states[n - 1], events[n - 1], states[n - 1 + 1]) && IsOrdinary(states[n - 1], events[n - 1]);
      OrdinaryIsAdmissible(states[n - 1], events[n - 1]);
      StepTidy(states[n - 1], events[n - 1]);
      StepKeeps(states[n - 1], events[n - 1]);
    }
  }
}
