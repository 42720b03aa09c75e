/** The durable halt: a `sync_halt` row, a best-effort copy in `sync_state` when the row's write fails, a retry
    timer, the reads at startup and the operator clear, interleaved at every await, with crashes.
 */
module HaltPersistence {

  import opened Hashing

  /** A halt object in memory; `id` is its identity, `synthetic` marks one that stands for an unreadable
      table. */
  datatype Halt = Halt(id: nat, block: int, synthetic: bool)

  /** The `halt_pending` value: absent, overwritten with the empty string, or a halt. */
  datatype Copy = NoCopy | Blank | CopyOf(block: int)

  datatype Phase = Down | ReadingRow | ReadingCopy | Waiting | Running

  /** A call of `persistHalt` or `retryHaltPersist` in flight. */
  datatype Task =
    | Recording(h: Halt, retry: bool, stored: bool)
    | Copying(h: Halt)
    | Dropping
    | Overwriting
    | Finished

  datatype Clear = NoClear | Updating(wasDurable: bool) | Updated | ClearDropping | ClearOverwriting

  /** `rows` are the blocks of the active `sync_halt` rows in insertion order. `landed` remembers the
      blocks of the halts one of whose two writes has landed since the last operator clear. */
  datatype State = State(
    rows: seq<int>, copy: Copy,
    phase: Phase, halted: Option<Halt>, durable: bool, pendingCopy: bool, timer: Option<Halt>,
    tasks: seq<Task>, clear: Clear, nextId: nat,
    landed: set<int>)

  datatype Event =
    | Apply
    | Diverge(block: int)
    | RecordLands(i: nat, seen: bool)
    | RecordDone(i: nat, ok: bool)
    | CopyLands(i: nat)
    | CopyDone(i: nat)
    | DropLands(i: nat)
    | DropDone(i: nat, reported: bool)
    | OverwriteLands(i: nat)
    | OverwriteDone(i: nat)
    | RetryFires
    | Crash
    | Start
    | RowRead(readable: bool)
    | CopyRead(readable: bool)
    | Recheck
    | ClearBegin
    | ClearLands
    | ClearReturns(ok: bool)
    | ClearDropLands
    | ClearDropReturns(reported: bool, restart: bool)
    | ClearOverwriteLands
    | ClearEnds(restart: bool)

  ghost predicate RowHolds(s: State, block: int) {
    block in s.rows
  }

  /** One of the two durable records holds the halt. */
  ghost predicate Holds(s: State, block: int) {
    RowHolds(s, block) || s.copy == CopyOf(block)
  }

  /** No clear has taken the rows away from the halt in force. */
  ghost predicate InForce(s: State) {
    s.clear == NoClear || s.clear.Updating?
  }

  // ---------------------------------------------------------------------------
  // Steps
  // ---------------------------------------------------------------------------

  ghost predicate Enabled(s: State, e: Event) {
    match e
    case Apply => s.phase == Running && s.halted == None
    case Diverge(_) => s.phase == Running && s.halted == None
    case RecordLands(i, _) => i < |s.tasks| && s.tasks[i].Recording? && !s.tasks[i].stored
    case RecordDone(i, ok) => i < |s.tasks| && s.tasks[i].Recording? && (ok ==> s.tasks[i].stored)
    case CopyLands(i) => i < |s.tasks| && s.tasks[i].Copying?
    case CopyDone(i) => i < |s.tasks| && s.tasks[i].Copying?
    case DropLands(i) => i < |s.tasks| && s.tasks[i].Dropping?
    case DropDone(i, _) => i < |s.tasks| && s.tasks[i].Dropping?
    case OverwriteLands(i) => i < |s.tasks| && s.tasks[i].Overwriting?
    case OverwriteDone(i) => i < |s.tasks| && s.tasks[i].Overwriting?
    case RetryFires => s.timer.Some?
    case Crash => true
    case Start => s.phase == Down && s.clear == NoClear
    case RowRead(_) => s.phase == ReadingRow
    case CopyRead(_) => s.phase == ReadingCopy
    case Recheck => s.phase == Waiting && s.halted.Some? && s.halted.value.synthetic && s.clear == NoClear
    case ClearBegin => (s.phase == Running || s.phase == Waiting) && s.halted.Some? && s.clear == NoClear
    case ClearLands => s.clear.Updating?
    // A clear that reports success landed; one that reports failure did not.
    case ClearReturns(ok) => if ok then s.clear == Updated else s.clear.Updating?
    case ClearDropLands => s.clear == ClearDropping
    case ClearDropReturns(_, restart) => s.clear == ClearDropping && (restart ==> CanRestart(s))
    case ClearOverwriteLands => s.clear == ClearOverwriting
    case ClearEnds(restart) => s.clear == ClearOverwriting && (restart ==> CanRestart(s))
  }

  /** The start that restored its halt over an empty replica idles on it, to start over when it is cleared,
      only once the halt's first write has returned. */
  ghost predicate CanRestart(s: State) {
    forall i :: 0 <= i < |s.tasks| ==> !s.tasks[i].Copying? && (s.tasks[i].Recording? ==> s.tasks[i].retry)
  }

  /** A write that can never change the copy of a later halt: one that has returned, or a retry, which stops
      once its own halt is no longer in force. */
  ghost predicate Harmless(t: Task) {
    t.Finished? || (t.Recording? && t.retry)
  }

  ghost predicate Quiet(s: State) {
    forall i :: 0 <= i < |s.tasks| ==> Harmless(s.tasks[i])
  }

  /** The clear may end once no harmful write of the cleared halt is under way, or when a row that landed since
      keeps the start that follows halted. */
  ghost predicate MayEnd(s: State, restart: bool) {
    Quiet(s) || ((s.phase == Waiting || restart) && s.rows != [])
  }

  ghost predicate Admissible(s: State, e: Event) {
    match e
    case ClearDropReturns(reported, restart) => reported ==> MayEnd(s, restart)
    case ClearEnds(restart) => MayEnd(s, restart)
    case _ => true
  }

  /** A durable write of the halt in force landed, with no clear past its row update. */
  ghost function Land(s: State, h: Halt): State {
    if s.halted == Some(h) && InForce(s) then s.(landed := s.landed + {h.block}) else s
  }

  ghost function Insert(rows: seq<int>, block: int, seen: bool): seq<int> {
    if seen && rows != [] && rows[|rows| - 1] == block then rows else rows + [block]
  }

  /** The row is written: durable now, and the copy this process wrote goes. */
  ghost function Recorded(s: State, i: nat): State
    requires i < |s.tasks|
  {
    var t := s.(durable := true);
    if s.pendingCopy then t.(pendingCopy := false, tasks := s.tasks[i := Dropping])
    else t.(tasks := s.tasks[i := Finished])
  }

  /** The clear is over; a client that was waiting at startup, or restored its halt over an empty replica,
      starts over. */
  ghost function Cleared(s: State, restart: bool): State {
    s.(halted := None, clear := NoClear, phase := if s.phase == Waiting || restart then Down else s.phase)
  }

  ghost function Step(s: State, e: Event): State
    requires Enabled(s, e)
  {
    match e
    case Apply => s
    case Diverge(block) =>
      var h := Halt(s.nextId, block, false);
      s.(halted := Some(h), nextId := s.nextId + 1, tasks := s.tasks + [Recording(h, false, false)])
    case RecordLands(i, seen) =>
      var t := s.tasks[i];
      Land(s.(rows := Insert(s.rows, t.h.block, seen), tasks := s.tasks[i := t.(stored := true)]), t.h)
    case RecordDone(i, ok) =>
      var t := s.tasks[i];
      if ok then
        if t.retry && s.halted != Some(t.h) then s.(tasks := s.tasks[i := Finished]) else Recorded(s, i)
      else if t.retry then s.(timer := Some(t.h), tasks := s.tasks[i := Finished])
      else s.(durable := false, pendingCopy := true, tasks := s.tasks[i := Copying(t.h)])
    case CopyLands(i) => Land(s.(copy := CopyOf(s.tasks[i].h.block)), s.tasks[i].h)
    case CopyDone(i) => s.(timer := Some(s.tasks[i].h), tasks := s.tasks[i := Finished])
    case DropLands(i) => s.(copy := NoCopy)
    case DropDone(i, reported) => s.(tasks := s.tasks[i := if reported then Finished else Overwriting])
    case OverwriteLands(i) => s.(copy := Blank)
    case OverwriteDone(i) => s.(tasks := s.tasks[i := Finished])
    case RetryFires =>
      var h := s.timer.value;
      if s.halted == Some(h) then s.(timer := None, tasks := s.tasks + [Recording(h, true, false)])
      else s.(timer := None)
    case Crash =>
      s.(phase := Down, halted := None, durable := true, pendingCopy := false, timer := None, tasks := [],
         clear := NoClear)
    case Start => s.(phase := ReadingRow)
    case RowRead(readable) =>
      if !readable then s.(phase := Waiting, halted := Some(Halt(s.nextId, -1, true)), nextId := s.nextId + 1)
      else if s.rows != [] then
        s.(phase := Waiting, halted := Some(Halt(s.nextId, s.rows[|s.rows| - 1], false)), nextId := s.nextId + 1)
      else s.(phase := ReadingCopy)
    case CopyRead(readable) =>
      if !readable then s.(phase := Waiting, halted := Some(Halt(s.nextId, -1, true)), nextId := s.nextId + 1)
      else if s.copy.CopyOf? then
        var h := Halt(s.nextId, s.copy.block, false);
        s.(phase := Running, halted := Some(h), nextId := s.nextId + 1, pendingCopy := true,
           tasks := s.tasks + [Recording(h, false, false)])
      else s.(phase := Running)
    case Recheck => s.(phase := Down, halted := None)
    case ClearBegin =>
      if s.halted.value.synthetic then s.(timer := None, durable := true, halted := None, phase := Down)
      else s.(timer := None, durable := true, clear := Updating(s.durable))
    case ClearLands => s.(rows := [], landed := {}, clear := Updated)
    case ClearReturns(ok) =>
      if ok then s.(clear := ClearDropping, pendingCopy := false)
      else s.(clear := NoClear, durable := s.clear.wasDurable,
              timer := if s.clear.wasDurable then s.timer else s.halted)
    case ClearDropLands => s.(copy := NoCopy)
    case ClearDropReturns(reported, restart) => if reported then Cleared(s, restart) else s.(clear := ClearOverwriting)
    case ClearOverwriteLands => s.(copy := Blank)
    case ClearEnds(restart) => Cleared(s, restart)
  }

  // ---------------------------------------------------------------------------
  // The invariant
  // ---------------------------------------------------------------------------

  /** Not running, and an active row stands between the process and running. */
  ghost predicate Fenced(s: State) {
    (s.phase == Down || s.phase == ReadingRow || s.phase == Waiting) && s.rows != []
  }

  /** While the process runs, or can come to run, each write under way belongs to the halt in force, and the
      copy is dropped only once the row holds it. */
  ghost predicate TaskOk(s: State, t: Task) {
    match t
    case Recording(h, retry, stored) =>
      && (!retry ==> s.halted == Some(h))
      && (s.halted == Some(h) && stored ==> RowHolds(s, h.block))
    case Copying(h) => s.halted == Some(h)
    case Dropping => s.halted.Some? && !s.halted.value.synthetic && RowHolds(s, s.halted.value.block)
    case Overwriting => s.halted.Some? && !s.halted.value.synthetic && RowHolds(s, s.halted.value.block)
    case Finished => true
  }

  ghost predicate TasksOk(s: State) {
    forall i :: 0 <= i < |s.tasks| ==> TaskOk(s, s.tasks[i])
  }

  /** Identities are fresh and only real halts are written. */
  ghost predicate NamesOk(s: State) {
    && (forall i :: 0 <= i < |s.tasks| && (s.tasks[i].Recording? || s.tasks[i].Copying?) ==>
          s.tasks[i].h.id < s.nextId && !s.tasks[i].h.synthetic)
    && (s.halted.Some? ==> s.halted.value.id < s.nextId)
    && (s.timer.Some? ==> s.timer.value.id < s.nextId && !s.timer.value.synthetic)
  }

  /** A halt held by its copy alone outside the running phase: nothing under way can touch the copy. */
  ghost predicate Settled(s: State) {
    && s.durable && Quiet(s)
    && (forall i :: 0 <= i < |s.tasks| && s.tasks[i].Recording? ==> s.halted != Some(s.tasks[i].h))
    && (s.timer.Some? ==> s.timer != s.halted)
    && (s.clear.Updating? ==> s.clear.wasDurable)
  }

  /** The copy alone holds the halt, and stays. */
  ghost predicate CopyKept(s: State, block: int) {
    && s.copy == CopyOf(block)
    && if s.phase == Running then s.halted.Some? && s.halted.value.block == block else Settled(s)
  }

  ghost predicate LandedOk(s: State) {
    && (s.landed != {} ==> InForce(s))
    && forall b <- s.landed ::
         && (RowHolds(s, b) || CopyKept(s, b))
         && (s.phase == Running || s.phase == Waiting ==> s.halted.Some?)
         && (s.phase == ReadingCopy ==> s.copy == CopyOf(b))
  }

  ghost predicate Inv(s: State) {
    && NamesOk(s)
    && (InForce(s) && !Fenced(s) ==> TasksOk(s))
    && (s.clear != NoClear ==>
          s.halted.Some? && !s.halted.value.synthetic && (s.phase == Running || s.phase == Waiting))
    && (s.halted.Some? ==> s.phase == Running || s.phase == Waiting)
    && (s.phase == Waiting ==> s.halted.Some?)
    // Only a running process writes a halt for the first time, or its copy.
    && (s.phase != Running ==> CanRestart(s))
    && (s.phase == Running && s.halted.Some? ==> !s.halted.value.synthetic)
    && LandedOk(s)
  }

  lemma RecordLandsKeeps(s: State, e: Event)
    requires Inv(s) && Enabled(s, e) && e.RecordLands?
    ensures Inv(Step(s, e))
  {
  }

  lemma OwnRecordKeeps(s: State, e: Event)
    requires Inv(s) && Enabled(s, e) && e.RecordDone? && e.ok && s.halted == Some(s.tasks[e.i].h)
    ensures Inv(Step(s, e))
  {
  }

  lemma StaleRecordKeeps(s: State, e: Event)
    requires Inv(s) && Enabled(s, e) && e.RecordDone? && e.ok && s.halted != Some(s.tasks[e.i].h)
    ensures Inv(Step(s, e))
  {
  }

  lemma RecordFailedKeeps(s: State, e: Event)
    requires Inv(s) && Enabled(s, e) && e.RecordDone? && !e.ok
    ensures Inv(Step(s, e))
  {
  }

  lemma CopyStepKeeps(s: State, e: Event)
    requires Inv(s) && Enabled(s, e) && (e.CopyLands? || e.CopyDone?)
    ensures Inv(Step(s, e))
  {
  }

  lemma DropStepKeeps(s: State, e: Event)
    requires Inv(s) && Enabled(s, e)
    requires e.DropLands? || e.DropDone? || e.OverwriteLands? || e.OverwriteDone?
    ensures Inv(Step(s, e))
  {
  }

  lemma DivergeKeeps(s: State, e: Event)
    requires Inv(s) && Enabled(s, e) && e.Diverge?
    ensures Inv(Step(s, e))
  {
  }

  lemma RetryFiresKeeps(s: State, e: Event)
    requires Inv(s) && Enabled(s, e) && e.RetryFires?
    ensures Inv(Step(s, e))
  {
  }

  lemma StartStepKeeps(s: State, e: Event)
    requires Inv(s) && Enabled(s, e) && (e.Crash? || e.Start? || e.Recheck?)
    ensures Inv(Step(s, e))
  {
  }

  lemma RowReadKeeps(s: State, e: Event)
    requires Inv(s) && Enabled(s, e) && e.RowRead?
    ensures Inv(Step(s, e))
  {
  }

  lemma CopyReadKeeps(s: State, e: Event)
    requires Inv(s) && Enabled(s, e) && e.CopyRead?
    ensures Inv(Step(s, e))
  {
  }

  lemma ClearRowsKeeps(s: State, e: Event)
    requires Inv(s) && Enabled(s, e) && (e.ClearBegin? || e.ClearLands? || e.ClearReturns?)
    ensures Inv(Step(s, e))
  {
  }

  lemma ClearCopyKeeps(s: State, e: Event)
    requires Inv(s) && Enabled(s, e) && (e.ClearDropLands? || e.ClearOverwriteLands?)
    ensures Inv(Step(s, e))
  {
  }

  lemma ClearEndKeeps(s: State, e: Event)
    requires Inv(s) && Enabled(s, e) && Admissible(s, e) && (e.ClearDropReturns? || e.ClearEnds?)
    ensures Inv(Step(s, e))
  {
  }

  ghost predicate WriteEvent(e: Event) {
    || e.RecordLands? || e.RecordDone? || e.CopyLands? || e.CopyDone?
    || e.DropLands? || e.DropDone? || e.OverwriteLands? || e.OverwriteDone?
  }

  ghost predicate ClearEvent(e: Event) {
    || e.ClearBegin? || e.ClearLands? || e.ClearReturns? || e.ClearDropLands? || e.ClearDropReturns?
    || e.ClearOverwriteLands? || e.ClearEnds?
  }

  lemma ClearStepKeeps(s: State, e: Event)
    requires Inv(s) && Enabled(s, e) && Admissible(s, e) && ClearEvent(e)
    ensures Inv(Step(s, e))
  {
    if e.ClearBegin? || e.ClearLands? || e.ClearReturns? {
      ClearRowsKeeps(s, e);
    } else if e.ClearDropLands? || e.ClearOverwriteLands? {
      ClearCopyKeeps(s, e);
    } else {
      ClearEndKeeps(s, e);
    }
  }

  lemma WriteStepKeeps(s: State, e: Event)
    requires Inv(s) && Enabled(s, e) && WriteEvent(e)
    ensures Inv(Step(s, e))
  {
    if e.RecordLands? {
      RecordLandsKeeps(s, e);
    } else if e.RecordDone? && e.ok && s.halted == Some(s.tasks[e.i].h) {
      OwnRecordKeeps(s, e);
    } else if e.RecordDone? && e.ok {
      StaleRecordKeeps(s, e);
    } else if e.RecordDone? {
      RecordFailedKeeps(s, e);
    } else if e.CopyLands? || e.CopyDone? {
      CopyStepKeeps(s, e);
    } else {
      DropStepKeeps(s, e);
    }
  }

  lemma ProcessStepKeeps(s: State, e: Event)
    requires Inv(s) && Enabled(s, e) && !WriteEvent(e) && !ClearEvent(e)
    ensures Inv(Step(s, e))
  {
    if e.RowRead? {
      RowReadKeeps(s, e);
    } else if e.CopyRead? {
      CopyReadKeeps(s, e);
    } else if e.Diverge? {
      DivergeKeeps(s, e);
    } else if e.RetryFires? {
      RetryFiresKeeps(s, e);
    } else if !e.Apply? {
      StartStepKeeps(s, e);
    }
  }

  lemma StepKeeps(s: State, e: Event)
    requires Inv(s) && Enabled(s, e) && Admissible(s, e)
    ensures Inv(Step(s, e))
  {
    if WriteEvent(e) {
      WriteStepKeeps(s, e);
    } else if ClearEvent(e) {
      ClearStepKeeps(s, e);
    } else {
      ProcessStepKeeps(s, e);
    }
  }

  // ---------------------------------------------------------------------------
  // Every run
  // ---------------------------------------------------------------------------

  /** A stopped process over any durable records. */
  ghost predicate Stopped(s: State) {
    && s.phase == Down && s.halted == None && s.durable && !s.pendingCopy && s.timer == None
    && s.tasks == [] && s.clear == NoClear && s.landed == {}
  }

  ghost predicate Linked(s: State, e: Event, t: State) {
    Enabled(s, e) && t == Step(s, e)
  }

  ghost predicate Run(states: seq<State>, events: seq<Event>) {
    && |states| == |events| + 1
    && forall i :: 0 <= i < |events| ==> Linked(states[i], events[i], states[i + 1])
  }

  ghost predicate AllAdmissible(states: seq<State>, events: seq<Event>)
    requires Run(states, events)
  {
    forall i :: 0 <= i < |events| ==> Admissible(states[i], events[i])
  }

  lemma {:induction false} RunKeeps(states: seq<State>, events: seq<Event>, i: nat)
    requires Run(states, events) && AllAdmissible(states, events) && Stopped(states[0]) && i <= |events|
    ensures Inv(states[i])
  {
    if i > 0 {
      RunKeeps(states, events, i - 1);
      assert Linked(states[i - 1], events[i - 1], states[i - 1 + 1]);
      StepKeeps(states[i - 1], events[i - 1]);
    }
  }

  lemma LandedStep(s: State, e: Event)
    requires Enabled(s, e) && !e.ClearLands?
    ensures s.landed <= Step(s, e).landed
  {
  }

  lemma LandedStays(states: seq<State>, events: seq<Event>, j: nat)
    requires Run(states, events) && j < |events| && !events[j].ClearLands?
    ensures states[j].landed <= states[j + 1].landed
  {
    assert Linked(states[j], events[j], states[j + 1]);
    LandedStep(states[j], events[j]);
  }

  /** The step is a durable write of the halt in force landing. */
  ghost predicate Lands(s: State, e: Event, h: Halt) {
    && s.halted == Some(h) && InForce(s)
    && (e.RecordLands? || e.CopyLands?) && e.i < |s.tasks|
    && (s.tasks[e.i].Recording? || s.tasks[e.i].Copying?) && s.tasks[e.i].h == h
  }

  lemma {:induction false} LandedUntilClear(states: seq<State>, events: seq<Event>, k: nat, i: nat, block: int)
    requires Run(states, events) && k <= i <= |events| && block in states[k].landed
    requires forall j :: k <= j < i ==> !events[j].ClearLands?
    ensures block in states[i].landed
  {
    if i > k {
      LandedUntilClear(states, events, k, i - 1, block);
      LandedStays(states, events, i - 1);
    }
  }

  /** Once the row or the copy of the halt in force has landed, one of them holds that halt at every later
      point before an operator clear lands, through failed writes, retries, crashes and restarts; and no block
      is applied in the meantime, by this process or a later one. */
  lemma HaltIsDurable(states: seq<State>, events: seq<Event>, k: nat, i: nat, h: Halt)
    requires Run(states, events) && AllAdmissible(states, events) && Stopped(states[0]) && k < i <= |events|
    requires Lands(states[k], events[k], h)
    requires forall j :: k <= j < i ==> !events[j].ClearLands?
    ensures Holds(states[i], h.block)
    ensures !Enabled(states[i], Apply)
  {
    assert Linked(states[k], events[k], states[k + 1]);
    LandedUntilClear(states, events, k + 1, i, h.block);
    RunKeeps(states, events, i);
  }

  /** A startup read that finds a record, or cannot read one. */
  ghost predicate ReadHalts(s: State, e: Event) {
    || (e.RowRead? && (!e.readable || s.rows != []))
    || (e.CopyRead? && (!e.readable || s.copy.CopyOf?))
  }

  /** The steps that let a halted client go on: a new start, and the end of an operator clear. */
  ghost predicate LetsGo(e: Event) {
    e.Start? || e.ClearDropReturns? || e.ClearEnds?
  }

  ghost predicate Barred(s: State) {
    s.phase == Down || s.phase == Waiting || (s.phase == Running && s.halted.Some?)
  }

  lemma ReadBars(s: State, e: Event)
    requires Enabled(s, e) && ReadHalts(s, e)
    ensures Barred(Step(s, e))
  {
  }

  lemma BarredStep(s: State, e: Event)
    requires Enabled(s, e) && Barred(s) && !LetsGo(e)
    ensures Barred(Step(s, e))
  {
  }

  /** In any run, after a startup read that finds a record or cannot read one, no block is applied before the
      next start or the end of an operator clear, whatever happens in between. */
  lemma {:induction false} StartFailsClosed(states: seq<State>, events: seq<Event>, k: nat, j: nat)
    requires Run(states, events) && k < j <= |events| && ReadHalts(states[k], events[k])
    requires forall i :: k < i < j ==> !LetsGo(events[i])
    ensures Barred(states[j]) && !Enabled(states[j], Apply)
  {
    assert Linked(states[j - 1], events[j - 1], states[j - 1 + 1]);
    if j == k + 1 {
      ReadBars(states[k], events[k]);
    } else {
      StartFailsClosed(states, events, k, j - 1);
      BarredStep(states[j - 1], events[j - 1]);
    }
  }

  /** The process goes down and the next one reads the active row. */
  ghost function RowReadBack(s: State): State {
    Step(Step(Step(s, Crash), Start), RowRead(true))
  }

  /** Wherever an admissible run stops, a start that can read the records is halted again: on the newest active
      row, or, where no row has landed, on the landed halt itself, whose row it writes again. */
  lemma RestartRestoresHalt(states: seq<State>, events: seq<Event>, k: nat, block: int)
    requires Run(states, events) && AllAdmissible(states, events) && Stopped(states[0]) && k <= |events|
    requires block in states[k].landed
    ensures var rows, read := states[k].rows, RowReadBack(states[k]);
            && (rows != [] ==>
                  read.halted.Some? && read.halted.value.block == rows[|rows| - 1] && read.phase == Waiting)
            && (rows == [] ==>
                  && Enabled(read, CopyRead(true))
                  && var back := Step(read, CopyRead(true));
                     && back.halted.Some? && back.halted.value.block == block && back.pendingCopy
                     && back.tasks == [Recording(back.halted.value, false, false)])
  {
    RunKeeps(states, events, k);
  }

  // ---------------------------------------------------------------------------
  // The condition is exact
  // ---------------------------------------------------------------------------

  /** A step keeps the invariant if and only if it is admissible. */
  lemma AdmissibleExactly(s: State, e: Event)
    requires Inv(s) && Enabled(s, e)
    ensures Admissible(s, e) <==> Inv(Step(s, e))
  {
    if Admissible(s, e) {
      StepKeeps(s, e);
    } else {
      var t := Step(s, e);
      var i :| 0 <= i < |s.tasks| && !Harmless(s.tasks[i]);
      assert !TaskOk(t, t.tasks[i]);
    }
  }

  ghost predicate Continues(s: State, events: seq<Event>)
    decreases |events|
  {
    events == [] || (Enabled(s, events[0]) && Admissible(s, events[0]) && Continues(Step(s, events[0]), events[1..]))
  }

  ghost function After(s: State, events: seq<Event>): State
    requires Continues(s, events)
    decreases |events|
  {
    if events == [] then s else After(Step(s, events[0]), events[1..])
  }

  /** Admissible steps lead from s to t. */
  ghost predicate Leads(s: State, t: State) {
    exists events :: Continues(s, events) && After(s, events) == t
  }

  lemma Stay(s: State)
    ensures Leads(s, s)
  {
    assert Continues(s, []) && After(s, []) == s;
  }

  lemma {:induction false} Snoc(s: State, events: seq<Event>, e: Event)
    requires Continues(s, events) && Enabled(After(s, events), e) && Admissible(After(s, events), e)
    ensures Continues(s, events + [e]) && After(s, events + [e]) == Step(After(s, events), e)
    decreases |events|
  {
    if events == [] {
      assert [e][1..] == [];
    } else {
      Snoc(Step(s, events[0]), events[1..], e);
      assert (events + [e])[1..] == events[1..] + [e];
    }
  }

  lemma Then(s: State, t: State, e: Event, u: State)
    requires Leads(s, t) && Enabled(t, e) && Admissible(t, e) && Step(t, e) == u
    ensures Leads(s, u)
  {
    var events :| Continues(s, events) && After(s, events) == t;
    Snoc(s, events, e);
    assert Continues(s, events + [e]);
  }

  /** Admissible steps lead to a point where a landed, uncleared halt is in neither record. */
  ghost predicate CanLose(s: State) {
    exists t, block :: Leads(s, t) && block in t.landed && !Holds(t, block)
  }

  lemma {:induction false} ContinuesKeeps(s: State, events: seq<Event>)
    requires Inv(s) && Continues(s, events)
    ensures Inv(After(s, events))
    decreases |events|
  {
    if events != [] {
      StepKeeps(s, events[0]);
      ContinuesKeeps(Step(s, events[0]), events[1..]);
    }
  }

  lemma InvCannotLose(s: State)
    requires Inv(s)
    ensures !CanLose(s)
  {
    forall t, block | Leads(s, t) && block in t.landed
      ensures Holds(t, block)
    {
      var events :| Continues(s, events) && After(s, events) == t;
      ContinuesKeeps(s, events);
    }
  }

  /** A halt whose own write failed and whose copy has landed, with earlier writes still under way. */
  ghost predicate CopyOnly(t: State, block: int) {
    && t.phase == Running && t.clear == NoClear && t.halted.Some? && t.halted.value.block == block
    && t.copy == CopyOf(block) && block in t.landed && block !in t.rows
  }

  lemma FirstWriteFails(s: State, t: State, j: nat, block: int)
    requires Leads(s, t) && t.phase == Running && t.clear == NoClear && t.halted.Some? && t.halted.value.block == block
    requires block !in t.rows
    requires j < |t.tasks| && t.tasks[j] == Recording(t.halted.value, false, false)
    ensures exists u :: Leads(s, u) && CopyOnly(u, block) && u.tasks == t.tasks[j := Copying(t.halted.value)]
  {
    var u := t.(durable := false, pendingCopy := true, tasks := t.tasks[j := Copying(t.halted.value)]);
    Then(s, t, RecordDone(j, false), u);
    var v := u.(copy := CopyOf(block), landed := u.landed + {block});
    Then(s, u, CopyLands(j), v);
  }

  /** The process is running with no halt in force: it diverges, and only the copy of the new halt lands. */
  lemma NextHaltIsCopied(s: State, t: State, block: int)
    requires Leads(s, t) && t.phase == Running && t.clear == NoClear && t.halted == None && block !in t.rows
    ensures exists u ::
              Leads(s, u) && CopyOnly(u, block) && |u.tasks| == |t.tasks| + 1 && u.tasks[..|t.tasks|] == t.tasks
  {
    var h := Halt(t.nextId, block, false);
    var d := t.(halted := Some(h), nextId := t.nextId + 1, tasks := t.tasks + [Recording(h, false, false)]);
    Then(s, t, Diverge(block), d);
    FirstWriteFails(s, d, |t.tasks|, block);
    var u :| Leads(s, u) && CopyOnly(u, block) && u.tasks == d.tasks[|t.tasks| := Copying(h)];
    assert u.tasks[..|t.tasks|] == t.tasks;
  }

  /** The process starts over with no active row: it restores the copy it finds, or runs and diverges. */
  lemma NextStartIsCopied(s: State, t: State, block: int)
    requires Leads(s, t) && t.phase == Down && t.clear == NoClear && t.halted == None && t.rows == []
    ensures exists u, b ::
              Leads(s, u) && CopyOnly(u, b) && |u.tasks| == |t.tasks| + 1 && u.tasks[..|t.tasks|] == t.tasks
  {
    Then(s, t, Start, t.(phase := ReadingRow));
    Then(s, t.(phase := ReadingRow), RowRead(true), t.(phase := ReadingCopy));
    if t.copy.CopyOf? {
      var h := Halt(t.nextId, t.copy.block, false);
      var d := t.(phase := Running, halted := Some(h), nextId := t.nextId + 1, pendingCopy := true,
                  tasks := t.tasks + [Recording(h, false, false)]);
      Then(s, t.(phase := ReadingCopy), CopyRead(true), d);
      FirstWriteFails(s, d, |t.tasks|, h.block);
      var u :| Leads(s, u) && CopyOnly(u, h.block) && u.tasks == d.tasks[|t.tasks| := Copying(h)];
      assert u.tasks[..|t.tasks|] == t.tasks;
    } else {
      Then(s, t.(phase := ReadingCopy), CopyRead(true), t.(phase := Running));
      NextHaltIsCopied(s, t.(phase := Running), block);
    }
  }

  /** A drop or an overwrite of an earlier halt takes the copy away. */
  lemma DropLoses(s: State, u: State, i: nat, block: int)
    requires Leads(s, u) && CopyOnly(u, block) && i < |u.tasks| && (u.tasks[i].Dropping? || u.tasks[i].Overwriting?)
    ensures CanLose(s)
  {
    var v := u.(copy := if u.tasks[i].Dropping? then NoCopy else Blank);
    Then(s, u, if u.tasks[i].Dropping? then DropLands(i) else OverwriteLands(i), v);
    assert block in v.landed && !Holds(v, block);
  }

  /** A copy of an earlier halt on another block overwrites it. */
  lemma CopyLoses(s: State, u: State, i: nat, block: int)
    requires Leads(s, u) && CopyOnly(u, block) && i < |u.tasks| && u.tasks[i].Copying? && u.tasks[i].h.block != block
    ensures CanLose(s)
  {
    var v := u.(copy := CopyOf(u.tasks[i].h.block));
    var w := Step(u, CopyLands(i));
    Then(s, u, CopyLands(i), w);
    assert w.copy == v.copy && w.rows == v.rows;
    assert block in w.landed && !Holds(w, block);
  }

  lemma LateWriteLoses(s: State, u: State, i: nat, block: int)
    requires Leads(s, u) && CopyOnly(u, block) && i < |u.tasks| && !Harmless(u.tasks[i])
    requires u.tasks[i].Copying? || u.tasks[i].Recording? ==> u.tasks[i].h.block != block
    ensures CanLose(s)
  {
    if u.tasks[i].Recording? {
      var v := u.(durable := false, pendingCopy := true, tasks := u.tasks[i := Copying(u.tasks[i].h)]);
      Then(s, u, RecordDone(i, false), v);
      CopyLoses(s, v, i, block);
    } else if u.tasks[i].Copying? {
      CopyLoses(s, u, i, block);
    } else {
      DropLoses(s, u, i, block);
    }
  }

  function Beyond(rows: seq<int>, x: int): (b: int)
    ensures b !in rows && b > x
    ensures forall r <- rows :: r < b
  {
    if rows == [] then x + 1
    else
      var n := |rows| - 1;
      var b := Beyond(rows[..n], x);
      assert rows == rows[..n] + [rows[n]];
      if rows[n] < b then b else rows[n] + 1
  }

  /** When a clear ends although it must not, admissible steps lead to a landed halt that neither record
      holds. */
  lemma InadmissibleCanLose(s: State, e: Event)
    requires Inv(s) && Enabled(s, e) && !Admissible(s, e)
    ensures CanLose(Step(s, e))
  {
    var t := Step(s, e);
    var i :| 0 <= i < |s.tasks| && !Harmless(s.tasks[i]);
    assert t.tasks == s.tasks;
    Stay(t);
    if t.phase == Running {
      var x := if t.tasks[i].Copying? || t.tasks[i].Recording? then t.tasks[i].h.block else 0;
      var block := Beyond(t.rows, x);
      NextHaltIsCopied(t, t, block);
      var u :| Leads(t, u) && CopyOnly(u, block) && |u.tasks| == |t.tasks| + 1 && u.tasks[..|t.tasks|] == t.tasks;
      assert u.tasks[i] == t.tasks[i];
      LateWriteLoses(t, u, i, block);
    } else {
      NextStartIsCopied(t, t, 0);
      var u, b :| Leads(t, u) && CopyOnly(u, b) && |u.tasks| == |t.tasks| + 1 && u.tasks[..|t.tasks|] == t.tasks;
      assert u.tasks[i] == t.tasks[i];
      LateWriteLoses(t, u, i, b);
    }
  }

  /** A run is admissible if and only if at none of its points admissible steps lead to the loss of a landed
      halt. */
  lemma {:induction false} AdmissibleIffHaltsHold(states: seq<State>, events: seq<Event>)
    requires Run(states, events) && Stopped(states[0])
    ensures AllAdmissible(states, events) <==> forall i :: 0 <= i <= |events| ==> !CanLose(states[i])
  {
    if AllAdmissible(states, events) {
      forall i | 0 <= i <= |events|
        ensures !CanLose(states[i])
      {
        RunKeeps(states, events, i);
        InvCannotLose(states[i]);
      }
    } else {
      var k :| 0 <= k < |events| && !Admissible(states[k], events[k]);
      FirstInadmissible(states, events, k);
    }
  }

  lemma {:induction false} FirstInadmissible(states: seq<State>, events: seq<Event>, k: nat)
    requires Run(states, events) && Stopped(states[0]) && k < |events| && !Admissible(states[k], events[k])
    ensures exists i :: 0 <= i <= |events| && CanLose(states[i])
  {
    if j :| 0 <= j < k && !Admissible(states[j], events[j]) {
      FirstInadmissible(states, events, j);
    } else {
      assert Run(states[..k + 1], events[..k]) && AllAdmissible(states[..k + 1], events[..k]);
      RunKeeps(states[..k + 1], events[..k], k);
      assert Linked(states[k], events[k], states[k + 1]);
      InadmissibleCanLose(states[k], events[k]);
    }
  }

  // ---------------------------------------------------------------------------
  // An inadmissible clear that an admissible run leads to
  // ---------------------------------------------------------------------------

  ghost const FIRST := Halt(0, 1, false)

  ghost const STOPPED := State([], NoCopy, Down, None, true, false, None, [], NoClear, 0, {})

  /** The first halt's write failed and its copy has landed. */
  ghost const COPIED := State([], CopyOf(1), Running, Some(FIRST), false, true, Some(FIRST), [Finished],
                              NoClear, 1, {1})

  /** A retry wrote its row; dropping the copy is in flight. */
  ghost const DROPPING := State([1], CopyOf(1), Running, Some(FIRST), true, false, None, [Finished, Dropping],
                                NoClear, 1, {1})

  lemma ReachesRunning()
    ensures Leads(STOPPED, STOPPED.(phase := Running))
  {
    Stay(STOPPED);
    Then(STOPPED, STOPPED, Start, STOPPED.(phase := ReadingRow));
    Then(STOPPED, STOPPED.(phase := ReadingRow), RowRead(true), STOPPED.(phase := ReadingCopy));
    Then(STOPPED, STOPPED.(phase := ReadingCopy), CopyRead(true), STOPPED.(phase := Running));
  }

  lemma ReachesCopied()
    ensures Leads(STOPPED, COPIED)
  {
    ReachesRunning();
    var s1 := STOPPED.(phase := Running);
    var s2 := s1.(halted := Some(FIRST), nextId := 1, tasks := [Recording(FIRST, false, false)]);
    Then(STOPPED, s1, Diverge(1), s2);
    var s3 := s2.(durable := false, pendingCopy := true, tasks := [Copying(FIRST)]);
    Then(STOPPED, s2, RecordDone(0, false), s3);
    var s4 := s3.(copy := CopyOf(1), landed := {1});
    Then(STOPPED, s3, CopyLands(0), s4);
    Then(STOPPED, s4, CopyDone(0), COPIED);
  }

  lemma ReachesDropping()
    ensures Leads(STOPPED, DROPPING)
  {
    ReachesCopied();
    var s1 := COPIED.(timer := None, tasks := [Finished, Recording(FIRST, true, false)]);
    Then(STOPPED, COPIED, RetryFires, s1);
    var s2 := s1.(rows := [1], tasks := [Finished, Recording(FIRST, true, true)]);
    Then(STOPPED, s1, RecordLands(1, false), s2);
    Then(STOPPED, s2, RecordDone(1, true), DROPPING);
  }

  /** The operator's clear has landed; the drop is still in flight. */
  ghost const CLEARING := State([], CopyOf(1), Running, Some(FIRST), true, false, None, [Finished, Dropping],
                                ClearDropping, 1, {})

  lemma ReachesClearing()
    ensures Leads(STOPPED, CLEARING)
  {
    ReachesDropping();
    var s1 := DROPPING.(clear := Updating(true));
    Then(STOPPED, DROPPING, ClearBegin, s1);
    var s2 := s1.(rows := [], landed := {}, clear := Updated);
    Then(STOPPED, s1, ClearLands, s2);
    Then(STOPPED, s2, ClearReturns(true), CLEARING);
  }

  lemma LeadsKeeps(s: State, t: State)
    requires Inv(s) && Leads(s, t)
    ensures Inv(t)
  {
    var events :| Continues(s, events) && After(s, events) == t;
    ContinuesKeeps(s, events);
  }

  /** An operator clear can end while the drop of the cleared halt's copy is in flight, and the next halt can
      then lose its only record. */
  lemma LateDropLosesHalt()
    ensures Stopped(STOPPED)
    ensures exists t, e :: Leads(STOPPED, t) && Enabled(t, e) && !Admissible(t, e) && CanLose(Step(t, e))
  {
    ReachesClearing();
    assert Inv(STOPPED);
    LeadsKeeps(STOPPED, CLEARING);
    assert !Harmless(CLEARING.tasks[1]);
    InadmissibleCanLose(CLEARING, ClearDropReturns(true, false));
  }
}
