/** The verified-tip protocol: a walk over committed blocks, live blocks, row removals, bootstraps and
    a serialised queue of marker writes, interleaved at every await, with failed writes and crashes.

    Each step is one await-to-await segment of one of these tasks, or the moment a durable write lands.
    `row` maps a committed block to the version of its stored rows; `passed` holds the versions that
    recomputed clean or were adopted. Blocks land only under a pass: a caller reads the stored tip, asks for
    the walk and is let through when the walk, which callers share, answers ok; a live block is also let
    through when the marker equals the tip.
 */
module VerifiedTip {

  /** `_verifiedTip`: undefined before the first load, null when no marker exists, or a height. */
  datatype Mark = Unloaded | Absent | At(height: int)

  datatype Verdict = Clean | Halt | Unresolved

  datatype Job =
    | Raise(n: int, gen: nat)
    | Persist(gen: nat)
    | Lower(n: int)
    | Adopt(n: int, strict: bool)

  datatype Busy = Idle | Writing(job: Job, value: int)

  datatype After = Next(h: int) | Done | Settle(h: int, verdict: Verdict)

  datatype Walk =
    | NoWalk
    | ReadingTip(gen: nat)
    | Loading(gen: nat, tip: int)
    | Loaded(gen: nat, tip: int, raw: Mark)
    | Seeding(gen: nat, tip: int)
    | Ready(gen: nat, tip: int, h: int)
    | Evaluating(gen: nat, tip: int, h: int)
    | Evaluated(gen: nat, tip: int, h: int, version: int, verdict: Verdict)
    | Saving(gen: nat, tip: int, after: After)

  datatype Live =
    | NoLive
    | Gated(h: int, gen: nat)
    | Applied(h: int, gen: nat)
    | Recomputed(h: int, gen: nat)
    | Raising

  datatype Removal =
    | NoRemoval
    | RemovalLoading(n: int)
    | RemovalLoaded(n: int, raw: Mark)
    | Lowering(n: int)
    | Open(n: int)
    | OpenAll

  datatype Boot =
    | NoBoot
    | SnapshotOpen
    | SnapshotLanded
    | SnapshotClosed
    | SnapshotAdopting
    | WindowAdopting(first: int)
    | WindowReady(first: int)
    | EmptyReady

  /** What the last step returned to a caller of the walk. */
  datatype Returned = Nothing | Ok(tip: int) | Held | Halted(h: int)

  /** Everything but the walk and the live block: stored rows, both markers, the write queue, the
      removal holding the apply lock, the bootstrap, and the callers that would land rows: by the height they
      would land at, those waiting for a walk and those let through. */
  datatype Core = Core(
    base: int, tip: int, row: map<int, nat>, next: nat, passed: set<nat>,
    durable: Mark,
    mark: Mark, saved: Mark, gen: nat, removals: nat, truncated: bool,
    queue: seq<Job>, busy: Busy, removal: Removal, boot: Boot,
    waiting: set<int>, passes: set<int>)

  datatype State = State(core: Core, walk: Walk, live: Live, returned: Returned)

  datatype Event =
    // committed rows
    | Arrive | Append(count: nat, spent: bool)
    // the walk
    | WalkStart | WalkTip | WalkLoadRead | WalkLoaded | WalkSeeded(legacy: int)
    | WalkEvaluate | WalkRead(verdict: Verdict) | WalkFinish(save: bool) | WalkStop | WalkFault
    // a live block
    | LiveGate(h: int) | LiveApply(spent: bool) | LiveRecompute(clean: bool) | LiveRaise | LiveDrop
    // a reorg rollback
    | RemovalBegin(n: int) | RemovalLoadRead | RemovalLoadDone | RemovalDelete | RemovalEnd
    // a bootstrap
    | SnapshotBegin | SnapshotLand(first: int, last: int) | SnapshotEnd | SnapshotAdopt
    | WindowAdopt(at: int) | WindowLand(last: int) | StartBelow(since: int) | RangeLand(last: int)
    // marker writes
    | JobStart | WriteLands | JobEnd(reported: bool)
    | Crash

  // ---------------------------------------------------------------------------
  // Vocabulary
  // ---------------------------------------------------------------------------

  /** `!rowsChangedSince(generation)`. */
  ghost predicate Unchanged(c: Core, gen: nat) {
    gen == c.gen && c.removals == 0
  }

  /** Every committed block at or below m recomputed clean against, or was adopted with, the rows now stored. */
  ghost predicate Vouched(c: Core, m: int) {
    forall h <- c.row :: h <= m ==> c.row[h] in c.passed
  }

  ghost predicate MarkVouched(c: Core, m: Mark) {
    m.At? ==> Vouched(c, m.height)
  }

  ghost predicate AtMost(m: Mark, n: int) {
    m.At? ==> m.height <= n
  }

  ghost function VersionsUpTo(row: map<int, nat>, m: int): set<nat> {
    set h | h in row && h <= m :: row[h]
  }

  ghost predicate Empty(c: Core) {
    c.tip < c.base
  }

  ghost function Version(c: Core, h: int): int {
    if h in c.row then c.row[h] else -1
  }

  /** Rows of a contiguous range landing at once, each with a version never used before. */
  ghost function NewRows(first: int, last: int, next: nat): (rows: map<int, nat>)
    requires first <= last + 1
    ensures forall h :: h in rows <==> first <= h <= last
    ensures forall h <- rows :: rows[h] == next + (h - first)
    decreases last - first + 1
  {
    if first > last then map[] else NewRows(first, last - 1, next)[last := next + (last - first)]
  }

  /** Where the walk starts: above the marker, or at the truncation floor. */
  ghost function StartAt(c: Core, mark: int): int {
    if c.truncated && mark + 1 < c.base then c.base else mark + 1
  }

  /** The walk answers every caller waiting for it. */
  ghost function Return(s: State, r: Returned): State {
    s.(walk := NoWalk, returned := r,
       core := s.core.(waiting := {}, passes := if r.Ok? then s.core.passes + s.core.waiting else s.core.passes))
  }

  /** A pass is used: another caller may still hold it. */
  ghost function Spend(c: Core, live: Live, spent: bool): set<int> {
    if spent && !(live.Gated? && live.h == c.tip + 1) then c.passes - {c.tip + 1} else c.passes
  }

  /** After the marker is known: nothing to do, or the first block to evaluate. */
  ghost function Proceed(s: State, gen: nat, tip: int, mark: int): State {
    var start := StartAt(s.core, mark);
    if start > tip then Return(s, Ok(tip)) else s.(walk := Ready(gen, tip, start))
  }

  ghost function MarkerKnown(s: State, gen: nat, tip: int): State {
    match s.core.mark
    case At(m) => if m > tip then s.(walk := Seeding(gen, tip)) else Proceed(s, gen, tip, m)
    case Absent => s.(walk := Seeding(gen, tip))
    case Unloaded => s.(walk := Loading(gen, tip))
  }

  ghost predicate Strict(job: Job) {
    job.Lower? || (job.Adopt? && job.strict)
  }

  /** No task but the walk's reads is under way: how a bootstrap finds the client. */
  ghost predicate Quiet(s: State) {
    && s.core.boot == NoBoot && s.core.removal == NoRemoval && s.core.queue == [] && s.core.busy == Idle
    && s.live == NoLive && !s.walk.Saving?
  }

  // ---------------------------------------------------------------------------
  // When a step can happen
  // ---------------------------------------------------------------------------

  ghost predicate Enabled(s: State, e: Event) {
    var c := s.core;
    match e
    case Arrive => c.boot == NoBoot && !Empty(c)
    case Append(count, _) =>
      c.removal == NoRemoval && c.boot == NoBoot && !Empty(c) && count > 0 && c.tip + 1 in c.passes
    case WalkStart => s.walk == NoWalk && c.boot == NoBoot
    case WalkTip => s.walk.ReadingTip?
    case WalkLoadRead => s.walk.Loading?
    case WalkLoaded => s.walk.Loaded?
    case WalkSeeded(_) => s.walk.Seeding?
    case WalkEvaluate => s.walk.Ready?
    case WalkRead(_) => s.walk.Evaluating?
    case WalkFinish(_) => s.walk.Evaluated?
    case WalkStop => s.walk.Ready?
    case WalkFault => s.walk.ReadingTip? || s.walk.Loading? || s.walk.Seeding?
    // In steady state the marker equals the tip and nothing is read; otherwise the block was waiting for a walk.
    case LiveGate(h) =>
      && s.live == NoLive && c.boot == NoBoot && !Empty(c)
      && ((h == c.tip + 1 && c.mark == At(c.tip))
          || (s.returned.Ok? && h in c.passes && h <= s.returned.tip + 1 && h <= c.tip + 1))
    case LiveApply(_) =>
      s.live.Gated? && c.removal == NoRemoval && c.boot == NoBoot && !Empty(c) && s.live.h == c.tip + 1
    case LiveRecompute(_) => s.live.Applied?
    case LiveRaise => s.live.Recomputed?
    case LiveDrop => s.live.Gated? || s.live.Applied? || s.live.Recomputed?
    case RemovalBegin(n) => c.removal == NoRemoval && c.boot == NoBoot && !Empty(c) && c.base - 1 <= n <= c.tip
    case RemovalLoadRead => c.removal.RemovalLoading?
    case RemovalLoadDone => c.removal.RemovalLoaded?
    case RemovalDelete => c.removal.Open? && c.removal.n < c.tip
    case RemovalEnd => c.removal.Open?
    case SnapshotBegin => Quiet(s)
    case SnapshotLand(first, last) => c.boot == SnapshotOpen && first <= last
    case SnapshotEnd => c.boot == SnapshotLanded
    case SnapshotAdopt => c.boot == SnapshotClosed
    case WindowAdopt(_) => Quiet(s) && Empty(c)
    case WindowLand(last) => c.boot.WindowReady? && c.boot.first <= last
    case StartBelow(_) => Quiet(s) && Empty(c)
    case RangeLand(last) => c.boot == EmptyReady && c.base <= last
    case JobStart => c.busy == Idle && c.queue != []
    case WriteLands => c.busy.Writing?
    case JobEnd(reported) =>
      // A strict write reports success only when it landed; a fail-soft one may report anything.
      c.busy.Writing? && (Strict(c.busy.job) && reported ==> c.durable == At(c.busy.value))
    case Crash => true
  }

  // ---------------------------------------------------------------------------
  // The steps
  // ---------------------------------------------------------------------------

  ghost function Step(s0: State, e: Event): State
    requires Enabled(s0, e)
  {
    var s := s0.(returned := Nothing);
    var c, w := s.core, s.walk;
    match e
    case Arrive => s.(core := c.(waiting := c.waiting + {c.tip + 1}))
    case Append(count, spent) =>
      s.(core := c.(row := c.row + NewRows(c.tip + 1, c.tip + count, c.next), tip := c.tip + count,
                    next := c.next + count, passes := Spend(c, s.live, spent)))
    case WalkStart =>
      if c.removals > 0 then Return(s, Held) else s.(walk := ReadingTip(c.gen))
    case WalkTip =>
      if Empty(c) then Return(s, Ok(c.tip)) else MarkerKnown(s, w.gen, c.tip)
    case WalkLoadRead => s.(walk := Loaded(w.gen, w.tip, c.durable))
    case WalkLoaded => MarkerKnown(s.(core := c.(mark := w.raw, saved := w.raw)), w.gen, w.tip)
    case WalkSeeded(legacy) =>
      // Stored history below the seed is trusted as it was before the marker existed.
      var start := if legacy < w.tip then legacy else w.tip;
      Proceed(s.(core := c.(mark := At(start - 1), passed := c.passed + VersionsUpTo(c.row, start - 1))),
              w.gen, w.tip, start - 1)
    case WalkEvaluate =>
      if Unchanged(c, w.gen) then s.(walk := Evaluating(w.gen, w.tip, w.h)) else Return(s, Held)
    case WalkRead(verdict) =>
      // A read while rows are being removed is torn: its verdict says nothing about any version.
      var v := Version(c, w.h);
      s.(walk := Evaluated(w.gen, w.tip, w.h, v, if v < 0 && verdict == Clean then Unresolved else verdict),
         core := if verdict == Clean && v >= 0 && c.removals == 0 then c.(passed := c.passed + {v}) else c)
    case WalkFinish(save) => Finish(s, save)
    case WalkStop => Return(s, Held)
    case WalkFault => Return(s, Held)
    case LiveGate(h) => s.(live := Gated(h, c.gen), core := c.(passes := c.passes + {h}))
    case LiveApply(spent) =>
      s.(core := c.(row := c.row[c.tip + 1 := c.next], tip := c.tip + 1, next := c.next + 1,
                    passes := Spend(c, NoLive, spent)),
         live := Applied(s.live.h, s.live.gen))
    case LiveRecompute(clean) =>
      if !clean || s.live.h !in c.row then s.(live := NoLive)
      else s.(live := Recomputed(s.live.h, s.live.gen),
              core := if c.removals == 0 then c.(passed := c.passed + {c.row[s.live.h]}) else c)
    case LiveRaise => s.(core := c.(queue := c.queue + [Raise(s.live.h, s.live.gen)]), live := Raising)
    case LiveDrop => s.(live := NoLive)
    case RemovalBegin(n) =>
      var d := c.(gen := c.gen + 2, removals := c.removals + 1);
      s.(core := if c.mark == Unloaded then d.(removal := RemovalLoading(n))
                 else d.(removal := Lowering(n), queue := c.queue + [Lower(n)]))
    case RemovalLoadRead => s.(core := c.(removal := RemovalLoaded(c.removal.n, c.durable)))
    case RemovalLoadDone =>
      s.(core := c.(mark := c.removal.raw, saved := c.removal.raw, removal := Lowering(c.removal.n),
                    queue := c.queue + [Lower(c.removal.n)]))
    case RemovalDelete =>
      s.(core := c.(row := map h | h in c.row && h <= c.removal.n :: c.row[h], tip := c.removal.n))
    case RemovalEnd => s.(core := Close(c))
    case SnapshotBegin =>
      s.(core := c.(gen := c.gen + 1, removals := c.removals + 1, removal := OpenAll, boot := SnapshotOpen))
    case SnapshotLand(first, last) =>
      // A full snapshot is trusted as a whole and not walked: its rows are adopted as they land.
      var rows := NewRows(first, last, c.next);
      s.(core := c.(base := first, tip := last, row := rows, next := c.next + (last - first + 1),
                    passed := c.passed + VersionsUpTo(rows, last), truncated := false, boot := SnapshotLanded))
    case SnapshotEnd => s.(core := Close(c).(boot := SnapshotClosed))
    case SnapshotAdopt =>
      s.(core := c.(gen := c.gen + 1, queue := c.queue + [Adopt(c.tip, false)], boot := SnapshotAdopting))
    case WindowAdopt(at) =>
      s.(core := c.(gen := c.gen + 1, queue := c.queue + [Adopt(at, true)], boot := WindowAdopting(at),
                    base := at, tip := at - 1, row := map[], truncated := true))
    case WindowLand(last) =>
      // The join block's hashes arrive verbatim: it is adopted; every block above it is walked.
      s.(core := c.(tip := last, row := NewRows(c.boot.first, last, c.next), next := c.next + (last - c.boot.first + 1),
                    passed := c.passed + {c.next}, boot := NoBoot))
    case StartBelow(since) =>
      s.(core := c.(mark := At(since - 1), base := since, tip := since - 1, row := map[], boot := EmptyReady))
    case RangeLand(last) =>
      s.(core := c.(tip := last, row := NewRows(c.base, last, c.next), next := c.next + (last - c.base + 1),
                    boot := NoBoot))
    case JobStart => StartJob(s.(core := c.(queue := c.queue[1..])), c.queue[0])
    case WriteLands => s.(core := c.(durable := At(c.busy.value)))
    case JobEnd(reported) => EndJob(s, reported)
    case Crash =>
      State(c.(mark := Unloaded, saved := Unloaded, gen := 0, removals := 0, queue := [], busy := Idle,
               removal := NoRemoval, boot := NoBoot, waiting := {}, passes := {}),
            NoWalk, NoLive, Nothing)
  }

  /** `endRowRemoval`. */
  ghost function Close(c: Core): Core {
    c.(gen := c.gen + 1, removals := if c.removals > 0 then c.removals - 1 else 0, removal := NoRemoval)
  }

  /** After a recompute: drop it if the rows changed, settle a bad verdict after saving, or note the block. */
  ghost function Finish(s: State, save: bool): State
    requires s.walk.Evaluated?
  {
    var c, w := s.core, s.walk;
    if !Unchanged(c, w.gen) then Return(s, Held)
    else if w.verdict != Clean then SaveThen(s, w.gen, w.tip, Settle(w.h, w.verdict))
    else
      var noted := s.(core := c.(mark := if c.mark.At? && w.h <= c.mark.height then c.mark else At(w.h)));
      if w.h == w.tip then SaveThen(noted, w.gen, w.tip, Done)
      else if save then SaveThen(noted, w.gen, w.tip, Next(w.h + 1))
      else noted.(walk := Ready(w.gen, w.tip, w.h + 1))
  }

  ghost function SaveThen(s: State, gen: nat, tip: int, after: After): State {
    s.(walk := Saving(gen, tip, after), core := s.core.(queue := s.core.queue + [Persist(gen)]))
  }

  /** The walk's persist call resolved. */
  ghost function Resume(s: State): State {
    if !s.walk.Saving? then s
    else
      match s.walk.after
      case Next(h) => s.(walk := Ready(s.walk.gen, s.walk.tip, h))
      case Done => Return(s, if Unchanged(s.core, s.walk.gen) then Ok(s.walk.tip) else Held)
      case Settle(h, verdict) => Return(s, if verdict == Halt then Halted(h) else Held)
  }

  /** The synchronous head of a queued marker write. */
  ghost function StartJob(s: State, job: Job): State {
    var c := s.core;
    match job
    case Raise(n, gen) =>
      if !Unchanged(c, gen) || (c.mark.At? && n <= c.mark.height) then s.(live := NoLive)
      else s.(core := c.(mark := At(n), busy := Writing(job, n)))
    case Persist(gen) =>
      if !Unchanged(c, gen) || !c.mark.At? || c.mark == c.saved then Resume(s)
      else s.(core := c.(busy := Writing(job, c.mark.height)))
    case Lower(n) =>
      if c.removal != Lowering(n) then s
      else if c.mark.At? && c.mark.height <= n then s.(core := c.(removal := Open(n)))
      // Lowering where no marker existed adopts the history at or below n, as a seed does.
      else s.(core := c.(busy := Writing(job, n),
                         passed := if c.mark.At? then c.passed else c.passed + VersionsUpTo(c.row, n)))
    case Adopt(n, strict) => s.(core := c.(busy := Writing(job, n)))
  }

  /** The continuation after a marker write resolved. */
  ghost function EndJob(s: State, reported: bool): State
    requires s.core.busy.Writing?
  {
    var n := s.core.busy.value;
    var c := s.core.(busy := Idle, saved := if reported then At(n) else s.core.saved);
    match s.core.busy.job
    case Raise(_, _) => s.(core := c, live := NoLive)
    case Persist(_) => Resume(s.(core := c))
    case Lower(_) => s.(core := if reported then c.(mark := At(n), removal := Open(n)) else Close(c))
    case Adopt(_, strict) =>
      if strict && !reported then s.(core := c.(boot := NoBoot))
      else s.(core := c.(mark := At(n), boot := if c.boot.WindowAdopting? then WindowReady(c.boot.first) else NoBoot))
  }

  // ---------------------------------------------------------------------------
  // What the protocol does not withstand
  // ---------------------------------------------------------------------------

  /** Rows are about to land above this height without having been verified: a caller has been let through
      to land the block above the tip, or a bootstrap is ready to land its range. Absent when neither is so. */
  ghost function LandsAbove(c: Core): Mark {
    match c.boot
    case NoBoot => if c.removal == NoRemoval && !Empty(c) && c.tip + 1 in c.passes then At(c.tip) else Absent
    case WindowReady(first) => At(first)
    case EmptyReady => At(c.base - 1)
    case _ => Absent
  }

  /** A marker stands above the height from which unverified rows are about to land. */
  ghost predicate Exposed(c: Core) {
    var low := LandsAbove(c);
    low.At? && !(AtMost(c.mark, low.height) && AtMost(c.durable, low.height))
  }

  /** A marker read is delivered only while it covers verified blocks, and no step leaves a marker above rows
      about to land. */
  ghost predicate Admissible(s: State, e: Event)
    requires Enabled(s, e)
  {
    (e.WalkLoaded? ==> MarkVouched(s.core, s.walk.raw)) && !Exposed(Step(s, e).core)
  }

  // ---------------------------------------------------------------------------
  // The invariant
  // ---------------------------------------------------------------------------

  /** Committed rows are the contiguous range base..tip and every version in use is an old one. */
  ghost predicate RowsOk(c: Core) {
    && c.base <= c.tip + 1
    && (forall h :: h in c.row <==> c.base <= h <= c.tip)
    && (forall h <- c.row :: c.row[h] < c.next)
    && (forall v <- c.passed :: v < c.next)
    && c.removals == (if c.removal == NoRemoval then 0 else 1)
    && (c.removal == OpenAll <==> c.boot == SnapshotOpen || c.boot == SnapshotLanded)
  }

  /** Neither marker vouches for a block that was not verified. */
  ghost predicate Sound(c: Core) {
    MarkVouched(c, c.durable) && MarkVouched(c, c.mark)
  }

  ghost predicate JobOk(c: Core, job: Job) {
    match job
    case Raise(n, gen) => c.boot == NoBoot && gen <= c.gen && (Unchanged(c, gen) ==> n <= c.tip && Vouched(c, n))
    case Persist(gen) => c.boot == NoBoot
    case Lower(n) => c.boot == NoBoot
    case Adopt(n, strict) => if strict then c.boot == WindowAdopting(n) else c.boot.SnapshotAdopting? && n == c.tip
  }

  ghost predicate QueueOk(c: Core) {
    forall i :: 0 <= i < |c.queue| ==> JobOk(c, c.queue[i])
  }

  /** A write in flight carries a height that is vouched for and stays stored until it returns. */
  ghost predicate BusyOk(c: Core) {
    c.busy.Writing? ==>
      && Vouched(c, c.busy.value)
      && match c.busy.job
         case Raise(_, _) => c.boot == NoBoot && c.busy.value <= c.tip && !c.removal.Open?
         case Persist(_) => c.boot == NoBoot && c.busy.value <= c.tip && !c.removal.Open?
         case Lower(n) => c.removal == Lowering(n) && c.busy.value == n
         case Adopt(n, strict) =>
           c.busy.value == n && (if strict then c.boot == WindowAdopting(n) else c.boot.SnapshotAdopting? && n == c.tip)
  }

  ghost predicate RemovalOk(c: Core) {
    match c.removal
    case NoRemoval => true
    case RemovalLoading(n) => c.boot == NoBoot && !Empty(c) && c.base - 1 <= n <= c.tip
    case RemovalLoaded(n, raw) =>
      c.boot == NoBoot && !Empty(c) && c.base - 1 <= n <= c.tip && raw != Unloaded && MarkVouched(c, raw)
    case Lowering(n) => c.boot == NoBoot && !Empty(c) && c.base - 1 <= n <= c.tip && c.mark != Unloaded
    case Open(n) => c.boot == NoBoot && c.base - 1 <= n <= c.tip && c.busy == Idle
    case OpenAll => true
  }

  ghost predicate BootOk(c: Core) {
    match c.boot
    case NoBoot => true
    case SnapshotOpen => c.queue == [] && c.busy == Idle
    case SnapshotLanded => c.queue == [] && c.busy == Idle && Vouched(c, c.tip) && !Empty(c)
    case SnapshotClosed => c.queue == [] && c.busy == Idle && Vouched(c, c.tip) && !Empty(c)
    case SnapshotAdopting =>
      Vouched(c, c.tip) && !Empty(c) && (c.queue == [] || (c.queue == [Adopt(c.tip, false)] && c.busy == Idle))
    case WindowAdopting(first) =>
      Empty(c) && c.base == first && (c.queue == [] || (c.queue == [Adopt(first, true)] && c.busy == Idle))
    case WindowReady(first) =>
      Empty(c) && c.base == first && c.queue == [] && c.busy == Idle
    case EmptyReady => Empty(c) && c.queue == [] && c.busy == Idle
  }

  ghost predicate CoreOk(c: Core) {
    && RowsOk(c) && Sound(c) && c.durable != Unloaded && !Exposed(c)
    && QueueOk(c) && BusyOk(c) && RemovalOk(c) && BootOk(c)
  }

  /** While the rows are unchanged since the walk began, everything below its position is vouched for, the
      marker is not above the tip, and the verdict it holds is about the version now stored. */
  ghost predicate WalkOk(c: Core, w: Walk) {
    && (w.Loaded? ==> w.raw != Unloaded)
    && (!w.NoWalk? ==> w.gen <= c.gen)
    && (!w.NoWalk? && !w.ReadingTip? && Unchanged(c, w.gen) ==> w.tip <= c.tip && !Empty(c) && c.boot == NoBoot)
    && (w.ReadingTip? && Unchanged(c, w.gen) ==> c.boot == NoBoot || Empty(c))
    && ((w.Ready? || w.Evaluating? || w.Evaluated? || w.Saving?) && Unchanged(c, w.gen) ==>
          c.mark.At? && AtMost(c.mark, c.tip))
    && (w.Ready? && Unchanged(c, w.gen) ==> w.h <= w.tip && Vouched(c, w.h - 1))
    && (w.Evaluating? && Unchanged(c, w.gen) ==> w.h <= w.tip && Vouched(c, w.h - 1))
    && (w.Evaluated? && Unchanged(c, w.gen) ==>
          && w.h <= w.tip && Vouched(c, w.h - 1) && w.version == Version(c, w.h)
          && (w.verdict == Clean ==> w.version >= 0 && w.version in c.passed))
    && (w.Saving? && w.after.Next? && Unchanged(c, w.gen) ==> w.after.h <= w.tip && Vouched(c, w.after.h - 1))
    && (w.Saving? && w.after.Done? && Unchanged(c, w.gen) ==> Vouched(c, w.tip))
  }

  ghost predicate LiveOk(c: Core, l: Live) {
    match l
    case Gated(h, gen) => h in c.passes && gen <= c.gen && (Unchanged(c, gen) ==> h <= c.tip + 1 && Vouched(c, h - 1))
    case Applied(h, gen) => gen <= c.gen && (Unchanged(c, gen) ==> h <= c.tip && Vouched(c, h - 1))
    case Recomputed(h, gen) => gen <= c.gen && (Unchanged(c, gen) ==> h <= c.tip && Vouched(c, h))
    case _ => true
  }

  /** A queued or running save belongs to the walk that waits for it. */
  ghost predicate SavesOk(s: State) {
    var q, b := s.core.queue, s.core.busy;
    && (forall i :: 0 <= i < |q| && q[i].Persist? ==>
          s.walk.Saving? && s.walk.gen == q[i].gen && !(b.Writing? && b.job.Persist?))
    && (forall i, j :: 0 <= i < j < |q| && q[i].Persist? ==> !q[j].Persist?)
    && (b.Writing? && b.job.Persist? ==> s.walk.Saving? && s.walk.gen == b.job.gen)
  }

  ghost predicate Inv(s: State) {
    && CoreOk(s.core)
    && SavesOk(s)
    && WalkOk(s.core, s.walk)
    && LiveOk(s.core, s.live)
    && (s.core.boot != NoBoot ==> s.live == NoLive && !s.walk.Saving?)
    && (s.returned.Ok? ==> Vouched(s.core, s.returned.tip))
  }

  // ---------------------------------------------------------------------------
  // Shared tails of the steps
  // ---------------------------------------------------------------------------

  ghost predicate NoSaves(c: Core) {
    (forall i :: 0 <= i < |c.queue| ==> !c.queue[i].Persist?) && !(c.busy.Writing? && c.busy.job.Persist?)
  }

  /** Everything but the walk. */
  ghost predicate Base(s: State) {
    CoreOk(s.core) && LiveOk(s.core, s.live) && (s.core.boot != NoBoot ==> s.live == NoLive) && s.returned == Nothing
  }

  lemma NotSaving(s: State)
    requires Inv(s) && !s.walk.Saving?
    ensures NoSaves(s.core) && Base(s.(returned := Nothing))
  {
  }

  lemma ReturnKeeps(s: State, r: Returned)
    requires Base(s) && NoSaves(s.core) && !Exposed(Return(s, r).core)
    requires r.Ok? ==> Vouched(s.core, r.tip)
    ensures Inv(Return(s, r))
  {
  }

  lemma ProceedKeeps(s: State, gen: nat, tip: int, mark: int)
    requires Base(s) && NoSaves(s.core) && s.core.mark == At(mark) && gen <= s.core.gen
    requires Unchanged(s.core, gen) ==>
             tip <= s.core.tip && !Empty(s.core) && s.core.boot == NoBoot && mark <= s.core.tip
    requires !Exposed(Proceed(s, gen, tip, mark).core)
    ensures Inv(Proceed(s, gen, tip, mark))
  {
    if StartAt(s.core, mark) > tip {
      ReturnKeeps(s, Ok(tip));
    }
  }

  lemma MarkerKnownKeeps(s: State, gen: nat, tip: int)
    requires Base(s) && NoSaves(s.core) && gen <= s.core.gen
    requires Unchanged(s.core, gen) ==> tip <= s.core.tip && !Empty(s.core) && s.core.boot == NoBoot
    requires !Exposed(MarkerKnown(s, gen, tip).core)
    ensures Inv(MarkerKnown(s, gen, tip))
  {
    if s.core.mark.At? && s.core.mark.height <= tip {
      ProceedKeeps(s, gen, tip, s.core.mark.height);
    }
  }

  lemma SaveThenKeeps(s: State, gen: nat, tip: int, after: After)
    requires Base(s) && NoSaves(s.core) && Unchanged(s.core, gen) && s.core.mark.At? && AtMost(s.core.mark, s.core.tip)
    requires tip <= s.core.tip && !Empty(s.core) && s.core.boot == NoBoot
    requires after.Next? ==> after.h <= tip && Vouched(s.core, after.h - 1)
    requires after.Done? ==> Vouched(s.core, tip)
    ensures Inv(SaveThen(s, gen, tip, after))
  {
  }

  lemma ResumeKeeps(s: State)
    requires Base(s) && NoSaves(s.core) && s.walk.Saving? && WalkOk(s.core, s.walk) && !Exposed(Resume(s).core)
    ensures Inv(Resume(s))
  {
    if s.walk.after.Done? {
      ReturnKeeps(s, if Unchanged(s.core, s.walk.gen) then Ok(s.walk.tip) else Held);
    } else if s.walk.after.Settle? {
      ReturnKeeps(s, if s.walk.after.verdict == Halt then Halted(s.walk.after.h) else Held);
    }
  }

  // ---------------------------------------------------------------------------
  // Every step keeps the invariant
  // ---------------------------------------------------------------------------

  lemma LoadedCore(s: State, c: Core)
    requires Inv(s) && s.walk.Loaded? && c == s.core.(mark := s.walk.raw, saved := s.walk.raw)
    requires MarkVouched(s.core, s.walk.raw) && !Exposed(c)
    ensures CoreOk(c) && LiveOk(c, s.live)
  {
  }

  lemma SeededCore(s: State, c: Core, start: int)
    requires Inv(s) && s.walk.Seeding?
    requires c == s.core.(mark := At(start - 1), passed := s.core.passed + VersionsUpTo(s.core.row, start - 1))
    requires !Exposed(c)
    ensures CoreOk(c) && LiveOk(c, s.live)
  {
  }

  /** Noting a block that verified while the rows were unchanged raises the in-memory marker soundly. */
  lemma NotedCore(s: State, c: Core, h: int)
    requires Inv(s) && s.core.boot == NoBoot && s.core.removal == NoRemoval && h <= s.core.tip && Vouched(s.core, h)
    requires c == s.core.(mark := if s.core.mark.At? && h <= s.core.mark.height then s.core.mark else At(h))
    requires AtMost(s.core.mark, s.core.tip)
    ensures CoreOk(c) && LiveOk(c, s.live)
  {
  }

  lemma FinishKeeps(s: State, save: bool)
    requires Inv(s) && s.walk.Evaluated? && s.returned == Nothing
    ensures Inv(Finish(s, save))
  {
    NotSaving(s);
    var c, w := s.core, s.walk;
    if !Unchanged(c, w.gen) {
      ReturnKeeps(s, Held);
    } else if w.verdict != Clean {
      SaveThenKeeps(s, w.gen, w.tip, Settle(w.h, w.verdict));
    } else {
      CleanBlockKeeps(s, save);
    }
  }

  lemma CleanBlockKeeps(s: State, save: bool)
    requires Inv(s) && s.walk.Evaluated? && s.returned == Nothing && Unchanged(s.core, s.walk.gen)
    requires s.walk.verdict == Clean && NoSaves(s.core)
    ensures Inv(Finish(s, save))
  {
    var c, w := s.core, s.walk;
    assert Vouched(c, w.h);
    var noted := c.(mark := if c.mark.At? && w.h <= c.mark.height then c.mark else At(w.h));
    NotedCore(s, noted, w.h);
    SaveThenKeeps(s.(core := noted), w.gen, w.tip, if w.h == w.tip then Done else Next(w.h + 1));
  }

  lemma ArriveKeeps(s: State, e: Event)
    requires Inv(s) && Enabled(s, e) && e.Arrive?
    ensures Inv(Step(s, e))
  {
  }

  lemma AppendCore(s: State, e: Event)
    requires Inv(s) && Enabled(s, e) && e.Append?
    ensures CoreOk(Step(s, e).core)
  {
  }

  lemma AppendKeeps(s: State, e: Event)
    requires Inv(s) && Enabled(s, e) && e.Append?
    ensures Inv(Step(s, e))
  {
    AppendCore(s, e);
  }

  lemma WalkStartKeeps(s: State, e: Event)
    requires Inv(s) && Enabled(s, e) && e.WalkStart?
    ensures Inv(Step(s, e))
  {
    NotSaving(s);
    var t := s.(returned := Nothing);
    if s.core.removals > 0 {
      ReturnKeeps(t, Held);
    }
  }

  lemma WalkTipKeeps(s: State, e: Event)
    requires Inv(s) && Enabled(s, e) && e.WalkTip? && Admissible(s, e)
    ensures Inv(Step(s, e))
  {
    NotSaving(s);
    var t := s.(returned := Nothing);
    if Empty(s.core) {
      ReturnKeeps(t, Ok(s.core.tip));
    } else {
      MarkerKnownKeeps(t, s.walk.gen, s.core.tip);
    }
  }

  lemma WalkLoadReadKeeps(s: State, e: Event)
    requires Inv(s) && Enabled(s, e) && e.WalkLoadRead?
    ensures Inv(Step(s, e))
  {
  }

  lemma WalkLoadedKeeps(s: State, e: Event)
    requires Inv(s) && Enabled(s, e) && e.WalkLoaded? && Admissible(s, e)
    ensures Inv(Step(s, e))
  {
    NotSaving(s);
    var t := s.(returned := Nothing);
    var c := s.core.(mark := s.walk.raw, saved := s.walk.raw);
    LoadedCore(s, c);
    MarkerKnownKeeps(t.(core := c), s.walk.gen, s.walk.tip);
  }

  ghost function SeedFrom(w: Walk, legacy: int): int
    requires w.Seeding?
  {
    if legacy < w.tip then legacy else w.tip
  }

  lemma SeededStep(s: State, e: Event, c: Core, start: int)
    requires Enabled(s, e) && e.WalkSeeded? && start == SeedFrom(s.walk, e.legacy)
    requires c == s.core.(mark := At(start - 1), passed := s.core.passed + VersionsUpTo(s.core.row, start - 1))
    ensures Step(s, e) == Proceed(s.(core := c, returned := Nothing), s.walk.gen, s.walk.tip, start - 1)
    ensures Exposed(c) ==> Exposed(Step(s, e).core)
  {
  }

  lemma WalkSeededKeeps(s: State, e: Event)
    requires Inv(s) && Enabled(s, e) && e.WalkSeeded? && Admissible(s, e)
    ensures Inv(Step(s, e))
  {
    var start := SeedFrom(s.walk, e.legacy);
    var c := s.core.(mark := At(start - 1), passed := s.core.passed + VersionsUpTo(s.core.row, start - 1));
    NotSaving(s);
    SeededStep(s, e, c, start);
    SeededCore(s, c, start);
    ProceedKeeps(s.(core := c, returned := Nothing), s.walk.gen, s.walk.tip, start - 1);
  }

  lemma WalkEvaluateKeeps(s: State, e: Event)
    requires Inv(s) && Enabled(s, e) && e.WalkEvaluate?
    ensures Inv(Step(s, e))
  {
    NotSaving(s);
    var t := s.(returned := Nothing);
    if !Unchanged(s.core, s.walk.gen) {
      ReturnKeeps(t, Held);
    }
  }

  lemma WalkReadKeeps(s: State, e: Event)
    requires Inv(s) && Enabled(s, e) && e.WalkRead?
    ensures Inv(Step(s, e))
  {
  }

  lemma WalkFinishKeeps(s: State, e: Event)
    requires Inv(s) && Enabled(s, e) && e.WalkFinish?
    ensures Inv(Step(s, e))
  {
    NotSaving(s);
    var t := s.(returned := Nothing);
    FinishKeeps(t, e.save);
  }

  lemma WalkStopKeeps(s: State, e: Event)
    requires Inv(s) && Enabled(s, e) && e.WalkStop?
    ensures Inv(Step(s, e))
  {
    NotSaving(s);
    var t := s.(returned := Nothing);
    ReturnKeeps(t, Held);
  }

  lemma WalkFaultKeeps(s: State, e: Event)
    requires Inv(s) && Enabled(s, e) && e.WalkFault?
    ensures Inv(Step(s, e))
  {
    NotSaving(s);
    var t := s.(returned := Nothing);
    ReturnKeeps(t, Held);
  }

  lemma LiveGateCore(s: State, e: Event)
    requires Inv(s) && Enabled(s, e) && e.LiveGate? && Admissible(s, e)
    ensures CoreOk(Step(s, e).core)
  {
  }

  lemma LiveGateKeeps(s: State, e: Event)
    requires Inv(s) && Enabled(s, e) && e.LiveGate? && Admissible(s, e)
    ensures Inv(Step(s, e))
  {
    LiveGateCore(s, e);
  }

  lemma LiveApplyCore(s: State, e: Event)
    requires Inv(s) && Enabled(s, e) && e.LiveApply?
    ensures CoreOk(Step(s, e).core)
  {
  }

  lemma LiveApplyKeeps(s: State, e: Event)
    requires Inv(s) && Enabled(s, e) && e.LiveApply?
    ensures Inv(Step(s, e))
  {
    LiveApplyCore(s, e);
  }

  lemma LiveRecomputeKeeps(s: State, e: Event)
    requires Inv(s) && Enabled(s, e) && e.LiveRecompute?
    ensures Inv(Step(s, e))
  {
  }

  lemma LiveRaiseCore(s: State, e: Event)
    requires Inv(s) && Enabled(s, e) && e.LiveRaise?
    ensures CoreOk(Step(s, e).core)
  {
  }

  lemma LiveRaiseKeeps(s: State, e: Event)
    requires Inv(s) && Enabled(s, e) && e.LiveRaise?
    ensures Inv(Step(s, e))
  {
    LiveRaiseCore(s, e);
  }

  lemma LiveDropKeeps(s: State, e: Event)
    requires Inv(s) && Enabled(s, e) && e.LiveDrop?
    ensures Inv(Step(s, e))
  {
  }

  lemma RemovalBeginCore(s: State, e: Event)
    requires Inv(s) && Enabled(s, e) && e.RemovalBegin?
    ensures CoreOk(Step(s, e).core)
  {
  }

  lemma RemovalBeginKeeps(s: State, e: Event)
    requires Inv(s) && Enabled(s, e) && e.RemovalBegin?
    ensures Inv(Step(s, e))
  {
    RemovalBeginCore(s, e);
  }

  lemma RemovalLoadReadKeeps(s: State, e: Event)
    requires Inv(s) && Enabled(s, e) && e.RemovalLoadRead?
    ensures Inv(Step(s, e))
  {
  }

  lemma RemovalLoadDoneKeeps(s: State, e: Event)
    requires Inv(s) && Enabled(s, e) && e.RemovalLoadDone?
    ensures Inv(Step(s, e))
  {
  }

  lemma RemovalDeleteKeeps(s: State, e: Event)
    requires Inv(s) && Enabled(s, e) && e.RemovalDelete?
    ensures Inv(Step(s, e))
  {
  }

  lemma RemovalEndKeeps(s: State, e: Event)
    requires Inv(s) && Enabled(s, e) && e.RemovalEnd? && Admissible(s, e)
    ensures Inv(Step(s, e))
  {
  }

  lemma SnapshotBeginKeeps(s: State, e: Event)
    requires Inv(s) && Enabled(s, e) && e.SnapshotBegin?
    ensures Inv(Step(s, e))
  {
  }

  lemma SnapshotLandKeeps(s: State, e: Event)
    requires Inv(s) && Enabled(s, e) && e.SnapshotLand?
    ensures Inv(Step(s, e))
  {
  }

  lemma SnapshotEndKeeps(s: State, e: Event)
    requires Inv(s) && Enabled(s, e) && e.SnapshotEnd?
    ensures Inv(Step(s, e))
  {
  }

  lemma SnapshotAdoptKeeps(s: State, e: Event)
    requires Inv(s) && Enabled(s, e) && e.SnapshotAdopt?
    ensures Inv(Step(s, e))
  {
  }

  lemma WindowAdoptKeeps(s: State, e: Event)
    requires Inv(s) && Enabled(s, e) && e.WindowAdopt?
    ensures Inv(Step(s, e))
  {
  }

  lemma WindowLandCore(s: State, e: Event)
    requires Inv(s) && Enabled(s, e) && e.WindowLand?
    ensures CoreOk(Step(s, e).core)
  {
  }

  lemma WindowLandKeeps(s: State, e: Event)
    requires Inv(s) && Enabled(s, e) && e.WindowLand?
    ensures Inv(Step(s, e))
  {
    WindowLandCore(s, e);
  }

  lemma StartBelowKeeps(s: State, e: Event)
    requires Inv(s) && Enabled(s, e) && e.StartBelow? && Admissible(s, e)
    ensures Inv(Step(s, e))
  {
  }

  lemma RangeLandKeeps(s: State, e: Event)
    requires Inv(s) && Enabled(s, e) && e.RangeLand?
    ensures Inv(Step(s, e))
  {
  }

  lemma WriteLandsCore(s: State, e: Event)
    requires Inv(s) && Enabled(s, e) && e.WriteLands?
    ensures CoreOk(Step(s, e).core)
  {
  }

  lemma WriteLandsKeeps(s: State, e: Event)
    requires Inv(s) && Enabled(s, e) && e.WriteLands?
    ensures Inv(Step(s, e))
  {
    WriteLandsCore(s, e);
  }

  lemma CrashKeeps(s: State, e: Event)
    requires Inv(s) && Enabled(s, e) && e.Crash?
    ensures Inv(Step(s, e))
  {
  }

  lemma PopKeeps(s: State, t: State)
    requires Inv(s) && s.core.busy == Idle && s.core.queue != []
    requires t == s.(core := s.core.(queue := s.core.queue[1..]), returned := Nothing)
    ensures Base(t) && WalkOk(t.core, t.walk) && JobOk(t.core, s.core.queue[0])
    ensures if s.core.queue[0].Persist?
            then NoSaves(t.core) && t.walk.Saving? && t.walk.gen == s.core.queue[0].gen
            else SavesOk(t)
    ensures s.core.queue[0].Adopt? ==> t.core.queue == []
    ensures t.core.boot != NoBoot ==> !t.walk.Saving?
  {
    assert JobOk(s.core, s.core.queue[0]);
    assert forall i :: 0 <= i < |t.core.queue| ==> t.core.queue[i] == s.core.queue[i + 1];
    assert QueueOk(t.core);
  }

  lemma RaiseStarts(s: State, n: int, gen: nat)
    requires Base(s) && SavesOk(s) && WalkOk(s.core, s.walk) && JobOk(s.core, Raise(n, gen)) && s.core.busy == Idle
    requires s.core.boot != NoBoot ==> !s.walk.Saving?
    ensures Inv(StartJob(s, Raise(n, gen)))
  {
  }

  lemma PersistStarts(s: State, gen: nat)
    requires Base(s) && NoSaves(s.core) && WalkOk(s.core, s.walk) && JobOk(s.core, Persist(gen)) && s.core.busy == Idle
    requires s.walk.Saving? && s.walk.gen == gen && !Exposed(StartJob(s, Persist(gen)).core)
    ensures Inv(StartJob(s, Persist(gen)))
  {
    var c := s.core;
    if !Unchanged(c, gen) || !c.mark.At? || c.mark == c.saved {
      ResumeKeeps(s);
    }
  }

  /** Adopting stored versions keeps everything that was vouched for. */
  lemma AdoptingKeeps(c: Core, m: int)
    requires CoreOk(c)
    ensures var d := c.(passed := c.passed + VersionsUpTo(c.row, m)); CoreOk(d) && Vouched(d, m)
  {
  }

  lemma LowerStartsCore(s: State, n: int)
    requires Base(s) && JobOk(s.core, Lower(n)) && s.core.busy == Idle
    ensures CoreOk(StartJob(s, Lower(n)).core)
  {
    AdoptingKeeps(s.core, n);
  }

  lemma LowerStarts(s: State, n: int)
    requires Base(s) && SavesOk(s) && WalkOk(s.core, s.walk) && JobOk(s.core, Lower(n)) && s.core.busy == Idle
    requires s.core.boot != NoBoot ==> !s.walk.Saving?
    ensures Inv(StartJob(s, Lower(n)))
  {
    LowerStartsCore(s, n);
  }

  lemma AdoptStarts(s: State, n: int, strict: bool)
    requires Base(s) && SavesOk(s) && WalkOk(s.core, s.walk) && JobOk(s.core, Adopt(n, strict)) && s.core.busy == Idle
    requires s.core.boot != NoBoot ==> !s.walk.Saving?
    requires s.core.queue == []
    ensures Inv(StartJob(s, Adopt(n, strict)))
  {
  }

  lemma JobStartKeeps(s: State, e: Event)
    requires Inv(s) && Enabled(s, e) && e.JobStart? && Admissible(s, e)
    ensures Inv(Step(s, e))
  {
    var t := s.(core := s.core.(queue := s.core.queue[1..]), returned := Nothing);
    PopKeeps(s, t);
    match s.core.queue[0]
    case Raise(n, gen) => RaiseStarts(t, n, gen);
    case Persist(gen) => PersistStarts(t, gen);
    case Lower(n) => LowerStarts(t, n);
    case Adopt(n, strict) => AdoptStarts(t, n, strict);
  }

  lemma RaiseEndsCore(s: State, e: Event)
    requires Inv(s) && Enabled(s, e) && e.JobEnd? && s.core.busy.job.Raise?
    ensures CoreOk(Step(s, e).core)
  {
  }

  lemma LowerEndsCore(s: State, e: Event)
    requires Inv(s) && Enabled(s, e) && e.JobEnd? && Admissible(s, e) && s.core.busy.job.Lower?
    ensures CoreOk(Step(s, e).core)
  {
  }

  lemma AdoptEndsCore(s: State, e: Event)
    requires Inv(s) && Enabled(s, e) && e.JobEnd? && Admissible(s, e) && s.core.busy.job.Adopt?
    ensures CoreOk(Step(s, e).core)
  {
  }

  lemma RaiseEnds(s: State, e: Event)
    requires Inv(s) && Enabled(s, e) && e.JobEnd? && s.core.busy.job.Raise?
    ensures Inv(Step(s, e))
  {
    RaiseEndsCore(s, e);
  }

  lemma LowerEnds(s: State, e: Event)
    requires Inv(s) && Enabled(s, e) && e.JobEnd? && Admissible(s, e) && s.core.busy.job.Lower?
    ensures Inv(Step(s, e))
  {
    LowerEndsCore(s, e);
  }

  lemma AdoptEnds(s: State, e: Event)
    requires Inv(s) && Enabled(s, e) && e.JobEnd? && Admissible(s, e) && s.core.busy.job.Adopt?
    ensures Inv(Step(s, e))
  {
    AdoptEndsCore(s, e);
  }

  lemma SavedCore(s: State, c: Core, saved: Mark)
    requires Inv(s) && s.core.busy.Writing? && s.core.busy.job.Persist? && c == s.core.(busy := Idle, saved := saved)
    ensures Base(s.(core := c, returned := Nothing)) && NoSaves(c) && WalkOk(c, s.walk)
  {
  }

  lemma PersistEnds(s: State, e: Event)
    requires Inv(s) && Enabled(s, e) && e.JobEnd? && Admissible(s, e) && s.core.busy.job.Persist?
    ensures Inv(Step(s, e))
  {
    var saved := if e.reported then At(s.core.busy.value) else s.core.saved;
    var c := s.core.(busy := Idle, saved := saved);
    SavedCore(s, c, saved);
    ResumeKeeps(s.(core := c, returned := Nothing));
  }

  lemma JobEndKeeps(s: State, e: Event)
    requires Inv(s) && Enabled(s, e) && e.JobEnd? && Admissible(s, e)
    ensures Inv(Step(s, e))
  {
    match s.core.busy.job
    case Raise(_, _) => RaiseEnds(s, e);
    case Persist(_) => PersistEnds(s, e);
    case Lower(_) => LowerEnds(s, e);
    case Adopt(_, _) => AdoptEnds(s, e);
  }

  ghost predicate WalkReadingEvent(e: Event) {
    e.WalkStart? || e.WalkTip? || e.WalkLoadRead? || e.WalkLoaded? || e.WalkSeeded?
  }

  ghost predicate WalkVerdictEvent(e: Event) {
    e.WalkEvaluate? || e.WalkRead? || e.WalkFinish? || e.WalkStop? || e.WalkFault?
  }

  ghost predicate LiveEvent(e: Event) {
    e.LiveGate? || e.LiveApply? || e.LiveRecompute? || e.LiveRaise? || e.LiveDrop?
  }

  ghost predicate RemovalEvent(e: Event) {
    e.RemovalBegin? || e.RemovalLoadRead? || e.RemovalLoadDone? || e.RemovalDelete? || e.RemovalEnd?
  }

  ghost predicate SnapshotEvent(e: Event) {
    e.SnapshotBegin? || e.SnapshotLand? || e.SnapshotEnd? || e.SnapshotAdopt?
  }

  ghost predicate WindowEvent(e: Event) {
    e.WindowAdopt? || e.WindowLand? || e.StartBelow? || e.RangeLand?
  }

  ghost predicate OtherEvent(e: Event) {
    e.Arrive? || e.Append? || e.JobStart? || e.WriteLands? || e.JobEnd? || e.Crash?
  }

  lemma WalkReadingEventKeeps(s: State, e: Event)
    requires Inv(s) && Enabled(s, e) && Admissible(s, e) && WalkReadingEvent(e)
    ensures Inv(Step(s, e))
  {
    if e.WalkStart? { WalkStartKeeps(s, e); }
    else if e.WalkTip? { WalkTipKeeps(s, e); }
    else if e.WalkLoadRead? { WalkLoadReadKeeps(s, e); }
    else if e.WalkLoaded? { WalkLoadedKeeps(s, e); }
    else { WalkSeededKeeps(s, e); }
  }

  lemma WalkVerdictEventKeeps(s: State, e: Event)
    requires Inv(s) && Enabled(s, e) && Admissible(s, e) && WalkVerdictEvent(e)
    ensures Inv(Step(s, e))
  {
    if e.WalkEvaluate? { WalkEvaluateKeeps(s, e); }
    else if e.WalkRead? { WalkReadKeeps(s, e); }
    else if e.WalkFinish? { WalkFinishKeeps(s, e); }
    else if e.WalkStop? { WalkStopKeeps(s, e); }
    else { WalkFaultKeeps(s, e); }
  }

  lemma LiveEventKeeps(s: State, e: Event)
    requires Inv(s) && Enabled(s, e) && Admissible(s, e) && LiveEvent(e)
    ensures Inv(Step(s, e))
  {
    if e.LiveGate? { LiveGateKeeps(s, e); }
    else if e.LiveApply? { LiveApplyKeeps(s, e); }
    else if e.LiveRecompute? { LiveRecomputeKeeps(s, e); }
    else if e.LiveRaise? { LiveRaiseKeeps(s, e); }
    else { LiveDropKeeps(s, e); }
  }

  lemma RemovalEventKeeps(s: State, e: Event)
    requires Inv(s) && Enabled(s, e) && Admissible(s, e) && RemovalEvent(e)
    ensures Inv(Step(s, e))
  {
    if e.RemovalBegin? { RemovalBeginKeeps(s, e); }
    else if e.RemovalLoadRead? { RemovalLoadReadKeeps(s, e); }
    else if e.RemovalLoadDone? { RemovalLoadDoneKeeps(s, e); }
    else if e.RemovalDelete? { RemovalDeleteKeeps(s, e); }
    else { RemovalEndKeeps(s, e); }
  }

  lemma SnapshotEventKeeps(s: State, e: Event)
    requires Inv(s) && Enabled(s, e) && Admissible(s, e) && SnapshotEvent(e)
    ensures Inv(Step(s, e))
  {
    if e.SnapshotBegin? { SnapshotBeginKeeps(s, e); }
    else if e.SnapshotLand? { SnapshotLandKeeps(s, e); }
    else if e.SnapshotEnd? { SnapshotEndKeeps(s, e); }
    else { SnapshotAdoptKeeps(s, e); }
  }

  lemma WindowEventKeeps(s: State, e: Event)
    requires Inv(s) && Enabled(s, e) && Admissible(s, e) && WindowEvent(e)
    ensures Inv(Step(s, e))
  {
    if e.WindowAdopt? { WindowAdoptKeeps(s, e); }
    else if e.WindowLand? { WindowLandKeeps(s, e); }
    else if e.StartBelow? { StartBelowKeeps(s, e); }
    else { RangeLandKeeps(s, e); }
  }

  lemma OtherEventKeeps(s: State, e: Event)
    requires Inv(s) && Enabled(s, e) && Admissible(s, e) && OtherEvent(e)
    ensures Inv(Step(s, e))
  {
    if e.Arrive? { ArriveKeeps(s, e); }
    else if e.Append? { AppendKeeps(s, e); }
    else if e.JobStart? { JobStartKeeps(s, e); }
    else if e.WriteLands? { WriteLandsKeeps(s, e); }
    else if e.JobEnd? { JobEndKeeps(s, e); }
    else { CrashKeeps(s, e); }
  }

  lemma StepKeeps(s: State, e: Event)
    requires Inv(s) && Enabled(s, e) && Admissible(s, e)
    ensures Inv(Step(s, e))
  {
    if WalkReadingEvent(e) { WalkReadingEventKeeps(s, e); }
    else if WalkVerdictEvent(e) { WalkVerdictEventKeeps(s, e); }
    else if LiveEvent(e) { LiveEventKeeps(s, e); }
    else if RemovalEvent(e) { RemovalEventKeeps(s, e); }
    else if SnapshotEvent(e) { SnapshotEventKeeps(s, e); }
    else if WindowEvent(e) { WindowEventKeeps(s, e); }
    else { OtherEventKeeps(s, e); }
  }
}
