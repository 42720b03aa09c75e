/** From any quiet state each task of the verified-tip protocol can run to its end, and then leaves rows and markers
    where it should: a clean walk covers the tip, a clean live block raises both markers to it, a reorg lowers
    them below what it deletes, and a bootstrap adopts what it lands.
 */
module VerifiedTipTasks {

  import opened VerifiedTip
  import opened VerifiedTipShape
  import opened VerifiedTipProgress

  ghost predicate Continues(s: State, events: seq<Event>)
    decreases |events|
  {
    events == [] || (Enabled(s, events[0]) && Continues(Step(s, events[0]), events[1..]))
  }

  ghost function After(s: State, events: seq<Event>): State
    requires Continues(s, events)
    decreases |events|
  {
    if events == [] then s else After(Step(s, events[0]), events[1..])
  }

  /** Steps lead from s to t. */
  ghost predicate Leads(s: State, t: State) {
    exists events :: Continues(s, events) && After(s, events) == t
  }

  lemma Stay(s: State)
    ensures Leads(s, s)
  {
    assert Continues(s, []) && After(s, []) == s;
  }

  lemma {:induction false} Snoc(s: State, events: seq<Event>, e: Event)
    requires Continues(s, events) && Enabled(After(s, events), e)
    ensures Continues(s, events + [e]) && After(s, events + [e]) == Step(After(s, events), e)
    decreases |events|
  {
    if events == [] {
      assert [e][1..] == [];
    } else {
      Snoc(Step(s, events[0]), events[1..], e);
      assert (events + [e])[1..] == events[1..] + [e];
    }
  }

  lemma Then(s: State, t: State, e: Event, u: State)
    requires Leads(s, t) && Enabled(t, e) && Step(t, e) == u
    ensures Leads(s, u)
  {
    var events :| Continues(s, events) && After(s, events) == t;
    Snoc(s, events, e);
    assert Continues(s, events + [e]);
  }

  /** A process with nothing under way over some rows, its markers not below rows that were never stored. */
  ghost predicate AtRest(s: State) {
    && Shape(s) && Quiet(s) && s.walk == NoWalk && !Empty(s.core) && s.core.durable != Unloaded
    && s.returned == Nothing
  }

  ghost predicate AboveFloor(c: Core, m: Mark) {
    m.At? && !c.truncated ==> m.height >= c.base - 1
  }

  // ---------------------------------------------------------------------------
  // A live block
  // ---------------------------------------------------------------------------

  ghost function AfterLive(c: Core): Core {
    var h := c.tip + 1;
    c.(row := c.row[h := c.next], tip := h, next := c.next + 1, passed := c.passed + {c.next},
       mark := At(h), saved := At(h), durable := At(h), passes := c.passes - {h})
  }

  lemma LiveLands(s: State, t: State)
    requires Leads(s, t) && AtRest(t) && t.core.mark == At(t.core.tip)
    ensures var c, h := t.core, t.core.tip + 1;
            Leads(s, t.(live := Recomputed(h, c.gen),
                        core := c.(row := c.row[h := c.next], tip := h, next := c.next + 1,
                                   passed := c.passed + {c.next}, passes := c.passes - {h})))
  {
    var c, h := t.core, t.core.tip + 1;
    var t1 := t.(live := Gated(h, c.gen), core := c.(passes := c.passes + {h}));
    Then(s, t, LiveGate(h), t1);
    assert c.passes + {h} - {h} == c.passes - {h};
    var d := c.(row := c.row[h := c.next], tip := h, next := c.next + 1, passes := c.passes - {h});
    var t2 := t.(live := Applied(h, c.gen), core := d);
    Then(s, t1, LiveApply(true), t2);
    Then(s, t2, LiveRecompute(true), t.(live := Recomputed(h, c.gen), core := d.(passed := c.passed + {c.next})));
  }

  lemma RaiseLands(s: State, t: State, n: int)
    requires Leads(s, t) && t.live == Recomputed(n, t.core.gen) && t.core.removals == 0 && t.returned == Nothing
    requires t.core.mark.At? && t.core.mark.height < n && t.core.queue == [] && t.core.busy == Idle
    ensures Leads(s, t.(live := NoLive, core := t.core.(mark := At(n), saved := At(n), durable := At(n))))
  {
    var c := t.core;
    var t1 := t.(live := Raising, core := c.(queue := [Raise(n, c.gen)]));
    Then(s, t, LiveRaise, t1);
    var d := c.(mark := At(n), busy := Writing(Raise(n, c.gen), n));
    Then(s, t1, JobStart, t.(live := Raising, core := d));
    RaiseReturns(s, t.(live := Raising, core := d));
  }

  lemma RaiseReturns(s: State, t: State)
    requires Leads(s, t) && t.core.busy.Writing? && t.core.busy.job.Raise? && t.returned == Nothing
    ensures var n := At(t.core.busy.value);
            Leads(s, t.(live := NoLive, core := t.core.(busy := Idle, saved := n, durable := n)))
  {
    var n := At(t.core.busy.value);
    var t1 := t.(core := t.core.(durable := n));
    Then(s, t, WriteLands, t1);
    Then(s, t1, JobEnd(true), t.(live := NoLive, core := t.core.(busy := Idle, saved := n, durable := n)));
  }

  /** In steady state a block that applies and recomputes clean leaves steady state one block higher. */
  lemma LiveBlockCompletes(s: State)
    requires AtRest(s) && s.core.mark == At(s.core.tip)
    ensures Leads(s, s.(core := AfterLive(s.core)))
  {
    Stay(s);
    LiveLands(s, s);
    var c, h := s.core, s.core.tip + 1;
    var t := s.(live := Recomputed(h, c.gen),
                core := c.(row := c.row[h := c.next], tip := h, next := c.next + 1,
                           passed := c.passed + {c.next}, passes := c.passes - {h}));
    RaiseLands(s, t, h);
  }

  // ---------------------------------------------------------------------------
  // A clean walk
  // ---------------------------------------------------------------------------

  /** Only what a walk may change differs. */
  ghost predicate SameRows(c: Core, d: Core) {
    d == c.(mark := d.mark, saved := d.saved, durable := d.durable, passed := d.passed, waiting := d.waiting,
            passes := d.passes)
  }

  /** The walk stands before block h, everything below it covered. */
  ghost predicate Walking(t: State, h: int) {
    && t.walk == Ready(t.core.gen, t.core.tip, h) && t.core.removals == 0 && RowsOk(t.core)
    && t.core.base <= h <= t.core.tip && t.core.queue == [] && t.core.busy == Idle && Reached(t.core, h - 1)
  }

  ghost function Noted(c: Core, h: int): Core
    requires h in c.row
  {
    c.(mark := if c.mark.At? && h <= c.mark.height then c.mark else At(h), passed := c.passed + {c.row[h]})
  }

  lemma CleanBlock(s: State, t: State, h: int)
    requires Leads(s, t) && Walking(t, h)
    ensures var u := t.(core := Noted(t.core, h), returned := Nothing);
            Leads(s, if h == t.core.tip then SaveThen(u, t.core.gen, h, Done)
                     else u.(walk := Ready(t.core.gen, t.core.tip, h + 1)))
  {
    var c := t.core;
    var t1 := t.(walk := Evaluating(c.gen, c.tip, h), returned := Nothing);
    Then(s, t, WalkEvaluate, t1);
    var t2 := t1.(walk := Evaluated(c.gen, c.tip, h, c.row[h], Clean), core := c.(passed := c.passed + {c.row[h]}));
    Then(s, t1, WalkRead(Clean), t2);
    CleanFinish(s, t2);
  }

  lemma CleanFinish(s: State, t: State)
    requires Leads(s, t) && t.walk.Evaluated? && t.walk.verdict == Clean && Unchanged(t.core, t.walk.gen)
    requires t.returned == Nothing
    ensures var w := t.walk;
            var mark := if t.core.mark.At? && w.h <= t.core.mark.height then t.core.mark else At(w.h);
            var u := t.(core := t.core.(mark := mark));
            Leads(s, if w.h == w.tip then SaveThen(u, w.gen, w.tip, Done) else u.(walk := Ready(w.gen, w.tip, w.h + 1)))
  {
    Then(s, t, WalkFinish(false), Step(t, WalkFinish(false)));
  }

  ghost predicate Saved(c: Core, u: State) {
    && u.walk == Saving(c.gen, c.tip, Done) && u.core.queue == [Persist(c.gen)] && u.core.mark.At?
    && Reached(u.core, c.tip) && SameRows(c, u.core.(queue := [])) && u.core.passes == c.passes
    && u.core.waiting == c.waiting
  }

  lemma {:induction false} CleanBlocks(s: State, t: State, h: int)
    requires Leads(s, t) && Walking(t, h)
    ensures exists u :: Leads(s, u) && Saved(t.core, u)
    decreases t.core.tip - h
  {
    CleanBlock(s, t, h);
    var u := t.(core := Noted(t.core, h), returned := Nothing);
    if h == t.core.tip {
      assert Saved(t.core, SaveThen(u, t.core.gen, h, Done));
    } else {
      var v := u.(walk := Ready(t.core.gen, t.core.tip, h + 1));
      CleanBlocks(s, v, h + 1);
      var x :| Leads(s, x) && Saved(v.core, x);
      assert Saved(t.core, x);
    }
  }

  lemma SaveCompletes(s: State, t: State, c: Core)
    requires Leads(s, t) && Saved(c, t) && c.removals == 0 && c.busy == Idle && c.queue == []
    ensures exists u :: Leads(s, u) && WalkDone(c, u)
  {
    var d := t.core.(queue := []);
    if t.core.mark == t.core.saved {
      var u := Return(t.(core := d, returned := Nothing), Ok(c.tip));
      Then(s, t, JobStart, u);
      assert WalkDone(c, u);
    } else {
      var t1 := t.(core := d.(busy := Writing(Persist(c.gen), d.mark.height)), returned := Nothing);
      Then(s, t, JobStart, t1);
      SaveReturns(s, t1, c);
    }
  }

  lemma SaveReturns(s: State, t: State, c: Core)
    requires Leads(s, t) && t.returned == Nothing && t.core.mark.At?
    requires c.removals == 0 && c.busy == Idle && c.queue == []
    requires t.walk == Saving(c.gen, c.tip, Done) && Reached(t.core, c.tip)
    requires t.core.busy == Writing(Persist(c.gen), t.core.mark.height) && SameRows(c, t.core.(busy := Idle))
    requires t.core.passes == c.passes && t.core.waiting == c.waiting
    ensures exists u :: Leads(s, u) && WalkDone(c, u)
  {
    var t1 := t.(core := t.core.(durable := t.core.mark));
    Then(s, t, WriteLands, t1);
    var u := Return(t1.(core := t1.core.(busy := Idle, saved := t.core.mark)), Ok(c.tip));
    Then(s, t1, JobEnd(true), u);
    assert WalkDone(c, u);
  }

  /** The walk answered ok for the tip: every caller that waited is let through, and the marker covers the tip. */
  ghost predicate WalkDone(c: Core, u: State) {
    && u.walk == NoWalk && u.returned == Ok(c.tip) && Reached(u.core, c.tip) && SameRows(c, u.core)
    && u.core.waiting == {} && u.core.passes == c.passes + c.waiting
  }

  /** What a walk over c has not yet changed. */
  ghost predicate Untouched(c: Core, d: Core) {
    SameRows(c, d) && d.passes == c.passes && d.waiting == c.waiting
  }

  /** A core with rows, and nothing under way. */
  ghost predicate Idling(c: Core) {
    RowsOk(c) && !Empty(c) && c.removals == 0 && c.queue == [] && c.busy == Idle
  }

  lemma ProceedCompletes(s: State, p: State, m: int, c: Core)
    requires Idling(c) && Untouched(c, p.core) && p.core.mark == At(m) && m <= c.tip && AboveFloor(c, At(m))
    requires RowsOk(p.core) && Leads(s, Proceed(p, c.gen, c.tip, m))
    ensures exists u :: Leads(s, u) && WalkDone(c, u)
  {
    var t := Proceed(p, c.gen, c.tip, m);
    if StartAt(p.core, m) > c.tip {
      assert WalkDone(c, t);
    } else {
      var h := StartAt(p.core, m);
      CleanBlocks(s, t, h);
      var u :| Leads(s, u) && Saved(t.core, u);
      SaveCompletes(s, u, c);
    }
  }

  lemma SeedCompletes(s: State, t: State, c: Core)
    requires Leads(s, t) && Idling(c) && Untouched(c, t.core) && RowsOk(t.core)
    requires t.walk == Seeding(c.gen, c.tip) && t.returned == Nothing
    ensures exists u :: Leads(s, u) && WalkDone(c, u)
  {
    var d := t.core.(mark := At(c.tip - 1), passed := t.core.passed + VersionsUpTo(t.core.row, c.tip - 1));
    var p := t.(core := d);
    SeededStep(t, WalkSeeded(c.tip), d, c.tip);
    Then(s, t, WalkSeeded(c.tip), Proceed(p, c.gen, c.tip, c.tip - 1));
    ProceedCompletes(s, p, c.tip - 1, c);
  }

  lemma KnownCompletes(s: State, p: State, c: Core)
    requires Idling(c) && Untouched(c, p.core) && RowsOk(p.core) && p.core.mark != Unloaded && p.returned == Nothing
    requires AboveFloor(c, p.core.mark) && Leads(s, MarkerKnown(p, c.gen, c.tip))
    ensures exists u :: Leads(s, u) && WalkDone(c, u)
  {
    if p.core.mark.At? && p.core.mark.height <= c.tip {
      ProceedCompletes(s, p, p.core.mark.height, c);
    } else {
      SeedCompletes(s, p.(walk := Seeding(c.gen, c.tip)), c);
    }
  }

  lemma LoadCompletes(s: State, t: State, c: Core)
    requires Leads(s, t) && Idling(c) && Untouched(c, t.core) && RowsOk(t.core)
    requires t.walk == Loading(c.gen, c.tip) && t.returned == Nothing
    requires t.core.durable != Unloaded && AboveFloor(c, t.core.durable)
    ensures exists u :: Leads(s, u) && WalkDone(c, u)
  {
    var raw := t.core.durable;
    var t1 := t.(walk := Loaded(c.gen, c.tip, raw));
    Then(s, t, WalkLoadRead, t1);
    var p := t1.(core := t.core.(mark := raw, saved := raw));
    Then(s, t1, WalkLoaded, MarkerKnown(p, c.gen, c.tip));
    KnownCompletes(s, p, c);
  }

  /** From rest, whatever the marker says, a walk whose blocks all recompute clean can run to its end. */
  lemma WalkCompletes(s: State)
    requires AtRest(s) && AboveFloor(s.core, s.core.mark) && AboveFloor(s.core, s.core.durable)
    ensures exists u :: Leads(s, u) && WalkDone(s.core, u)
  {
    var c := s.core;
    Stay(s);
    var t := s.(walk := ReadingTip(c.gen));
    Then(s, s, WalkStart, t);
    Then(s, t, WalkTip, MarkerKnown(t, c.gen, c.tip));
    if c.mark == Unloaded {
      LoadCompletes(s, t.(walk := Loading(c.gen, c.tip)), c);
    } else {
      KnownCompletes(s, t, c);
    }
  }

  // ---------------------------------------------------------------------------
  // A reorg
  // ---------------------------------------------------------------------------

  ghost function Truncated(row: map<int, nat>, n: int): map<int, nat> {
    map h | h in row && h <= n :: row[h]
  }

  /** The marker a task works with: the one in memory once it has been loaded. */
  ghost function Known(c: Core): Mark {
    if c.mark == Unloaded then c.durable else c.mark
  }

  /** Lowering to n writes n unless the marker is already at or below it. */
  ghost function LoweredDurable(c: Core, n: int): Mark {
    if Known(c).At? && Known(c).height <= n then c.durable else At(n)
  }

  /** Rows above n are gone, and the markers were lowered to it. */
  ghost predicate ReorgDone(c: Core, n: int, u: State) {
    && u.core.row == Truncated(c.row, n) && u.core.tip == n && u.core.base == c.base && u.core.removal == NoRemoval
    && u.core.removals == 0 && u.core.gen > c.gen && u.core.mark.At? && u.core.mark.height <= n
    && u.core.durable == LoweredDurable(c, n)
    && u.core.queue == [] && u.core.busy == Idle && u.live == NoLive && u.walk == NoWalk
  }

  /** The removal may delete. */
  ghost predicate Opened(c: Core, n: int, t: State) {
    && t.core.removal == Open(n) && t.core.removals == 1 && t.core.row == c.row && t.core.tip == c.tip
    && t.core.base == c.base && t.core.gen == c.gen + 2 && t.core.mark.At? && t.core.mark.height <= n
    && t.core.durable == LoweredDurable(c, n)
    && t.core.queue == [] && t.core.busy == Idle && t.live == NoLive && t.walk == NoWalk && t.returned == Nothing
  }

  lemma DeleteCompletes(s: State, t: State, n: int, c: Core)
    requires Leads(s, t) && Opened(c, n, t) && n < c.tip
    ensures exists u :: Leads(s, u) && ReorgDone(c, n, u)
  {
    var t1 := t.(core := t.core.(row := Truncated(c.row, n), tip := n));
    Then(s, t, RemovalDelete, t1);
    var u := t1.(core := Close(t1.core));
    Then(s, t1, RemovalEnd, u);
    assert ReorgDone(c, n, u);
  }

  /** The lowering of a known marker is queued. */
  ghost predicate LoweringQueued(c: Core, n: int, t: State) {
    && t.core.removal == Lowering(n) && t.core.removals == 1 && t.core.row == c.row && t.core.tip == c.tip
    && t.core.base == c.base && t.core.gen == c.gen + 2 && t.core.durable == c.durable && t.core.mark == Known(c)
    && t.core.queue == [Lower(n)] && t.core.busy == Idle
    && t.live == NoLive && t.walk == NoWalk && t.returned == Nothing
  }

  lemma LowerOpens(s: State, t: State, n: int, c: Core)
    requires Leads(s, t) && LoweringQueued(c, n, t)
    ensures exists u :: Leads(s, u) && Opened(c, n, u)
  {
    var d := t.core.(queue := []);
    if d.mark.At? && d.mark.height <= n {
      var u := t.(core := d.(removal := Open(n)));
      Then(s, t, JobStart, u);
      assert Opened(c, n, u);
    } else {
      var passed := if d.mark.At? then d.passed else d.passed + VersionsUpTo(d.row, n);
      var t1 := t.(core := d.(busy := Writing(Lower(n), n), passed := passed));
      Then(s, t, JobStart, t1);
      LowerReturns(s, t1, n, c);
    }
  }

  lemma LowerReturns(s: State, t: State, n: int, c: Core)
    requires Leads(s, t) && t.core.busy == Writing(Lower(n), n)
    requires LoweringQueued(c, n, t.(core := t.core.(busy := Idle, queue := [Lower(n)]))) && t.core.queue == []
    requires LoweredDurable(c, n) == At(n)
    ensures exists u :: Leads(s, u) && Opened(c, n, u)
  {
    var t1 := t.(core := t.core.(durable := At(n)));
    Then(s, t, WriteLands, t1);
    var u := t1.(core := t1.core.(busy := Idle, saved := At(n), mark := At(n), removal := Open(n)));
    Then(s, t1, JobEnd(true), u);
    assert Opened(c, n, u);
  }

  lemma MarkerLoads(s: State, t: State, n: int)
    requires Leads(s, t) && t.core.removal == RemovalLoading(n) && s.core.mark == Unloaded
    requires t == s.(core := s.core.(gen := s.core.gen + 2, removals := 1, removal := RemovalLoading(n)))
    requires s.core.queue == [] && s.core.busy == Idle && s.live == NoLive && s.walk == NoWalk && s.returned == Nothing
    ensures exists u :: Leads(s, u) && LoweringQueued(s.core, n, u)
  {
    var raw := s.core.durable;
    var t1 := t.(core := t.core.(removal := RemovalLoaded(n, raw)));
    Then(s, t, RemovalLoadRead, t1);
    var u := t.(core := t.core.(mark := raw, saved := raw, removal := Lowering(n), queue := [Lower(n)]));
    Then(s, t1, RemovalLoadDone, u);
    assert LoweringQueued(s.core, n, u);
  }

  lemma RemovalQueuesLowering(s: State, n: int)
    requires AtRest(s) && s.core.base - 1 <= n <= s.core.tip
    ensures exists t :: Leads(s, t) && LoweringQueued(s.core, n, t)
  {
    var c := s.core;
    Stay(s);
    var d := c.(gen := c.gen + 2, removals := 1);
    if c.mark == Unloaded {
      var t1 := s.(core := d.(removal := RemovalLoading(n)));
      Then(s, s, RemovalBegin(n), t1);
      MarkerLoads(s, t1, n);
    } else {
      var t1 := s.(core := d.(removal := Lowering(n), queue := [Lower(n)]));
      Then(s, s, RemovalBegin(n), t1);
      assert LoweringQueued(c, n, t1);
    }
  }

  /** From rest a reorg to any stored block can run to its end. */
  lemma ReorgCompletes(s: State, n: int)
    requires AtRest(s) && s.core.base - 1 <= n < s.core.tip
    ensures exists u :: Leads(s, u) && ReorgDone(s.core, n, u)
  {
    RemovalQueuesLowering(s, n);
    var t :| Leads(s, t) && LoweringQueued(s.core, n, t);
    LowerOpens(s, t, n, s.core);
    var u :| Leads(s, u) && Opened(s.core, n, u);
    DeleteCompletes(s, u, n, s.core);
  }

  // ---------------------------------------------------------------------------
  // Bootstraps
  // ---------------------------------------------------------------------------

  ghost predicate Bootable(s: State) {
    Shape(s) && Quiet(s) && s.walk == NoWalk && s.returned == Nothing
  }

  /** A marker write of a bootstrap lands. */
  lemma AdoptLands(s: State, t: State, n: int, strict: bool)
    requires Leads(s, t) && t.core.queue == [Adopt(n, strict)] && t.core.busy == Idle && t.returned == Nothing
    ensures var c := t.core.(queue := [], mark := At(n), saved := At(n), durable := At(n));
            var boot := if c.boot.WindowAdopting? then WindowReady(c.boot.first) else NoBoot;
            Leads(s, t.(core := c.(boot := boot)))
  {
    var t1 := t.(core := t.core.(queue := [], busy := Writing(Adopt(n, strict), n)));
    Then(s, t, JobStart, t1);
    AdoptReturns(s, t1, n, strict);
  }

  lemma AdoptReturns(s: State, t: State, n: int, strict: bool)
    requires Leads(s, t) && t.core.busy == Writing(Adopt(n, strict), n) && t.returned == Nothing
    ensures var c := t.core.(busy := Idle, mark := At(n), saved := At(n), durable := At(n));
            var boot := if c.boot.WindowAdopting? then WindowReady(c.boot.first) else NoBoot;
            Leads(s, t.(core := c.(boot := boot)))
  {
    var t1 := t.(core := t.core.(durable := At(n)));
    Then(s, t, WriteLands, t1);
    Then(s, t1, JobEnd(true), Step(t1, JobEnd(true)));
  }

  ghost predicate SnapshotDone(c: Core, first: int, last: int, u: State)
    requires first <= last
  {
    && u.core.base == first && u.core.tip == last && u.core.row == NewRows(first, last, c.next)
    && (forall h :: h in u.core.row ==> u.core.row[h] in u.core.passed)
    && u.core.mark == u.core.durable == u.core.saved == At(last)
    && u.core.boot == NoBoot && u.core.removal == NoRemoval && u.core.removals == 0 && !u.core.truncated
    && u.core.queue == [] && u.core.busy == Idle
  }

  lemma SnapshotStored(s: State, first: int, last: int)
    requires Bootable(s) && first <= last
    ensures var c, rows := s.core, NewRows(first, last, s.core.next);
            Leads(s, s.(core := c.(gen := c.gen + 1, removals := 1, removal := OpenAll, base := first, tip := last,
                                   row := rows, next := c.next + (last - first + 1), truncated := false,
                                   passed := c.passed + VersionsUpTo(rows, last), boot := SnapshotLanded)))
  {
    Stay(s);
    var c := s.core;
    var t := s.(core := c.(gen := c.gen + 1, removals := 1, removal := OpenAll, boot := SnapshotOpen));
    Then(s, s, SnapshotBegin, t);
    Then(s, t, SnapshotLand(first, last), Step(t, SnapshotLand(first, last)));
  }

  lemma SnapshotQueued(s: State, t: State)
    requires Leads(s, t) && t.core.boot == SnapshotLanded && t.core.removals == 1 && t.core.queue == []
    requires t.returned == Nothing
    ensures Leads(s, t.(core := t.core.(gen := t.core.gen + 2, removals := 0, removal := NoRemoval,
                                        queue := [Adopt(t.core.tip, false)], boot := SnapshotAdopting)))
  {
    var t1 := t.(core := t.core.(gen := t.core.gen + 1, removals := 0, removal := NoRemoval, boot := SnapshotClosed));
    Then(s, t, SnapshotEnd, t1);
    Then(s, t1, SnapshotAdopt, Step(t1, SnapshotAdopt));
  }

  /** From quiet a full snapshot can replace the rows, and then every stored block is adopted and both markers
      are at the new tip. */
  lemma SnapshotCompletes(s: State, first: int, last: int)
    requires Bootable(s) && first <= last
    ensures exists u :: Leads(s, u) && SnapshotDone(s.core, first, last, u)
  {
    SnapshotStored(s, first, last);
    var c, rows := s.core, NewRows(first, last, s.core.next);
    var t := s.(core := c.(gen := c.gen + 1, removals := 1, removal := OpenAll, base := first, tip := last,
                           row := rows, next := c.next + (last - first + 1), truncated := false,
                           passed := c.passed + VersionsUpTo(rows, last), boot := SnapshotLanded));
    SnapshotQueued(s, t);
    var t1 := t.(core := t.core.(gen := t.core.gen + 2, removals := 0, removal := NoRemoval,
                                 queue := [Adopt(last, false)], boot := SnapshotAdopting));
    AdoptLands(s, t1, last, false);
    var u := t1.(core := t1.core.(queue := [], mark := At(last), saved := At(last), durable := At(last),
                                  boot := NoBoot));
    assert SnapshotDone(c, first, last, u);
  }

  ghost predicate WindowDone(c: Core, at: int, last: int, u: State)
    requires at <= last
  {
    && u.core.base == at && u.core.tip == last && u.core.row == NewRows(at, last, c.next) && u.core.truncated
    && u.core.mark == u.core.durable == u.core.saved == At(at) && u.core.boot == NoBoot
    && u.core.passed == c.passed + {c.next}
    && u.core.queue == [] && u.core.busy == Idle
  }

  /** From quiet over no rows a window can land above an adopted join block, and both markers are at it. */
  lemma WindowCompletes(s: State, at: int, last: int)
    requires Bootable(s) && Empty(s.core) && at <= last
    ensures exists u :: Leads(s, u) && WindowDone(s.core, at, last, u)
  {
    var c := s.core;
    Stay(s);
    var t := s.(core := c.(gen := c.gen + 1, queue := [Adopt(at, true)], boot := WindowAdopting(at),
                           base := at, tip := at - 1, row := map[], truncated := true));
    Then(s, s, WindowAdopt(at), t);
    AdoptLands(s, t, at, true);
    var d := t.core.(queue := [], mark := At(at), saved := At(at), durable := At(at), boot := WindowReady(at));
    var u := Step(t.(core := d), WindowLand(last));
    Then(s, t.(core := d), WindowLand(last), u);
    assert WindowDone(c, at, last, u);
  }

  ghost predicate CatchUpDone(c: Core, since: int, last: int, u: State)
    requires since <= last
  {
    && u.core.mark == At(since - 1) && u.core.durable == c.durable && u.core.boot == NoBoot
    && u.core.base == since && u.core.tip == last && u.core.row == NewRows(since, last, c.next)
    && u.core.passed == c.passed && StartAt(u.core, since - 1) == since
  }

  lemma RangeLands(s: State, t: State, last: int, c: Core)
    requires Leads(s, t) && t.core.boot == EmptyReady && t.core.base <= last && t.core.mark == At(t.core.base - 1)
    requires t.core.durable == c.durable && t.core.next == c.next && t.core.passed == c.passed
    ensures exists u :: Leads(s, u) && CatchUpDone(c, t.core.base, last, u)
  {
    var u := Step(t, RangeLand(last));
    Then(s, t, RangeLand(last), u);
    assert CatchUpDone(c, t.core.base, last, u);
  }

  /** From quiet over no rows a catch-up can start at any block: the walk of it will begin there. */
  lemma CatchUpCompletes(s: State, since: int, last: int)
    requires Bootable(s) && Empty(s.core) && since <= last
    ensures exists u :: Leads(s, u) && CatchUpDone(s.core, since, last, u)
  {
    Stay(s);
    var t := Step(s, StartBelow(since));
    Then(s, s, StartBelow(since), t);
    RangeLands(s, t, last, s.core);
  }
}
