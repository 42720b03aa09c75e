/** Runs of the verified-tip protocol, admissible up to their last step, that end in an inadmissible one. */
module VerifiedTipRuns {

  import opened VerifiedTip
  import opened VerifiedTipExact

  /** An admissible run from s ends in t. */
  ghost predicate Leads(s: State, t: State) {
    exists states, events ::
      && Run(states, events) && AdmissibleUpTo(states, events, |events|)
      && states[0] == s && states[|events|] == t
  }

  lemma Stay(s: State)
    requires Start(s)
    ensures Leads(s, s)
  {
    assert Run([s], []) && AdmissibleUpTo([s], [], 0);
  }

  lemma Then(s: State, t: State, e: Event, u: State)
    requires Leads(s, t) && Enabled(t, e) && Admissible(t, e) && Step(t, e) == u
    ensures Leads(s, u)
  {
    var states, events :| Run(states, events) && AdmissibleUpTo(states, events, |events|) && states[0] == s
      && states[|events|] == t;
    Extends(states, events, e, u);
  }

  lemma Extends(states: seq<State>, events: seq<Event>, e: Event, u: State)
    requires Run(states, events) && AdmissibleUpTo(states, events, |events|)
    requires Linked(states[|events|], e, u) && Passes(states[|events|], e)
    ensures Leads(states[0], u)
  {
    var longer, more := states + [u], events + [e];
    forall i | 0 <= i < |more|
      ensures Linked(longer[i], more[i], longer[i + 1]) && Passes(longer[i], more[i])
    {
      if i < |events| {
        assert Linked(states[i], events[i], states[i + 1]) && Passes(states[i], events[i]);
      }
    }
    assert Run(longer, more) && AdmissibleUpTo(longer, more, |more|);
    assert longer[0] == states[0] && longer[|more|] == u;
  }

  /** Some admissible run from s leads to an inadmissible step, after which a marker lies or does so when the
      next rows land. */
  ghost predicate GoesWrong(s: State) {
    exists t, e :: Leads(s, t) && Enabled(t, e) && !Admissible(t, e) && CanLie(Step(t, e))
  }

  lemma WrongStepsLie(s: State, t: State, e: Event)
    requires Leads(s, t) && Enabled(t, e) && !Admissible(t, e)
    ensures GoesWrong(s)
  {
    var states, events :| Run(states, events) && AdmissibleUpTo(states, events, |events|) && states[0] == s
      && states[|events|] == t;
    RunKeeps(states, events, |events|);
    InadmissibleCanLie(t, e);
  }

  ghost const THREE_BLOCKS := map[1 := 0, 2 := 1, 3 := 2]

  /** Three verified blocks. */
  ghost function Example(durable: Mark, mark: Mark): State {
    State(Core(1, 3, THREE_BLOCKS, 3, {0, 1, 2}, durable, mark, mark, 0, 0, false, [], Idle, NoRemoval, NoBoot, {}, {}),
          NoWalk, NoLive, Nothing)
  }

  lemma ExampleStarts(durable: Mark, mark: Mark)
    requires durable != Unloaded
    ensures Start(Example(durable, mark))
  {
  }

  lemma AdoptsNothingNew(m: int)
    ensures {0, 1, 2} + VersionsUpTo(THREE_BLOCKS, m) == {0, 1, 2}
  {
    forall v | v in VersionsUpTo(THREE_BLOCKS, m)
      ensures v in {0, 1, 2}
    {
    }
  }

  /** An emptied replica whose markers were left from before. */
  ghost function Emptied(): State {
    State(Core(4, 3, map[], 3, {}, At(3), At(3), At(3), 0, 0, false, [], Idle, NoRemoval, NoBoot, {}, {}),
          NoWalk, NoLive, Nothing)
  }

  lemma EmptiedStarts()
    ensures Start(Emptied())
  {
  }

  lemma EmptyStartExposes()
    ensures Enabled(Emptied(), StartBelow(1)) && !Admissible(Emptied(), StartBelow(1))
  {
    var c := Step(Emptied(), StartBelow(1)).core;
    assert c.boot == EmptyReady && c.base == 1 && c.durable == At(3);
  }

  /** A catch-up onto it starts under the durable marker. */
  lemma MarkerOverEmptyGoesWrong()
    ensures Start(Emptied()) && GoesWrong(Emptied())
  {
    EmptiedStarts();
    Stay(Emptied());
    EmptyStartExposes();
    WrongStepsLie(Emptied(), Emptied(), StartBelow(1));
  }

  /** A reorg of the example to block 1, its lowering queued, with a walk waiting for a read. */
  ghost function MidReorg(durable: Mark, mark: Mark, busy: Busy, queue: seq<Job>, removal: Removal, walk: Walk): State {
    State(Core(1, 3, THREE_BLOCKS, 3, {0, 1, 2}, durable, mark, mark, 2, 1, false, queue, busy, removal, NoBoot,
               {}, {}),
          walk, NoLive, Nothing)
  }

  ghost function Lowered(walk: Walk): State {
    MidReorg(At(1), At(1), Idle, [], Open(1), walk)
  }

  ghost function Reorged(walk: Walk, live: Live, passes: set<int>): State {
    State(Core(1, 1, map[1 := 0], 3, {0, 1, 2}, At(1), At(1), At(1), 3, 0, false, [], Idle, NoRemoval, NoBoot,
               {}, passes),
          walk, live, Nothing)
  }

  lemma LoweringStarts(s: State, durable: Mark, mark: Mark, walk: Walk)
    requires !mark.At? || mark == At(3)
    requires Leads(s, MidReorg(durable, mark, Idle, [Lower(1)], Lowering(1), walk))
    ensures Leads(s, MidReorg(durable, mark, Writing(Lower(1), 1), [], Lowering(1), walk))
  {
    AdoptsNothingNew(1);
    Then(s, MidReorg(durable, mark, Idle, [Lower(1)], Lowering(1), walk), JobStart,
         MidReorg(durable, mark, Writing(Lower(1), 1), [], Lowering(1), walk));
  }

  lemma LoweringLands(s: State, durable: Mark, mark: Mark, walk: Walk)
    requires Leads(s, MidReorg(durable, mark, Writing(Lower(1), 1), [], Lowering(1), walk))
    ensures Leads(s, MidReorg(At(1), mark, Writing(Lower(1), 1), [], Lowering(1), walk))
  {
    Then(s, MidReorg(durable, mark, Writing(Lower(1), 1), [], Lowering(1), walk), WriteLands,
         MidReorg(At(1), mark, Writing(Lower(1), 1), [], Lowering(1), walk));
  }

  lemma LoweringReturns(s: State, mark: Mark, walk: Walk)
    requires Leads(s, MidReorg(At(1), mark, Writing(Lower(1), 1), [], Lowering(1), walk))
    ensures Leads(s, Lowered(walk))
  {
    Then(s, MidReorg(At(1), mark, Writing(Lower(1), 1), [], Lowering(1), walk), JobEnd(true), Lowered(walk));
  }

  lemma ReorgEnds(s: State, walk: Walk)
    requires Leads(s, Lowered(walk))
    ensures Leads(s, Reorged(walk, NoLive, {}))
  {
    var t := Lowered(walk);
    var t1 := t.(core := t.core.(row := map[1 := 0], tip := 1));
    Then(s, t, RemovalDelete, t1);
    Then(s, t1, RemovalEnd, Reorged(walk, NoLive, {}));
  }

  /** Once the rows are gone a live block is let through, since the marker equals the new tip. */
  lemma ReorgThenGate(s: State, walk: Walk)
    requires Leads(s, Lowered(walk))
    ensures Leads(s, Reorged(walk, Gated(2, 3), {2}))
  {
    ReorgEnds(s, walk);
    Then(s, Reorged(walk, NoLive, {}), LiveGate(2), Reorged(walk, Gated(2, 3), {2}));
  }

  lemma WalkAwaitsLoad(s: State)
    requires s == Example(At(3), Unloaded)
    ensures Leads(s, s.(walk := Loaded(0, 3, At(3))))
  {
    ExampleStarts(At(3), Unloaded);
    Stay(s);
    Then(s, s, WalkStart, s.(walk := ReadingTip(0)));
    Then(s, s.(walk := ReadingTip(0)), WalkTip, s.(walk := Loading(0, 3)));
    Then(s, s.(walk := Loading(0, 3)), WalkLoadRead, s.(walk := Loaded(0, 3, At(3))));
  }

  lemma RemovalLoads(s: State, walk: Walk)
    requires s == Example(At(3), Unloaded) && Leads(s, s.(walk := walk))
    ensures Leads(s, MidReorg(At(3), At(3), Idle, [Lower(1)], Lowering(1), walk))
  {
    Then(s, s.(walk := walk), RemovalBegin(1), MidReorg(At(3), Unloaded, Idle, [], RemovalLoading(1), walk));
    RemovalReads(s, walk);
    RemovalQueues(s, walk);
  }

  lemma RemovalReads(s: State, walk: Walk)
    requires Leads(s, MidReorg(At(3), Unloaded, Idle, [], RemovalLoading(1), walk))
    ensures Leads(s, MidReorg(At(3), Unloaded, Idle, [], RemovalLoaded(1, At(3)), walk))
  {
    Then(s, MidReorg(At(3), Unloaded, Idle, [], RemovalLoading(1), walk), RemovalLoadRead,
         MidReorg(At(3), Unloaded, Idle, [], RemovalLoaded(1, At(3)), walk));
  }

  lemma RemovalQueues(s: State, walk: Walk)
    requires Leads(s, MidReorg(At(3), Unloaded, Idle, [], RemovalLoaded(1, At(3)), walk))
    ensures Leads(s, MidReorg(At(3), At(3), Idle, [Lower(1)], Lowering(1), walk))
  {
    Then(s, MidReorg(At(3), Unloaded, Idle, [], RemovalLoaded(1, At(3)), walk), RemovalLoadDone,
         MidReorg(At(3), At(3), Idle, [Lower(1)], Lowering(1), walk));
  }

  /** The walk's first marker read is delivered after a removal loaded and lowered the marker itself and a live
      block was let through: the marker goes back above the new tip. */
  lemma StaleLoadGoesWrong()
    ensures Start(Example(At(3), Unloaded)) && GoesWrong(Example(At(3), Unloaded))
  {
    var s, walk := Example(At(3), Unloaded), Loaded(0, 3, At(3));
    ExampleStarts(At(3), Unloaded);
    WalkAwaitsLoad(s);
    RemovalLoads(s, walk);
    LoweringStarts(s, At(3), At(3), walk);
    LoweringLands(s, At(3), At(3), walk);
    LoweringReturns(s, At(3), walk);
    ReorgThenGate(s, walk);
    var t := Reorged(walk, Gated(2, 3), {2});
    assert Step(t, WalkLoaded).core.mark == At(3);
    WrongStepsLie(s, t, WalkLoaded);
  }

  lemma WalkAwaitsSeed(s: State)
    requires s == Example(Absent, Absent)
    ensures Leads(s, s.(walk := Seeding(0, 3)))
  {
    ExampleStarts(Absent, Absent);
    Stay(s);
    Then(s, s, WalkStart, s.(walk := ReadingTip(0)));
    Then(s, s.(walk := ReadingTip(0)), WalkTip, s.(walk := Seeding(0, 3)));
  }

  lemma SeedAwaits(s: State)
    requires s == Example(Absent, Absent)
    ensures Leads(s, MidReorg(Absent, Absent, Idle, [Lower(1)], Lowering(1), Seeding(0, 3)))
  {
    WalkAwaitsSeed(s);
    Then(s, s.(walk := Seeding(0, 3)), RemovalBegin(1),
         MidReorg(Absent, Absent, Idle, [Lower(1)], Lowering(1), Seeding(0, 3)));
  }

  /** A seed computed from the tip before a removal is stored after it, above the new tip and a live block
      already let through. */
  lemma StaleSeedGoesWrong()
    ensures Start(Example(Absent, Absent)) && GoesWrong(Example(Absent, Absent))
  {
    var s, walk := Example(Absent, Absent), Seeding(0, 3);
    ExampleStarts(Absent, Absent);
    SeedAwaits(s);
    LoweringStarts(s, Absent, Absent, walk);
    LoweringLands(s, Absent, Absent, walk);
    LoweringReturns(s, Absent, walk);
    ReorgThenGate(s, walk);
    var t := Reorged(walk, Gated(2, 3), {2});
    assert Step(t, WalkSeeded(3)).core.mark == At(2);
    WrongStepsLie(s, t, WalkSeeded(3));
  }

  /** The example once a full snapshot of blocks 1..2 is stored under the durable marker at 3. */
  ghost function Shrunk(mark: Mark, saved: Mark, gen: nat, queue: seq<Job>, busy: Busy, boot: Boot, waiting: set<int>,
                        walk: Walk): State {
    State(Core(1, 2, map[1 := 3, 2 := 4], 5, {0, 1, 2, 3, 4}, At(3), mark, saved, gen, 0, false, queue, busy, NoRemoval,
               boot, waiting, {}),
          walk, NoLive, Nothing)
  }

  lemma SnapshotLands(rows: map<int, nat>)
    requires rows == NewRows(1, 2, 3)
    ensures rows == map[1 := 3, 2 := 4] && {0, 1, 2} + VersionsUpTo(rows, 2) == {0, 1, 2, 3, 4}
  {
    assert rows[1] in VersionsUpTo(rows, 2) && rows[2] in VersionsUpTo(rows, 2);
    assert VersionsUpTo(rows, 2) == {3, 4};
  }

  ghost function Replacing(): State {
    State(Core(1, 3, THREE_BLOCKS, 3, {0, 1, 2}, At(3), At(3), At(3), 1, 1, false, [], Idle, OpenAll, SnapshotOpen,
               {}, {}),
          NoWalk, NoLive, Nothing)
  }

  ghost function Replaced(): State {
    State(Core(1, 2, map[1 := 3, 2 := 4], 5, {0, 1, 2, 3, 4}, At(3), At(3), At(3), 1, 1, false, [], Idle, OpenAll,
               SnapshotLanded, {}, {}),
          NoWalk, NoLive, Nothing)
  }

  lemma SnapshotOpens(s: State)
    requires s == Example(At(3), At(3))
    ensures Leads(s, Replacing())
  {
    ExampleStarts(At(3), At(3));
    Stay(s);
    Then(s, s, SnapshotBegin, Replacing());
  }

  lemma SnapshotReplaces(s: State)
    requires Leads(s, Replacing())
    ensures Leads(s, Replaced())
  {
    SnapshotLands(NewRows(1, 2, 3));
    Then(s, Replacing(), SnapshotLand(1, 2), Replaced());
  }

  lemma SnapshotShrinks(s: State)
    requires s == Example(At(3), At(3))
    ensures Leads(s, Shrunk(At(3), At(3), 2, [], Idle, SnapshotClosed, {}, NoWalk))
  {
    SnapshotOpens(s);
    SnapshotReplaces(s);
    Then(s, Replaced(), SnapshotEnd, Shrunk(At(3), At(3), 2, [], Idle, SnapshotClosed, {}, NoWalk));
  }

  lemma AdoptIsQueued(s: State)
    requires Leads(s, Shrunk(At(3), At(3), 2, [], Idle, SnapshotClosed, {}, NoWalk))
    ensures Leads(s, Shrunk(At(3), At(3), 3, [Adopt(2, false)], Idle, SnapshotAdopting, {}, NoWalk))
  {
    Then(s, Shrunk(At(3), At(3), 2, [], Idle, SnapshotClosed, {}, NoWalk), SnapshotAdopt,
         Shrunk(At(3), At(3), 3, [Adopt(2, false)], Idle, SnapshotAdopting, {}, NoWalk));
  }

  lemma AdoptIsWriting(s: State)
    requires Leads(s, Shrunk(At(3), At(3), 3, [Adopt(2, false)], Idle, SnapshotAdopting, {}, NoWalk))
    ensures Leads(s, Shrunk(At(3), At(3), 3, [], Writing(Adopt(2, false), 2), SnapshotAdopting, {}, NoWalk))
  {
    Then(s, Shrunk(At(3), At(3), 3, [Adopt(2, false)], Idle, SnapshotAdopting, {}, NoWalk), JobStart,
         Shrunk(At(3), At(3), 3, [], Writing(Adopt(2, false), 2), SnapshotAdopting, {}, NoWalk));
  }

  lemma AdoptIsLost(s: State)
    requires Leads(s, Shrunk(At(3), At(3), 3, [], Writing(Adopt(2, false), 2), SnapshotAdopting, {}, NoWalk))
    ensures Leads(s, Shrunk(At(2), At(3), 3, [], Idle, NoBoot, {}, NoWalk))
  {
    Then(s, Shrunk(At(3), At(3), 3, [], Writing(Adopt(2, false), 2), SnapshotAdopting, {}, NoWalk), JobEnd(false),
         Shrunk(At(2), At(3), 3, [], Idle, NoBoot, {}, NoWalk));
  }

  /** The snapshot's fail-soft marker write is lost, whatever it reported: the in-memory marker equals the tip,
      so the next live block would be let through under the durable marker above it. */
  lemma LostAdoptGoesWrong()
    ensures Start(Example(At(3), At(3))) && GoesWrong(Example(At(3), At(3)))
  {
    var s := Example(At(3), At(3));
    ExampleStarts(At(3), At(3));
    SnapshotShrinks(s);
    AdoptIsQueued(s);
    AdoptIsWriting(s);
    AdoptIsLost(s);
    var lost := Shrunk(At(2), At(3), 3, [], Idle, NoBoot, {}, NoWalk);
    WrongStepsLie(s, lost, LiveGate(3));
  }

  /** The process stops before that write; the next one finds the marker above the tip, seeds and verifies the
      tip, and its own fail-soft marker write is lost. */
  lemma RestartSeeds(s: State)
    requires s == Example(At(3), At(3))
    ensures Leads(s, Shrunk(At(1), At(3), 0, [], Idle, NoBoot, {3}, Ready(0, 2, 2)))
  {
    SnapshotShrinks(s);
    var closed := Shrunk(At(3), At(3), 2, [], Idle, SnapshotClosed, {}, NoWalk);
    var down := Shrunk(Unloaded, Unloaded, 0, [], Idle, NoBoot, {}, NoWalk);
    Then(s, closed, Crash, down);
    var arrived := Shrunk(Unloaded, Unloaded, 0, [], Idle, NoBoot, {3}, NoWalk);
    Then(s, down, Arrive, arrived);
    RestartWalks(s, arrived);
  }

  lemma RestartWalks(s: State, t: State)
    requires Leads(s, t) && t == Shrunk(Unloaded, Unloaded, 0, [], Idle, NoBoot, {3}, NoWalk)
    ensures Leads(s, Shrunk(At(1), At(3), 0, [], Idle, NoBoot, {3}, Ready(0, 2, 2)))
  {
    Then(s, t, WalkStart, t.(walk := ReadingTip(0)));
    Then(s, t.(walk := ReadingTip(0)), WalkTip, t.(walk := Loading(0, 2)));
    Then(s, t.(walk := Loading(0, 2)), WalkLoadRead, t.(walk := Loaded(0, 2, At(3))));
    RestartLoads(s, t);
  }

  lemma RestartLoads(s: State, t: State)
    requires t == Shrunk(Unloaded, Unloaded, 0, [], Idle, NoBoot, {3}, NoWalk)
    requires Leads(s, t.(walk := Loaded(0, 2, At(3))))
    ensures Leads(s, Shrunk(At(1), At(3), 0, [], Idle, NoBoot, {3}, Ready(0, 2, 2)))
  {
    var seeding := Shrunk(At(3), At(3), 0, [], Idle, NoBoot, {3}, Seeding(0, 2));
    Then(s, t.(walk := Loaded(0, 2, At(3))), WalkLoaded, seeding);
    var row := map[1 := 3, 2 := 4];
    assert VersionsUpTo(row, 1) <= {0, 1, 2, 3, 4};
    assert {0, 1, 2, 3, 4} + VersionsUpTo(row, 1) == {0, 1, 2, 3, 4};
    Then(s, seeding, WalkSeeded(2), Shrunk(At(1), At(3), 0, [], Idle, NoBoot, {3}, Ready(0, 2, 2)));
  }

  lemma RestartVerifies(s: State)
    requires Leads(s, Shrunk(At(1), At(3), 0, [], Idle, NoBoot, {3}, Ready(0, 2, 2)))
    ensures Leads(s, Shrunk(At(2), At(3), 0, [Persist(0)], Idle, NoBoot, {3}, Saving(0, 2, Done)))
  {
    var ready := Shrunk(At(1), At(3), 0, [], Idle, NoBoot, {3}, Ready(0, 2, 2));
    Then(s, ready, WalkEvaluate, ready.(walk := Evaluating(0, 2, 2)));
    var read := ready.(walk := Evaluated(0, 2, 2, 4, Clean));
    assert ready.core.passed + {4} == ready.core.passed;
    Then(s, ready.(walk := Evaluating(0, 2, 2)), WalkRead(Clean), read);
    Then(s, read, WalkFinish(true), Shrunk(At(2), At(3), 0, [Persist(0)], Idle, NoBoot, {3}, Saving(0, 2, Done)));
  }

  lemma RestartSaves(s: State)
    requires Leads(s, Shrunk(At(2), At(3), 0, [Persist(0)], Idle, NoBoot, {3}, Saving(0, 2, Done)))
    ensures Leads(s, Shrunk(At(2), At(3), 0, [], Writing(Persist(0), 2), NoBoot, {3}, Saving(0, 2, Done)))
  {
    Then(s, Shrunk(At(2), At(3), 0, [Persist(0)], Idle, NoBoot, {3}, Saving(0, 2, Done)), JobStart,
         Shrunk(At(2), At(3), 0, [], Writing(Persist(0), 2), NoBoot, {3}, Saving(0, 2, Done)));
  }

  /** The answer to the waiting caller would let it through under the durable marker above the tip. */
  lemma LostSaveGoesWrong()
    ensures Start(Example(At(3), At(3))) && GoesWrong(Example(At(3), At(3)))
    ensures exists t ::
              && Leads(Example(At(3), At(3)), t) && t.walk.Saving?
              && Enabled(t, JobEnd(true)) && !Admissible(t, JobEnd(true))
  {
    var s := Example(At(3), At(3));
    ExampleStarts(At(3), At(3));
    RestartSeeds(s);
    RestartVerifies(s);
    RestartSaves(s);
    var writing := Shrunk(At(2), At(3), 0, [], Writing(Persist(0), 2), NoBoot, {3}, Saving(0, 2, Done));
    LostSaveExposes(writing);
    WrongStepsLie(s, writing, JobEnd(true));
  }

  lemma LostSaveExposes(t: State)
    requires t == Shrunk(At(2), At(3), 0, [], Writing(Persist(0), 2), NoBoot, {3}, Saving(0, 2, Done))
    ensures Enabled(t, JobEnd(true)) && !Admissible(t, JobEnd(true))
  {
    assert Step(t, JobEnd(true)).core.passes == {3};
  }
}
