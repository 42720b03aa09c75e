/** Where each task of the halt protocol leads when its writes and reads succeed: a start without a record applies,
    a written row takes its copy away, an operator clear lifts the halt, and an unreadable start is tried again.
 */
module HaltTasks {

  import opened Hashing
  import opened HaltPersistence

  /** From down with no active row and no copy, a start leads to a process that applies. */
  lemma CleanStartApplies(s: State)
    requires s.phase == Down && s.clear == NoClear && s.halted == None && s.rows == [] && !s.copy.CopyOf?
    ensures Leads(s, s.(phase := Running)) && Enabled(s.(phase := Running), Apply)
  {
    Stay(s);
    Then(s, s, Start, s.(phase := ReadingRow));
    Then(s, s.(phase := ReadingRow), RowRead(true), s.(phase := ReadingCopy));
    Then(s, s.(phase := ReadingCopy), CopyRead(true), s.(phase := Running));
  }

  /** From down with an active row, a start leads to a wait halted on the newest one. */
  lemma RowHaltsStart(s: State)
    requires s.phase == Down && s.clear == NoClear && s.halted == None && s.rows != []
    ensures var h := Halt(s.nextId, s.rows[|s.rows| - 1], false);
            Leads(s, s.(phase := Waiting, halted := Some(h), nextId := s.nextId + 1))
  {
    Stay(s);
    Then(s, s, Start, s.(phase := ReadingRow));
    Then(s, s.(phase := ReadingRow), RowRead(true),
         s.(phase := Waiting, halted := Some(Halt(s.nextId, s.rows[|s.rows| - 1], false)), nextId := s.nextId + 1));
  }

  /** A start that could not read the rows waits, and leads to another start that can. */
  lemma UnreadableStartIsTriedAgain(s: State)
    requires s.phase == ReadingRow && s.clear == NoClear && s.halted == None
    ensures Leads(s, s.(nextId := s.nextId + 1))
  {
    Stay(s);
    var h := Halt(s.nextId, -1, true);
    var t := s.(phase := Waiting, halted := Some(h), nextId := s.nextId + 1);
    Then(s, s, RowRead(false), t);
    Then(s, t, Recheck, s.(phase := Down, nextId := s.nextId + 1));
    Then(s, s.(phase := Down, nextId := s.nextId + 1), Start, s.(nextId := s.nextId + 1));
  }

  /** The write of the halt in force has landed, after its copy was written. */
  ghost predicate Recorded(s: State, i: nat) {
    && s.phase == Running && s.clear == NoClear && s.pendingCopy
    && i < |s.tasks| && s.tasks[i].Recording? && s.tasks[i].stored && s.halted == Some(s.tasks[i].h)
  }

  lemma RecordDrops(s: State, i: nat)
    requires Recorded(s, i)
    ensures Leads(s, s.(durable := true, pendingCopy := false, tasks := s.tasks[i := Dropping]))
  {
    Stay(s);
    Then(s, s, RecordDone(i, true), s.(durable := true, pendingCopy := false, tasks := s.tasks[i := Dropping]));
  }

  /** Once the row is written its copy goes: deleted, or overwritten with the empty value when the delete
      reports failure. */
  lemma WrittenRowTakesCopyAway(s: State, i: nat)
    requires Recorded(s, i)
    ensures var t := s.(durable := true, pendingCopy := false, tasks := s.tasks[i := Finished]);
            Leads(s, t.(copy := NoCopy)) && Leads(s, t.(copy := Blank))
  {
    RecordDrops(s, i);
    var t := s.(durable := true, pendingCopy := false, tasks := s.tasks[i := Dropping]);
    DropEnds(s, t, i);
    OverwriteEnds(s, t, i);
    assert t.tasks[i := Finished] == s.tasks[i := Finished];
  }

  lemma DropEnds(s: State, t: State, i: nat)
    requires Leads(s, t) && i < |t.tasks| && t.tasks[i] == Dropping
    ensures Leads(s, t.(copy := NoCopy, tasks := t.tasks[i := Finished]))
  {
    Then(s, t, DropLands(i), t.(copy := NoCopy));
    Then(s, t.(copy := NoCopy), DropDone(i, true), t.(copy := NoCopy, tasks := t.tasks[i := Finished]));
  }

  lemma OverwriteEnds(s: State, t: State, i: nat)
    requires Leads(s, t) && i < |t.tasks| && t.tasks[i] == Dropping
    ensures Leads(s, t.(copy := Blank, tasks := t.tasks[i := Finished]))
  {
    var u := t.(tasks := t.tasks[i := Overwriting]);
    Then(s, t, DropDone(i, false), u);
    Then(s, u, OverwriteLands(i), u.(copy := Blank));
    assert u.tasks[i := Finished] == t.tasks[i := Finished];
    Then(s, u.(copy := Blank), OverwriteDone(i), t.(copy := Blank, tasks := t.tasks[i := Finished]));
  }

  /** An operator clear whose writes land, with nothing harmful under way: no row, no copy and no halt is left,
      and a client that waited at startup, or is to start over, starts over. */
  ghost function Lifted(s: State, copy: Copy, restart: bool): State {
    s.(rows := [], copy := copy, landed := {}, halted := None, durable := true, pendingCopy := false, timer := None,
       phase := if s.phase == Waiting || restart then Down else s.phase)
  }

  lemma ClearLifts(s: State, restart: bool)
    requires (s.phase == Running || s.phase == Waiting) && s.halted.Some? && !s.halted.value.synthetic
    requires s.clear == NoClear && HaltPersistence.Quiet(s) && (restart ==> CanRestart(s))
    ensures Leads(s, Lifted(s, NoCopy, restart)) && Leads(s, Lifted(s, Blank, restart))
  {
    Stay(s);
    var s1 := s.(timer := None, durable := true, clear := Updating(s.durable));
    Then(s, s, ClearBegin, s1);
    var s2 := s1.(rows := [], landed := {}, clear := Updated);
    Then(s, s1, ClearLands, s2);
    var s3 := s2.(clear := ClearDropping, pendingCopy := false);
    Then(s, s2, ClearReturns(true), s3);
    ClearDrops(s, s3, restart);
    ClearOverwrites(s, s3, restart);
  }

  /** A clear whose row update fails changes nothing but the retry: it is armed if the row was owed. */
  lemma FailedClearChangesNothing(s: State)
    requires (s.phase == Running || s.phase == Waiting) && s.halted.Some? && !s.halted.value.synthetic
    requires s.clear == NoClear
    ensures Leads(s, s.(timer := if s.durable then None else s.halted))
  {
    Stay(s);
    var t := s.(timer := None, durable := true, clear := Updating(s.durable));
    Then(s, s, ClearBegin, t);
    Then(s, t, ClearReturns(false), s.(timer := if s.durable then None else s.halted));
  }

  lemma ClearDrops(s: State, t: State, restart: bool)
    requires Leads(s, t) && t.clear == ClearDropping && HaltPersistence.Quiet(t) && (restart ==> CanRestart(t))
    ensures Leads(s, t.(copy := NoCopy, halted := None, clear := NoClear,
                        phase := if t.phase == Waiting || restart then Down else t.phase))
  {
    Then(s, t, ClearDropLands, t.(copy := NoCopy));
    Then(s, t.(copy := NoCopy), ClearDropReturns(true, restart),
         t.(copy := NoCopy, halted := None, clear := NoClear,
            phase := if t.phase == Waiting || restart then Down else t.phase));
  }

  lemma ClearOverwrites(s: State, t: State, restart: bool)
    requires Leads(s, t) && t.clear == ClearDropping && HaltPersistence.Quiet(t) && (restart ==> CanRestart(t))
    ensures Leads(s, t.(copy := Blank, halted := None, clear := NoClear,
                        phase := if t.phase == Waiting || restart then Down else t.phase))
  {
    var u := t.(clear := ClearOverwriting);
    Then(s, t, ClearDropReturns(false, restart), u);
    Then(s, u, ClearOverwriteLands, u.(copy := Blank));
    Then(s, u.(copy := Blank), ClearEnds(restart),
         t.(copy := Blank, halted := None, clear := NoClear,
            phase := if t.phase == Waiting || restart then Down else t.phase));
  }

  // ---------------------------------------------------------------------------
  // A halt's row is not written twice
  // ---------------------------------------------------------------------------

  ghost predicate NoneTwice(rows: seq<int>) {
    forall i :: 0 <= i < |rows| - 1 ==> rows[i] != rows[i + 1]
  }

  lemma RowsStep(s: State, e: Event)
    requires Enabled(s, e) && NoneTwice(s.rows) && (e.RecordLands? ==> e.seen)
    ensures NoneTwice(Step(s, e).rows)
  {
  }

  /** Over any run whose writes see the newest active row, no two rows in a row are of one block: a retried halt
      has one row. */
  lemma {:induction false} RetriedHaltHasOneRow(states: seq<State>, events: seq<Event>, n: nat)
    requires Run(states, events) && NoneTwice(states[0].rows) && n <= |events|
    requires forall i :: 0 <= i < n && events[i].RecordLands? ==> events[i].seen
    ensures NoneTwice(states[n].rows)
  {
    if n > 0 {
      RetriedHaltHasOneRow(states, events, n - 1);
      assert Linked(states[n - 1], events[n - 1], states[n - 1 + 1]);
      RowsStep(states[n - 1], events[n - 1]);
    }
  }

  /** A write that does not see one adds a row, whatever the newest is. */
  lemma UnseenWriteAddsRow(s: State, i: nat)
    requires Enabled(s, RecordLands(i, false))
    ensures Step(s, RecordLands(i, false)).rows == s.rows + [s.tasks[i].h.block]
  {
  }
}
