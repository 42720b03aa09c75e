/** Stake rows through forward blocks and a rollback: amounts cut by slashes, signing keys rewritten by
    rotations and deactivation stamps written by unstakes, all in place on rows of earlier blocks.
 */
module StakeRows {

  import opened Hashing
  import opened StakeJournal

  /** Contract staking joins its cooldown rows by owner (source, contract and tick), capability staking by
      signing key. */
  datatype Family = Contract | Capability

  datatype Row = Row(block: nat, owner: nat, key: nat, amount: nat, deactivation: Option<nat>)

  /** The stake and unstake tables of one family with their journals. */
  datatype Tables = Tables(rows: map<RowId, Row>, slashes: seq<Entry>, rotations: seq<Entry>)

  datatype Event =
    | Stake(action: nat, owner: nat, key: nat, amount: nat)
    /** Inserts a cooldown row and stamps rows whose stamp is NULL. */
    | Unstake(action: nat, owner: nat, key: nat, amount: nat, stamped: set<RowId>)
    | Slash(row: RowId, amount: nat, major: nat, minor: nat)
    | Rotate(row: RowId, key: nat, delegation: nat)

  function SlashKind(family: Family): Kind {
    if family.Contract? then ContractSlash else CapabilitySlash
  }

  function JoinKey(family: Family, row: Row): nat {
    if family.Contract? then row.owner else row.key
  }

  // ---------------------------------------------------------------------------
  // Forward writers
  // ---------------------------------------------------------------------------

  /** Each later rewrite of a row is strictly after the earlier ones in the journal's own order. */
  ghost predicate Follows(journal: seq<Entry>, id: RowId, block: nat, major: nat) {
    forall i :: 0 <= i < |journal| && journal[i].row == id ==>
      journal[i].block < block || (journal[i].block == block && journal[i].major < major)
  }

  ghost predicate Allowed(family: Family, t: Tables, block: nat, e: Event) {
    match e
    case Stake(action, _, _, _) => RowId(Stakes, action) !in t.rows
    case Unstake(action, owner, key, _, stamped) =>
      && RowId(Unstakes, action) !in t.rows
      && forall id <- stamped ::
           && id in t.rows && id.table == Stakes && t.rows[id].deactivation == None
           && JoinKey(family, t.rows[id]) == (if family.Contract? then owner else key)
    case Slash(id, amount, major, _) =>
      && id in t.rows && amount < t.rows[id].amount
      && (family.Capability? ==> Follows(t.slashes, id, block, major))
    case Rotate(id, _, delegation) => family.Contract? && id in t.rows && Follows(t.rotations, id, block, delegation)
  }

  ghost function Step(family: Family, delay: nat, t: Tables, block: nat, e: Event): Tables
    requires Allowed(family, t, block, e)
  {
    match e
    case Stake(action, owner, key, amount) =>
      t.(rows := t.rows[RowId(Stakes, action) := Row(block, owner, key, amount, None)])
    case Unstake(action, owner, key, amount, stamped) =>
      t.(rows := Stamp(t.rows, stamped, block + delay)[RowId(Unstakes, action) := Row(block, owner, key, amount, None)])
    case Slash(id, amount, major, minor) =>
      var row := t.rows[id];
      t.(rows := t.rows[id := row.(amount := amount)],
         slashes := t.slashes + [Entry(id, block, major, minor, row.amount)])
    case Rotate(id, key, delegation) =>
      var row := t.rows[id];
      t.(rows := t.rows[id := row.(key := key)], rotations := t.rotations + [Entry(id, block, delegation, 0, row.key)])
  }

  ghost function Stamp(rows: map<RowId, Row>, stamped: set<RowId>, stamp: nat): map<RowId, Row> {
    map id | id in rows :: if id in stamped then rows[id].(deactivation := Some(stamp)) else rows[id]
  }

  // ---------------------------------------------------------------------------
  // Rollback
  // ---------------------------------------------------------------------------

  /** Some orphaned unstake joins the row and wrote exactly its stamp. */
  predicate StampedByOrphan(family: Family, rows: map<RowId, Row>, height: nat, delay: nat, row: Row) {
    row.deactivation.Some? &&
    exists u :: u in rows && u.table == Unstakes && rows[u].block >= height
                && JoinKey(family, rows[u]) == JoinKey(family, row)
                && row.deactivation.value == rows[u].block + delay
  }

  /** The restores and the stamp reset on one row. */
  function Undo(family: Family, t: Tables, height: nat, delay: nat, id: RowId): Row
    requires id in t.rows
  {
    var row := t.rows[id];
    Row(row.block, row.owner,
        if family.Contract? then Restored(KeyRotation, t.rotations, height, id, |t.rotations|, row.key) else row.key,
        Restored(SlashKind(family), t.slashes, height, id, |t.slashes|, row.amount),
        if id.table == Stakes && StampedByOrphan(family, t.rows, height, delay, row) then None else row.deactivation)
  }

  ghost function RolledBack(family: Family, t: Tables, height: nat, delay: nat): Tables {
    Tables(map id | id in t.rows && t.rows[id].block < height :: Undo(family, t, height, delay, id),
           Surviving(t.slashes, height), Surviving(t.rotations, height))
  }

  // ---------------------------------------------------------------------------
  // What every forward step keeps
  // ---------------------------------------------------------------------------

  ghost predicate JournalOk(t: Tables, journal: seq<Entry>, height: nat) {
    forall i :: 0 <= i < |journal| ==>
      journal[i].row in t.rows && t.rows[journal[i].row].block <= journal[i].block < height
  }

  ghost predicate Ordered(journal: seq<Entry>) {
    forall i, k :: 0 <= i < k < |journal| && journal[i].row == journal[k].row ==>
      || journal[i].block < journal[k].block
      || (journal[i].block == journal[k].block && journal[i].major < journal[k].major)
  }

  ghost predicate Decreasing(t: Tables) {
    && (forall i, k :: 0 <= i < k < |t.slashes| && t.slashes[i].row == t.slashes[k].row ==>
          t.slashes[i].prev > t.slashes[k].prev)
    && (forall i :: 0 <= i < |t.slashes| && t.slashes[i].row in t.rows ==>
          t.slashes[i].prev > t.rows[t.slashes[i].row].amount)
  }

  /** Every stamp was written by an unstake whose cooldown row carries the join key. */
  ghost predicate StampsOk(family: Family, delay: nat, t: Tables) {
    forall id <- t.rows :: t.rows[id].deactivation.Some? ==>
      id.table == Stakes && HasStamper(family, delay, t.rows, t.rows[id])
  }

  ghost predicate HasStamper(family: Family, delay: nat, rows: map<RowId, Row>, row: Row)
    requires row.deactivation.Some?
  {
    exists u :: u in rows && u.table == Unstakes && row.block <= rows[u].block
                && JoinKey(family, rows[u]) == JoinKey(family, row)
                && row.deactivation.value == rows[u].block + delay
  }

  /** Tables reached by blocks below `height` only. */
  ghost predicate Inv(family: Family, delay: nat, t: Tables, height: nat) {
    && (forall id <- t.rows :: t.rows[id].block < height)
    && JournalOk(t, t.slashes, height) && JournalOk(t, t.rotations, height)
    && Decreasing(t) && (family.Capability? ==> Ordered(t.slashes) && t.rotations == [])
    && Ordered(t.rotations)
    && StampsOk(family, delay, t)
  }

  lemma InvWeakens(family: Family, delay: nat, t: Tables, low: nat, high: nat)
    requires Inv(family, delay, t, low) && low <= high
    ensures Inv(family, delay, t, high)
  {
  }

  /** The stampers of rows stay joinable in rows2. */
  ghost predicate SameJoins(family: Family, rows: map<RowId, Row>, rows2: map<RowId, Row>) {
    forall u :: u in rows ==>
      u in rows2 && rows2[u].block == rows[u].block && JoinKey(family, rows2[u]) == JoinKey(family, rows[u])
  }

  lemma StamperStays(family: Family, delay: nat, rows: map<RowId, Row>, rows2: map<RowId, Row>, row: Row, row2: Row)
    requires row.deactivation.Some? && HasStamper(family, delay, rows, row) && SameJoins(family, rows, rows2)
    requires row2.block == row.block && row2.deactivation == row.deactivation
    requires JoinKey(family, row2) == JoinKey(family, row)
    ensures HasStamper(family, delay, rows2, row2)
  {
    var u :| u in rows && u.table == Unstakes && row.block <= rows[u].block
             && JoinKey(family, rows[u]) == JoinKey(family, row) && row.deactivation.value == rows[u].block + delay;
    assert u in rows2;
  }

  lemma StampsStay(family: Family, delay: nat, t: Tables, s: Tables)
    requires StampsOk(family, delay, t) && SameJoins(family, t.rows, s.rows)
    requires forall id <- s.rows ::
             s.rows[id].deactivation.Some? ==> id in t.rows && s.rows[id].deactivation == t.rows[id].deactivation
    ensures StampsOk(family, delay, s)
  {
    forall id | id in s.rows && s.rows[id].deactivation.Some?
      ensures HasStamper(family, delay, s.rows, s.rows[id])
    {
      StamperStays(family, delay, t.rows, s.rows, t.rows[id], s.rows[id]);
    }
  }

  lemma StakeKeeps(family: Family, delay: nat, t: Tables, block: nat, e: Event)
    requires Inv(family, delay, t, block + 1) && Allowed(family, t, block, e) && e.Stake?
    ensures Inv(family, delay, Step(family, delay, t, block, e), block + 1)
  {
    StampsStay(family, delay, t, Step(family, delay, t, block, e));
  }

  lemma UnstakeStamps(family: Family, delay: nat, t: Tables, block: nat, e: Event)
    requires Inv(family, delay, t, block + 1) && Allowed(family, t, block, e) && e.Unstake?
    ensures StampsOk(family, delay, Step(family, delay, t, block, e))
  {
    var s := Step(family, delay, t, block, e);
    var u := RowId(Unstakes, e.action);
    assert SameJoins(family, t.rows, s.rows);
    forall id | id in s.rows && s.rows[id].deactivation.Some?
      ensures id.table == Stakes && HasStamper(family, delay, s.rows, s.rows[id])
    {
      if id in e.stamped {
        assert u in s.rows && JoinKey(family, s.rows[u]) == JoinKey(family, s.rows[id]);
      } else {
        StamperStays(family, delay, t.rows, s.rows, t.rows[id], s.rows[id]);
      }
    }
  }

  lemma UnstakeKeeps(family: Family, delay: nat, t: Tables, block: nat, e: Event)
    requires Inv(family, delay, t, block + 1) && Allowed(family, t, block, e) && e.Unstake?
    ensures Inv(family, delay, Step(family, delay, t, block, e), block + 1)
  {
    UnstakeStamps(family, delay, t, block, e);
  }

  lemma SlashKeeps(family: Family, delay: nat, t: Tables, block: nat, e: Event)
    requires Inv(family, delay, t, block + 1) && Allowed(family, t, block, e) && e.Slash?
    ensures Inv(family, delay, Step(family, delay, t, block, e), block + 1)
  {
    StampsStay(family, delay, t, Step(family, delay, t, block, e));
  }

  lemma RotateKeeps(family: Family, delay: nat, t: Tables, block: nat, e: Event)
    requires Inv(family, delay, t, block + 1) && Allowed(family, t, block, e) && e.Rotate?
    ensures Inv(family, delay, Step(family, delay, t, block, e), block + 1)
  {
    StampsStay(family, delay, t, Step(family, delay, t, block, e));
  }

  lemma StepKeeps(family: Family, delay: nat, t: Tables, block: nat, e: Event)
    requires Inv(family, delay, t, block + 1) && Allowed(family, t, block, e)
    ensures Inv(family, delay, Step(family, delay, t, block, e), block + 1)
  {
    match e
    case Stake(_, _, _, _) => StakeKeeps(family, delay, t, block, e);
    case Unstake(_, _, _, _, _) => UnstakeKeeps(family, delay, t, block, e);
    case Slash(_, _, _, _) => SlashKeeps(family, delay, t, block, e);
    case Rotate(_, _, _) => RotateKeeps(family, delay, t, block, e);
  }

  // ---------------------------------------------------------------------------
  // What the rollback means for one row
  // ---------------------------------------------------------------------------

  function Below(stamp: Option<nat>, threshold: nat): Option<nat> {
    if stamp.Some? && stamp.value >= threshold then None else stamp
  }

  /** The row as the blocks below the height left it, read off the order in which the rewrites happened. */
  ghost function Before(t: Tables, height: nat, delay: nat, id: RowId): Row
    requires id in t.rows
  {
    var row := t.rows[id];
    Row(row.block, row.owner, BeforeOrphans(t.rotations, height, id, row.key),
        BeforeOrphans(t.slashes, height, id, row.amount), Below(row.deactivation, height + delay))
  }

  /** The exact-stamp join clears precisely the stamps at or above height + delay. */
  lemma StampJoinIsThreshold(family: Family, delay: nat, t: Tables, top: nat, height: nat, id: RowId)
    requires Inv(family, delay, t, top) && id in t.rows && t.rows[id].deactivation.Some?
    ensures StampedByOrphan(family, t.rows, height, delay, t.rows[id]) <==>
            t.rows[id].deactivation.value >= height + delay
  {
    assert HasStamper(family, delay, t.rows, t.rows[id]);
  }

  lemma OrderedIsChained(kind: Kind, journal: seq<Entry>)
    requires Ordered(journal) && !kind.ContractSlash?
    ensures Chained(kind, journal)
  {
  }

  lemma UndoIsBefore(family: Family, delay: nat, t: Tables, top: nat, height: nat, id: RowId)
    requires Inv(family, delay, t, top) && id in t.rows
    ensures Undo(family, t, height, delay, id) == Before(t, height, delay, id)
  {
    var row := t.rows[id];
    if family.Contract? {
      DecreasingIsChained(t.slashes);
      OrderedIsChained(KeyRotation, t.rotations);
      RestoredIsBeforeOrphans(KeyRotation, t.rotations, height, id, row.key);
    } else {
      OrderedIsChained(CapabilitySlash, t.slashes);
    }
    RestoredIsBeforeOrphans(SlashKind(family), t.slashes, height, id, row.amount);
    if row.deactivation.Some? {
      StampJoinIsThreshold(family, delay, t, top, height, id);
    }
  }

  ghost function BeforeTables(t: Tables, height: nat, delay: nat): Tables {
    Tables(map id | id in t.rows && t.rows[id].block < height :: Before(t, height, delay, id),
           Surviving(t.slashes, height), Surviving(t.rotations, height))
  }

  /** The rollback statements, which see no order of events, restore the tables to the order's own reading. */
  lemma RolledBackIsBefore(family: Family, delay: nat, t: Tables, top: nat, height: nat)
    requires Inv(family, delay, t, top)
    ensures RolledBack(family, t, height, delay) == BeforeTables(t, height, delay)
  {
    var a, b := RolledBack(family, t, height, delay).rows, BeforeTables(t, height, delay).rows;
    assert a.Keys == b.Keys;
    forall id | id in a
      ensures a[id] == b[id]
    {
      UndoIsBefore(family, delay, t, top, height, id);
    }
  }

  lemma SlashAbsorbed(family: Family, delay: nat, t: Tables, block: nat, e: Event, height: nat, id: RowId)
    requires Inv(family, delay, t, block + 1) && Allowed(family, t, block, e) && e.Slash? && height <= block
             && id in t.rows
    ensures var s := Step(family, delay, t, block, e);
            && Before(s, height, delay, id) == Before(t, height, delay, id)
            && Surviving(s.slashes, height) == Surviving(t.slashes, height)
  {
    var s := Step(family, delay, t, block, e);
    OrphanAbsorbed(t.slashes, s.slashes[|t.slashes|], height, id, t.rows[id].amount, s.rows[id].amount);
  }

  lemma RotateAbsorbed(family: Family, delay: nat, t: Tables, block: nat, e: Event, height: nat, id: RowId)
    requires Inv(family, delay, t, block + 1) && Allowed(family, t, block, e) && e.Rotate? && height <= block
             && id in t.rows
    ensures var s := Step(family, delay, t, block, e);
            && Before(s, height, delay, id) == Before(t, height, delay, id)
            && Surviving(s.rotations, height) == Surviving(t.rotations, height)
  {
    var s := Step(family, delay, t, block, e);
    OrphanAbsorbed(t.rotations, s.rotations[|t.rotations|], height, id, t.rows[id].key, s.rows[id].key);
  }

  /** Tables that agree on every surviving row and journal entry have the same past. */
  lemma SamePast(t: Tables, s: Tables, height: nat, delay: nat)
    requires forall id :: (id in s.rows && s.rows[id].block < height) <==> (id in t.rows && t.rows[id].block < height)
    requires forall id :: id in s.rows && id in t.rows ==> Before(s, height, delay, id) == Before(t, height, delay, id)
    requires Surviving(s.slashes, height) == Surviving(t.slashes, height)
    requires Surviving(s.rotations, height) == Surviving(t.rotations, height)
    ensures BeforeTables(s, height, delay) == BeforeTables(t, height, delay)
  {
    var a, b := BeforeTables(s, height, delay).rows, BeforeTables(t, height, delay).rows;
    assert a.Keys == b.Keys;
    forall id | id in a
      ensures a[id] == b[id]
    {
      assert a[id] == Before(s, height, delay, id) && b[id] == Before(t, height, delay, id);
    }
  }

  lemma SlashLeavesNoTrace(family: Family, delay: nat, t: Tables, block: nat, e: Event, height: nat)
    requires Inv(family, delay, t, block + 1) && Allowed(family, t, block, e) && e.Slash? && height <= block
    ensures BeforeTables(Step(family, delay, t, block, e), height, delay) == BeforeTables(t, height, delay)
  {
    var s := Step(family, delay, t, block, e);
    forall id | id in s.rows && id in t.rows
      ensures Before(s, height, delay, id) == Before(t, height, delay, id)
    {
      SlashAbsorbed(family, delay, t, block, e, height, id);
    }
    SlashAbsorbed(family, delay, t, block, e, height, e.row);
    SamePast(t, s, height, delay);
  }

  lemma RotateLeavesNoTrace(family: Family, delay: nat, t: Tables, block: nat, e: Event, height: nat)
    requires Inv(family, delay, t, block + 1) && Allowed(family, t, block, e) && e.Rotate? && height <= block
    ensures BeforeTables(Step(family, delay, t, block, e), height, delay) == BeforeTables(t, height, delay)
  {
    var s := Step(family, delay, t, block, e);
    forall id | id in s.rows && id in t.rows
      ensures Before(s, height, delay, id) == Before(t, height, delay, id)
    {
      RotateAbsorbed(family, delay, t, block, e, height, id);
    }
    RotateAbsorbed(family, delay, t, block, e, height, e.row);
    SamePast(t, s, height, delay);
  }

  lemma InsertLeavesNoTrace(family: Family, delay: nat, t: Tables, block: nat, e: Event, height: nat)
    requires Allowed(family, t, block, e) && (e.Stake? || e.Unstake?) && height <= block
    ensures BeforeTables(Step(family, delay, t, block, e), height, delay) == BeforeTables(t, height, delay)
  {
  }

  /** A step of an orphaned block leaves no trace in the rolled-back tables. */
  lemma OrphanedStep(family: Family, delay: nat, t: Tables, block: nat, e: Event, height: nat)
    requires Inv(family, delay, t, block + 1) && Allowed(family, t, block, e) && height <= block
    ensures RolledBack(family, Step(family, delay, t, block, e), height, delay) == RolledBack(family, t, height, delay)
  {
    StepKeeps(family, delay, t, block, e);
    RolledBackIsBefore(family, delay, t, block + 1, height);
    RolledBackIsBefore(family, delay, Step(family, delay, t, block, e), block + 1, height);
    if e.Slash? {
      SlashLeavesNoTrace(family, delay, t, block, e, height);
    } else if e.Rotate? {
      RotateLeavesNoTrace(family, delay, t, block, e, height);
    } else {
      InsertLeavesNoTrace(family, delay, t, block, e, height);
    }
  }

  lemma UntouchedRow(family: Family, delay: nat, t: Tables, height: nat, id: RowId)
    requires Inv(family, delay, t, height) && id in t.rows
    ensures Before(t, height, delay, id) == t.rows[id]
  {
    AllSurvive(t.slashes, height);
    AllSurvive(t.rotations, height);
    if t.rows[id].deactivation.Some? {
      assert HasStamper(family, delay, t.rows, t.rows[id]);
    }
  }

  /** Rolling back to a height no block has reached changes nothing. */
  lemma NothingOrphaned(family: Family, delay: nat, t: Tables, height: nat)
    requires Inv(family, delay, t, height)
    ensures RolledBack(family, t, height, delay) == t
  {
    RolledBackIsBefore(family, delay, t, height, height);
    AllSurvive(t.slashes, height);
    AllSurvive(t.rotations, height);
    var b := BeforeTables(t, height, delay).rows;
    assert b.Keys == t.rows.Keys;
    forall id | id in b
      ensures b[id] == t.rows[id]
    {
      UntouchedRow(family, delay, t, height, id);
    }
  }

  // ---------------------------------------------------------------------------
  // The statements
  // ---------------------------------------------------------------------------

  /** Copy the selected pre-image back into `amount`, for the rows of one table. */
  method RestoreAmounts(family: Family, t: Tables, table: Target, height: nat) returns (u: Tables)
    ensures u == t.(rows := u.rows) && u.rows.Keys == t.rows.Keys
    ensures forall id <- t.rows :: u.rows[id] ==
              if id.table == table
              then t.rows[id].(amount := Restored(SlashKind(family), t.slashes, height, id, |t.slashes|,
                                                  t.rows[id].amount))
              else t.rows[id]
  {
    var rows, kind := t.rows, SlashKind(family);
    for n := 0 to |t.slashes|
      invariant rows.Keys == t.rows.Keys
      invariant forall id <- t.rows :: rows[id] ==
                  if id.table == table
                  then t.rows[id].(amount := Restored(kind, t.slashes, height, id, n, t.rows[id].amount))
                  else t.rows[id]
    {
      var d := t.slashes[n];
      if d.row.table == table && d.row in rows && Selected(kind, t.slashes, height, d.row, n) {
        rows := rows[d.row := rows[d.row].(amount := d.prev)];
      }
    }
    u := t.(rows := rows);
  }

  /** Copy the selected pre-image back into `signing_pubkey_id`, for the rows of one table. */
  method RestoreKeys(t: Tables, table: Target, height: nat) returns (u: Tables)
    ensures u == t.(rows := u.rows) && u.rows.Keys == t.rows.Keys
    ensures forall id <- t.rows :: u.rows[id] ==
              if id.table == table
              then t.rows[id].(key := Restored(KeyRotation, t.rotations, height, id, |t.rotations|, t.rows[id].key))
              else t.rows[id]
  {
    var rows := t.rows;
    for n := 0 to |t.rotations|
      invariant rows.Keys == t.rows.Keys
      invariant forall id <- t.rows :: rows[id] ==
                  if id.table == table
                  then t.rows[id].(key := Restored(KeyRotation, t.rotations, height, id, n, t.rows[id].key))
                  else t.rows[id]
    {
      var r := t.rotations[n];
      if r.row.table == table && r.row in rows && Selected(KeyRotation, t.rotations, height, r.row, n) {
        rows := rows[r.row := rows[r.row].(key := r.prev)];
      }
    }
    u := t.(rows := rows);
  }

  function ClearedRow(family: Family, rows: map<RowId, Row>, height: nat, delay: nat, id: RowId): Row
    requires id in rows
  {
    if id.table == Stakes && StampedByOrphan(family, rows, height, delay, rows[id])
    then rows[id].(deactivation := None)
    else rows[id]
  }

  /** `DELETE ... WHERE action_index >= first`, skipped when the orphaned range holds no action. */
  predicate Dropped(first: Option<nat>, action: nat) {
    first.Some? && action >= first.value
  }

  /** The first orphaned action index separates the rows of orphaned blocks from the others. */
  ghost predicate Splits(first: Option<nat>, height: nat, rows: map<RowId, Row>) {
    forall id <- rows :: Dropped(first, id.action) <==> rows[id].block >= height
  }

  lemma SameJoinsSameStamps(family: Family, rows: map<RowId, Row>, rows2: map<RowId, Row>, height: nat, delay: nat,
                            row: Row, row2: Row)
    requires SameJoins(family, rows, rows2) && SameJoins(family, rows2, rows)
    requires JoinKey(family, row) == JoinKey(family, row2) && row.deactivation == row2.deactivation
    ensures StampedByOrphan(family, rows, height, delay, row) <==> StampedByOrphan(family, rows2, height, delay, row2)
  {
  }

  /** Both columns of one row restored, its stamp not yet touched. */
  ghost function RestoredRow(family: Family, t: Tables, height: nat, id: RowId): Row
    requires id in t.rows
  {
    var row := t.rows[id];
    Row(row.block, row.owner,
        if family.Contract? then Restored(KeyRotation, t.rotations, height, id, |t.rotations|, row.key) else row.key,
        Restored(SlashKind(family), t.slashes, height, id, |t.slashes|, row.amount), row.deactivation)
  }

  method RestoreJournals(family: Family, t: Tables, height: nat) returns (u: Tables)
    ensures u == t.(rows := u.rows) && u.rows.Keys == t.rows.Keys
    ensures forall id <- t.rows :: u.rows[id] == RestoredRow(family, t, height, id)
  {
    u := RestoreAmounts(family, t, Stakes, height);
    u := RestoreAmounts(family, u, Unstakes, height);
    if family.Contract? {
      u := RestoreKeys(u, Stakes, height);
      u := RestoreKeys(u, Unstakes, height);
    }
  }

  /** Clearing the stamps after the restores clears the ones the tables before them would. */
  lemma ClearAfterRestore(family: Family, t: Tables, k: Tables, height: nat, delay: nat, id: RowId)
    requires k.rows.Keys == t.rows.Keys && id in t.rows
    requires forall x <- t.rows :: k.rows[x] == RestoredRow(family, t, height, x)
    ensures ClearedRow(family, k.rows, height, delay, id) == Undo(family, t, height, delay, id)
  {
    assert SameJoins(family, t.rows, k.rows) && SameJoins(family, k.rows, t.rows);
    SameJoinsSameStamps(family, t.rows, k.rows, height, delay, t.rows[id], k.rows[id]);
  }

  /** All statements of one family, in order: amounts, keys, stamps, then the deletes. */
  method RollbackTables(family: Family, t: Tables, height: nat, delay: nat, first: Option<nat>) returns (u: Tables)
    requires Splits(first, height, t.rows)
    ensures u == RolledBack(family, t, height, delay)
  {
    var k := RestoreJournals(family, t, height);
    var cleared := map id | id in k.rows :: ClearedRow(family, k.rows, height, delay, id);
    var kept := map id | id in cleared && !Dropped(first, id.action) :: cleared[id];
    u := Tables(kept, Surviving(t.slashes, height), Surviving(t.rotations, height));
    ghost var spec := RolledBack(family, t, height, delay).rows;
    assert kept.Keys == spec.Keys;
    forall id | id in kept
      ensures kept[id] == spec[id]
    {
      ClearAfterRestore(family, t, k, height, delay, id);
    }
  }
}
