/** What the blocks of a run leave in the replica's tables: every row inserted is there, and each column holds what
    the last block to write it wrote. With `ReplicaMatchesFreshSync` the same holds of the standing blocks after any
    history of blocks and rollbacks.
 */
module ReplicaWrites {

  import opened Hashing
  import opened StakeJournal
  import Stake = StakeRows
  import opened InPlaceFlips
  import opened ReplicaRollback

  ghost function TablesOf(l: Ledger, family: Stake.Family): Stake.Tables {
    if family.Contract? then l.contract else l.capability
  }

  /** The event is this write of the family's tables. */
  ghost predicate Writes(ev: Event, family: Stake.Family, e: Stake.Event) {
    ev.body == if family.Contract? then ContractStake(e) else CapabilityStake(e)
  }

  /** The row this event inserts. */
  ghost predicate Inserts(e: Stake.Event, id: RowId) {
    (e.Stake? && id == RowId(Stakes, e.action)) || (e.Unstake? && id == RowId(Unstakes, e.action))
  }

  ghost predicate SetsAmount(e: Stake.Event, id: RowId, amount: nat) {
    (Inserts(e, id) && e.amount == amount) || (e.Slash? && e.row == id && e.amount == amount)
  }

  ghost predicate SetsKey(e: Stake.Event, id: RowId, key: nat) {
    (Inserts(e, id) && e.key == key) || (e.Rotate? && e.row == id && e.key == key)
  }

  ghost predicate SetsStamp(e: Stake.Event, id: RowId, stamp: Option<nat>, block: nat, delay: nat) {
    || (Inserts(e, id) && stamp == None)
    || (e.Unstake? && id in e.stamped && stamp == Some(block + delay))
  }

  datatype Column = Amount(amount: nat) | SigningKey(key: nat) | Stamp(stamp: Option<nat>)

  ghost predicate SetsColumn(e: Stake.Event, id: RowId, column: Column, block: nat, delay: nat) {
    match column
    case Amount(amount) => SetsAmount(e, id, amount)
    case SigningKey(key) => SetsKey(e, id, key)
    case Stamp(stamp) => SetsStamp(e, id, stamp, block, delay)
  }

  ghost predicate Shows(t: Stake.Tables, id: RowId, column: Column) {
    && id in t.rows
    && match column
       case Amount(amount) => t.rows[id].amount == amount
       case SigningKey(key) => t.rows[id].key == key
       case Stamp(stamp) => t.rows[id].deactivation == stamp
  }

  /** The event writes the column, with this value or another. */
  ghost predicate Touches(ev: Event, family: Stake.Family, id: RowId, column: Column, delay: nat) {
    match column
    case Amount(_) => exists e, x :: Writes(ev, family, e) && SetsAmount(e, id, x)
    case SigningKey(_) => exists e, x :: Writes(ev, family, e) && SetsKey(e, id, x)
    case Stamp(_) => exists e, x :: Writes(ev, family, e) && SetsStamp(e, id, x, ev.block, delay)
  }

  lemma ColumnIsSet(l: Ledger, delay: nat, ev: Event, family: Stake.Family, e: Stake.Event, id: RowId, column: Column)
    requires Allowed(l, delay, ev) && Writes(ev, family, e) && SetsColumn(e, id, column, ev.block, delay)
    ensures Shows(TablesOf(Step(l, delay, ev), family), id, column)
  {
  }

  lemma TablesStep(l: Ledger, delay: nat, ev: Event, family: Stake.Family, e: Stake.Event)
    requires Allowed(l, delay, ev) && Writes(ev, family, e)
    ensures Stake.Allowed(family, TablesOf(l, family), ev.block, e)
    ensures TablesOf(Step(l, delay, ev), family) == Stake.Step(family, delay, TablesOf(l, family), ev.block, e)
  {
  }

  lemma ColumnIsKept(family: Stake.Family, delay: nat, t: Stake.Tables, block: nat, e: Stake.Event, id: RowId,
                     column: Column)
    requires Stake.Allowed(family, t, block, e) && Shows(t, id, column)
    requires match column
             case Amount(_) => forall x :: !SetsAmount(e, id, x)
             case SigningKey(_) => forall x :: !SetsKey(e, id, x)
             case Stamp(_) => forall x :: !SetsStamp(e, id, x, block, delay)
    ensures Shows(Stake.Step(family, delay, t, block, e), id, column)
  {
    assert e.Slash? && e.row == id ==> SetsAmount(e, id, e.amount);
    assert e.Rotate? && e.row == id ==> SetsKey(e, id, e.key);
    assert e.Unstake? && id in e.stamped ==> SetsStamp(e, id, Some(block + delay), block, delay);
  }

  lemma ColumnSurvives(l: Ledger, delay: nat, ev: Event, family: Stake.Family, id: RowId, column: Column)
    requires Allowed(l, delay, ev) && Shows(TablesOf(l, family), id, column) && !Touches(ev, family, id, column, delay)
    ensures Shows(TablesOf(Step(l, delay, ev), family), id, column)
  {
    if e :| Writes(ev, family, e) {
      TablesStep(l, delay, ev, family, e);
      ColumnIsKept(family, delay, TablesOf(l, family), ev.block, e, id, column);
    } else {
      assert ev.body.ContractStake? ==> !family.Contract? || Writes(ev, family, ev.body.e);
      assert ev.body.CapabilityStake? ==> family.Contract? || Writes(ev, family, ev.body.e);
      assert TablesOf(Step(l, delay, ev), family) == TablesOf(l, family);
    }
  }

  /** In every run an amount, signing key or deactivation stamp is what the last event to write it wrote. */
  lemma {:induction false} LastWriteStands(events: seq<Event>, delay: nat, i: nat, family: Stake.Family,
                                           e: Stake.Event, id: RowId, column: Column)
    requires Valid(events, delay) && i < |events|
    requires Writes(events[i], family, e) && SetsColumn(e, id, column, events[i].block, delay)
    requires forall k :: i < k < |events| ==> !Touches(events[k], family, id, column, delay)
    ensures Shows(TablesOf(Run(events, delay), family), id, column)
  {
    var n := |events| - 1;
    if i == n {
      ColumnIsSet(Run(events[..n], delay), delay, events[n], family, e, id, column);
    } else {
      LastWriteStands(events[..n], delay, i, family, e, id, column);
      ColumnSurvives(Run(events[..n], delay), delay, events[n], family, id, column);
    }
  }

  // ---------------------------------------------------------------------------
  // Flips
  // ---------------------------------------------------------------------------

  /** The row carries what the flip wrote. */
  ghost predicate Carries(r: FlipRow, f: Flip, block: nat, delay: nat) {
    match f
    case Revoke => r.Delegation? && r.deactivation == Some(block + delay)
    case ResolveAttest(status) => r.Attest? && r.attestStatus == status && r.resolved == Some(block)
    case ResolveXcall(status, result, payload, callback) =>
      && r.Xcall? && r.xcallStatus == status && r.result == result && r.payload == payload
      && r.resolved == Some(block) && r.callback == callback
    case Finalize(status, outcome, finalizer, due, _) =>
      && r.Poll? && r.pollStatus == status && r.outcome == Some(outcome) && r.finalizedBy == Some(finalizer)
      && r.resolved == Some(block) && r.due == due
    case Fire(execution) => r.Poll? && r.fired == Some(execution)
    case Latch => r.Feed? && r.closed == Some(block) && r.feedStatus != FeedOpen
    case Terminate(kind) => r.Feed? && r.feedStatus == FeedTerminal(kind) && r.terminal == Some(block)
    case Settle(kind) => r.Bet? && r.betStatus == BetSettled(kind) && r.settled == Some(block)
  }

  lemma FlipCarries(r: FlipRow, f: Flip, block: nat, delay: nat)
    requires CanFlip(r, f, block)
    ensures Carries(Flipped(r, f, block, delay), f, block, delay)
    ensures Flipped(r, f, block, delay).block == r.block
  {
  }

  lemma LaterFlipKeeps(r: FlipRow, f: Flip, block: nat, delay: nat, g: Flip, later: nat, height: nat)
    requires Carries(r, f, block, delay) && CanFlip(r, g, later) && RowOk(r, height, delay)
    ensures Carries(Flipped(r, g, later, delay), f, block, delay)
  {
  }

  lemma FlipSurvives(l: Ledger, delay: nat, ev: Event, id: FlipId, f: Flip, block: nat)
    requires Inv(l, delay, ev.block + 1) && Allowed(l, delay, ev)
    requires id in l.flips && Carries(l.flips[id], f, block, delay)
    ensures var s := Step(l, delay, ev); id in s.flips && Carries(s.flips[id], f, block, delay)
  {
    if ev.body.FlipOne? && ev.body.id == id {
      LaterFlipKeeps(l.flips[id], f, block, delay, ev.body.flip, ev.block, ev.block + 1);
    }
  }

  lemma FlipIsWritten(l: Ledger, delay: nat, ev: Event)
    requires Allowed(l, delay, ev) && ev.body.FlipOne?
    ensures var s := Step(l, delay, ev);
            ev.body.id in s.flips && Carries(s.flips[ev.body.id], ev.body.flip, ev.block, delay)
  {
    FlipCarries(l.flips[ev.body.id], ev.body.flip, ev.block, delay);
  }

  lemma FlipSurvivesReached(l: Ledger, delay: nat, ev: Event, id: FlipId, f: Flip, block: nat)
    requires Reached(l, delay, ev.block + 1) && Allowed(l, delay, ev)
    requires id in l.flips && Carries(l.flips[id], f, block, delay)
    ensures var s := Step(l, delay, ev); id in s.flips && Carries(s.flips[id], f, block, delay)
  {
    var high: nat :| high <= ev.block + 1 && Inv(l, delay, high);
    InvWeakens(l, delay, high, ev.block + 1);
    FlipSurvives(l, delay, ev, id, f, block);
  }

  /** In every run each flip is in its row to the end: later ones write other columns only. */
  lemma {:induction false} FlipsStand(events: seq<Event>, delay: nat, i: nat)
    requires Valid(events, delay) && i < |events| && events[i].body.FlipOne?
    ensures var l, ev := Run(events, delay), events[i];
            ev.body.id in l.flips && Carries(l.flips[ev.body.id], ev.body.flip, ev.block, delay)
  {
    var n := |events| - 1;
    if i == n {
      FlipIsWritten(Run(events[..n], delay), delay, events[n]);
    } else {
      FlipsStand(events[..n], delay, i);
      RunKeeps(events[..n], delay);
      FlipSurvivesReached(Run(events[..n], delay), delay, events[n], events[i].body.id, events[i].body.flip,
                          events[i].block);
    }
  }

  /** In every run each inserted row of a flipped table is there to the end, under its block, and so is each minted
      action. */
  lemma {:induction false} InsertsStand(events: seq<Event>, delay: nat, i: nat)
    requires Valid(events, delay) && i < |events|
    ensures var l, ev := Run(events, delay), events[i];
            && (ev.minted.Some? ==> ev.minted.value in l.actions)
            && (ev.body.Insert? ==> ev.body.id in l.flips && l.flips[ev.body.id].block == ev.block)
  {
    var n := |events| - 1;
    if i < n {
      InsertsStand(events[..n], delay, i);
      RowsRemain(Run(events[..n], delay), delay, events[n]);
    }
  }

  lemma RowsRemain(l: Ledger, delay: nat, ev: Event)
    requires Allowed(l, delay, ev)
    ensures var s := Step(l, delay, ev);
            && l.actions.Keys <= s.actions.Keys && l.flips.Keys <= s.flips.Keys
            && forall id <- l.flips :: s.flips[id].block == l.flips[id].block
  {
    if ev.body.FlipOne? {
      FlipCarries(l.flips[ev.body.id], ev.body.flip, ev.block, delay);
    }
  }

  /** An inserted row not flipped since is as it was inserted. */
  lemma {:induction false} UnflippedRowStands(events: seq<Event>, delay: nat, i: nat)
    requires Valid(events, delay) && i < |events| && events[i].body.Insert?
    requires forall k :: i < k < |events| && events[k].body.FlipOne? ==> events[k].body.id != events[i].body.id
    ensures var l, ev := Run(events, delay), events[i];
            ev.body.id in l.flips && l.flips[ev.body.id] == ev.body.row
  {
    var n := |events| - 1;
    if i < n {
      UnflippedRowStands(events[..n], delay, i);
    }
  }
}
