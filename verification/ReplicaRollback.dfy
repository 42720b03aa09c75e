/** The replica's tables under forward blocks and rollbacks: rolling back to a height leaves what the blocks
    below it alone would have written.
 */
module ReplicaRollback {

  import opened Hashing
  import opened StakeJournal
  import Stake = StakeRows
  import opened InPlaceFlips

  /** `actions` maps an action index to its block. */
  datatype Ledger = Ledger(actions: map<nat, nat>, contract: Stake.Tables, capability: Stake.Tables,
                           flips: map<FlipId, FlipRow>)

  datatype Body =
    | ContractStake(e: Stake.Event)
    | CapabilityStake(e: Stake.Event)
    | Insert(id: FlipId, row: FlipRow)
    | FlipOne(id: FlipId, flip: Flip)
    | NoRow

  /** One write of a block; block passes write without minting an action. */
  datatype Event = Event(block: nat, minted: Option<nat>, body: Body)

  ghost const EMPTY := Ledger(map[], Stake.Tables(map[], [], []), Stake.Tables(map[], [], []), map[])

  // ---------------------------------------------------------------------------
  // Forward
  // ---------------------------------------------------------------------------

  ghost predicate StakeInsertMinted(e: Stake.Event, minted: Option<nat>) {
    e.Stake? || e.Unstake? ==> minted == Some(e.action)
  }

  ghost predicate Allowed(l: Ledger, delay: nat, ev: Event) {
    && (ev.minted.Some? ==> forall a <- l.actions :: a < ev.minted.value)
    && match ev.body
       case ContractStake(e) =>
         Stake.Allowed(Stake.Contract, l.contract, ev.block, e) && StakeInsertMinted(e, ev.minted)
       case CapabilityStake(e) =>
         Stake.Allowed(Stake.Capability, l.capability, ev.block, e) && StakeInsertMinted(e, ev.minted)
       case Insert(id, row) =>
         id !in l.flips && ev.minted == Some(id.action) && row.block == ev.block && RowOk(row, ev.block + 1, delay)
       case FlipOne(id, flip) => id in l.flips && CanFlip(l.flips[id], flip, ev.block)
       case NoRow => true
  }

  ghost function Minted(actions: map<nat, nat>, ev: Event): map<nat, nat> {
    if ev.minted.Some? then actions[ev.minted.value := ev.block] else actions
  }

  ghost function Step(l: Ledger, delay: nat, ev: Event): Ledger
    requires Allowed(l, delay, ev)
  {
    var m := l.(actions := Minted(l.actions, ev));
    match ev.body
    case ContractStake(e) => m.(contract := Stake.Step(Stake.Contract, delay, l.contract, ev.block, e))
    case CapabilityStake(e) => m.(capability := Stake.Step(Stake.Capability, delay, l.capability, ev.block, e))
    case Insert(id, row) => m.(flips := l.flips[id := row])
    case FlipOne(id, flip) => m.(flips := l.flips[id := Flipped(l.flips[id], flip, ev.block, delay)])
    case NoRow => m
  }

  // ---------------------------------------------------------------------------
  // Rollback
  // ---------------------------------------------------------------------------

  ghost function ActionsBelow(actions: map<nat, nat>, height: nat): map<nat, nat> {
    map a | a in actions && actions[a] < height :: actions[a]
  }

  ghost function FlipsBelow(flips: map<FlipId, FlipRow>, height: nat, delay: nat): map<FlipId, FlipRow> {
    map id | id in flips && flips[id].block < height :: Undo(flips[id], height, delay)
  }

  ghost function RolledBack(l: Ledger, height: nat, delay: nat): Ledger {
    Ledger(ActionsBelow(l.actions, height),
           Stake.RolledBack(Stake.Contract, l.contract, height, delay),
           Stake.RolledBack(Stake.Capability, l.capability, height, delay),
           FlipsBelow(l.flips, height, delay))
  }

  // ---------------------------------------------------------------------------
  // What every run keeps
  // ---------------------------------------------------------------------------

  ghost predicate ActionsOk(actions: map<nat, nat>, height: nat) {
    && (forall a <- actions :: actions[a] < height)
    && (forall a, b :: a in actions && b in actions && a < b ==> actions[a] <= actions[b])
  }

  ghost predicate StakesKnown(actions: map<nat, nat>, t: Stake.Tables) {
    forall id <- t.rows :: id.action in actions && actions[id.action] == t.rows[id].block
  }

  ghost predicate FlipsKnown(actions: map<nat, nat>, flips: map<FlipId, FlipRow>) {
    forall id <- flips :: id.action in actions && actions[id.action] == flips[id].block
  }

  ghost predicate FlipsOk(flips: map<FlipId, FlipRow>, height: nat, delay: nat) {
    forall id <- flips :: RowOk(flips[id], height, delay)
  }

  /** A ledger written by blocks below `height` only. */
  ghost predicate Inv(l: Ledger, delay: nat, height: nat) {
    && ActionsOk(l.actions, height)
    && StakesKnown(l.actions, l.contract) && StakesKnown(l.actions, l.capability) && FlipsKnown(l.actions, l.flips)
    && Stake.Inv(Stake.Contract, delay, l.contract, height)
    && Stake.Inv(Stake.Capability, delay, l.capability, height)
    && FlipsOk(l.flips, height, delay)
  }

  lemma FlipsWeaken(flips: map<FlipId, FlipRow>, delay: nat, low: nat, high: nat)
    requires FlipsOk(flips, low, delay) && low <= high
    ensures FlipsOk(flips, high, delay)
  {
  }

  lemma InvWeakens(l: Ledger, delay: nat, low: nat, high: nat)
    requires Inv(l, delay, low) && low <= high
    ensures Inv(l, delay, high)
  {
    Stake.InvWeakens(Stake.Contract, delay, l.contract, low, high);
    Stake.InvWeakens(Stake.Capability, delay, l.capability, low, high);
    FlipsWeaken(l.flips, delay, low, high);
  }

  lemma MintKeeps(l: Ledger, delay: nat, ev: Event)
    requires Inv(l, delay, ev.block + 1) && Allowed(l, delay, ev)
    ensures Inv(l.(actions := Minted(l.actions, ev)), delay, ev.block + 1)
  {
  }

  lemma StakesStayKnown(family: Stake.Family, delay: nat, t: Stake.Tables, actions: map<nat, nat>, block: nat,
                        e: Stake.Event)
    requires StakesKnown(actions, t) && Stake.Allowed(family, t, block, e)
    requires e.Stake? || e.Unstake? ==> e.action in actions && actions[e.action] == block
    ensures StakesKnown(actions, Stake.Step(family, delay, t, block, e))
  {
  }

  lemma ContractStepKeeps(l: Ledger, delay: nat, ev: Event)
    requires Inv(l, delay, ev.block + 1) && Allowed(l, delay, ev) && ev.body.ContractStake?
    ensures Inv(Step(l, delay, ev), delay, ev.block + 1)
  {
    MintKeeps(l, delay, ev);
    Stake.StepKeeps(Stake.Contract, delay, l.contract, ev.block, ev.body.e);
    StakesStayKnown(Stake.Contract, delay, l.contract, Minted(l.actions, ev), ev.block, ev.body.e);
  }

  lemma CapabilityStepKeeps(l: Ledger, delay: nat, ev: Event)
    requires Inv(l, delay, ev.block + 1) && Allowed(l, delay, ev) && ev.body.CapabilityStake?
    ensures Inv(Step(l, delay, ev), delay, ev.block + 1)
  {
    MintKeeps(l, delay, ev);
    Stake.StepKeeps(Stake.Capability, delay, l.capability, ev.block, ev.body.e);
    StakesStayKnown(Stake.Capability, delay, l.capability, Minted(l.actions, ev), ev.block, ev.body.e);
  }

  lemma FlipStepKeeps(l: Ledger, delay: nat, ev: Event)
    requires FlipsOk(l.flips, ev.block + 1, delay) && FlipsKnown(l.actions, l.flips) && Allowed(l, delay, ev)
    requires ev.body.Insert? || ev.body.FlipOne?
    ensures var s := Step(l, delay, ev);
            FlipsOk(s.flips, ev.block + 1, delay) && FlipsKnown(s.actions, s.flips)
  {
    if ev.body.FlipOne? {
      FlipKeeps(l.flips[ev.body.id], ev.body.flip, ev.block, delay);
    }
  }

  lemma StepKeeps(l: Ledger, delay: nat, ev: Event)
    requires Inv(l, delay, ev.block + 1) && Allowed(l, delay, ev)
    ensures Inv(Step(l, delay, ev), delay, ev.block + 1)
  {
    match ev.body
    case ContractStake(e) => ContractStepKeeps(l, delay, ev);
    case CapabilityStake(e) => CapabilityStepKeeps(l, delay, ev);
    case NoRow => MintKeeps(l, delay, ev);
    case _ =>
      MintKeeps(l, delay, ev);
      FlipStepKeeps(l, delay, ev);
  }

  lemma FlipsLeaveNoTrace(l: Ledger, delay: nat, ev: Event, height: nat)
    requires Inv(l, delay, ev.block + 1) && Allowed(l, delay, ev) && height <= ev.block
    ensures FlipsBelow(Step(l, delay, ev).flips, height, delay) == FlipsBelow(l.flips, height, delay)
  {
    if ev.body.FlipOne? {
      FlipLeavesNoTrace(l.flips[ev.body.id], ev.body.flip, ev.block, delay, height);
    }
  }

  /** A write by an orphaned block leaves no trace once the rollback has run. */
  lemma OrphanedStep(l: Ledger, delay: nat, ev: Event, height: nat)
    requires Inv(l, delay, ev.block + 1) && Allowed(l, delay, ev) && height <= ev.block
    ensures RolledBack(Step(l, delay, ev), height, delay) == RolledBack(l, height, delay)
  {
    FlipsLeaveNoTrace(l, delay, ev, height);
    assert ActionsBelow(Minted(l.actions, ev), height) == ActionsBelow(l.actions, height);
    match ev.body
    case ContractStake(e) => Stake.OrphanedStep(Stake.Contract, delay, l.contract, ev.block, e, height);
    case CapabilityStake(e) => Stake.OrphanedStep(Stake.Capability, delay, l.capability, ev.block, e, height);
    case _ =>
  }

  lemma FlipsUntouched(flips: map<FlipId, FlipRow>, height: nat, delay: nat)
    requires FlipsOk(flips, height, delay)
    ensures FlipsBelow(flips, height, delay) == flips
  {
    forall id | id in flips
      ensures Undo(flips[id], height, delay) == flips[id]
    {
      UntouchedRow(flips[id], height, delay);
    }
  }

  lemma NothingOrphaned(l: Ledger, delay: nat, height: nat)
    requires Inv(l, delay, height)
    ensures RolledBack(l, height, delay) == l
  {
    FlipsUntouched(l.flips, height, delay);
    Stake.NothingOrphaned(Stake.Contract, delay, l.contract, height);
    Stake.NothingOrphaned(Stake.Capability, delay, l.capability, height);
    assert ActionsBelow(l.actions, height) == l.actions;
  }

  // ---------------------------------------------------------------------------
  // Runs
  // ---------------------------------------------------------------------------

  ghost function Top(events: seq<Event>): nat {
    if events == [] then 0 else events[|events| - 1].block
  }

  /** Blocks come in ascending order and every write is one its block may make. */
  ghost predicate Valid(events: seq<Event>, delay: nat)
    decreases |events|, 0
  {
    events == [] ||
    var n := |events| - 1;
    && Valid(events[..n], delay) && Top(events[..n]) <= events[n].block
    && Allowed(Run(events[..n], delay), delay, events[n])
  }

  ghost function Run(events: seq<Event>, delay: nat): Ledger
    requires Valid(events, delay)
    decreases |events|, 1
  {
    if events == [] then EMPTY
    else var n := |events| - 1; Step(Run(events[..n], delay), delay, events[n])
  }

  /** The ledger was written by blocks below `height` only. */
  ghost predicate Reached(l: Ledger, delay: nat, height: nat) {
    exists high: nat :: high <= height && Inv(l, delay, high)
  }

  lemma EmptyOk(delay: nat)
    ensures Inv(EMPTY, delay, 0)
  {
  }

  lemma StepReaches(l: Ledger, delay: nat, ev: Event)
    requires Reached(l, delay, ev.block + 1) && Allowed(l, delay, ev)
    ensures Reached(Step(l, delay, ev), delay, ev.block + 1)
  {
    var high: nat :| high <= ev.block + 1 && Inv(l, delay, high);
    InvWeakens(l, delay, high, ev.block + 1);
    StepKeeps(l, delay, ev);
  }

  lemma OrphanedStepReached(l: Ledger, delay: nat, ev: Event, height: nat)
    requires Reached(l, delay, ev.block + 1) && Allowed(l, delay, ev) && height <= ev.block
    ensures RolledBack(Step(l, delay, ev), height, delay) == RolledBack(l, height, delay)
  {
    var high: nat :| high <= ev.block + 1 && Inv(l, delay, high);
    InvWeakens(l, delay, high, ev.block + 1);
    OrphanedStep(l, delay, ev, height);
  }

  lemma NothingOrphanedReached(l: Ledger, delay: nat, height: nat)
    requires Reached(l, delay, height)
    ensures RolledBack(l, height, delay) == l
  {
    var high: nat :| high <= height && Inv(l, delay, high);
    InvWeakens(l, delay, high, height);
    NothingOrphaned(l, delay, height);
  }

  lemma {:induction false} RunKeeps(events: seq<Event>, delay: nat)
    requires Valid(events, delay)
    ensures Reached(Run(events, delay), delay, Top(events) + 1)
  {
    if events == [] {
      EmptyOk(delay);
    } else {
      var n := |events| - 1;
      RunKeeps(events[..n], delay);
      StepReaches(Run(events[..n], delay), delay, events[n]);
    }
  }

  /** The writes of the blocks below a height: the surviving prefix. */
  ghost function Below(events: seq<Event>, height: nat): seq<Event> {
    if events == [] || events[|events| - 1].block < height then events else Below(events[..|events| - 1], height)
  }

  lemma {:induction false} BelowIsPrefix(events: seq<Event>, delay: nat, height: nat)
    requires Valid(events, delay)
    ensures Below(events, height) <= events && Valid(Below(events, height), delay)
    ensures forall ev <- Below(events, height) :: ev.block < height
    ensures forall i :: |Below(events, height)| <= i < |events| ==> events[i].block >= height
  {
    if events != [] {
      var n := |events| - 1;
      if events[n].block < height {
        Ascending(events, delay);
      } else {
        BelowIsPrefix(events[..n], delay, height);
        var kept := |Below(events, height)|;
        forall i | kept <= i < |events|
          ensures events[i].block >= height
        {
          if i < n {
            assert events[i] == events[..n][i];
          }
        }
      }
    }
  }

  lemma {:induction false} Ascending(events: seq<Event>, delay: nat)
    requires Valid(events, delay)
    ensures forall ev <- events :: ev.block <= Top(events)
  {
    if events != [] {
      var n := |events| - 1;
      Ascending(events[..n], delay);
      forall ev | ev in events
        ensures ev.block <= Top(events)
      {
        assert ev == events[n] || ev in events[..n];
      }
    }
  }

  /** Rolling back to a height leaves every table exactly as the blocks below it alone would. */
  lemma {:induction false} RollbackIsReplay(events: seq<Event>, delay: nat, height: nat)
    requires Valid(events, delay)
    ensures Valid(Below(events, height), delay)
    ensures RolledBack(Run(events, delay), height, delay) == Run(Below(events, height), delay)
  {
    if events == [] {
      EmptyOk(delay);
      NothingOrphanedReached(EMPTY, delay, height);
    } else {
      var n := |events| - 1;
      if events[n].block < height {
        RunKeeps(events, delay);
        NothingOrphanedReached(Run(events, delay), delay, height);
      } else {
        RunKeeps(events[..n], delay);
        OrphanedStepReached(Run(events[..n], delay), delay, events[n], height);
        RollbackIsReplay(events[..n], delay, height);
      }
    }
  }

  // ---------------------------------------------------------------------------
  // Any interleaving of blocks and rollbacks
  // ---------------------------------------------------------------------------

  datatype Act = Apply(ev: Event) | Reorg(height: nat)

  /** The writes still standing after a history of blocks and rollbacks. */
  ghost function Standing(acts: seq<Act>): seq<Event> {
    if acts == [] then []
    else
      var n := |acts| - 1;
      match acts[n]
      case Apply(ev) => Standing(acts[..n]) + [ev]
      case Reorg(height) => Below(Standing(acts[..n]), height)
  }

  ghost predicate ValidActs(acts: seq<Act>, delay: nat) {
    acts == [] ||
    var n := |acts| - 1;
    ValidActs(acts[..n], delay) && (acts[n].Apply? ==> Valid(Standing(acts[..n]) + [acts[n].ev], delay))
  }

  /** The ledger a replica holds after a history: each rollback runs on the tables as they are. */
  ghost function After(acts: seq<Act>, delay: nat): Option<Ledger> {
    if acts == [] then Some(EMPTY)
    else
      var n := |acts| - 1;
      var before := After(acts[..n], delay);
      if before.None? then None
      else
        match acts[n]
        case Apply(ev) => if Allowed(before.value, delay, ev) then Some(Step(before.value, delay, ev)) else None
        case Reorg(height) => Some(RolledBack(before.value, height, delay))
  }

  /** Whatever the history of blocks and rollbacks, the replica equals a fresh one fed the standing blocks. */
  lemma {:induction false} ReplicaMatchesFreshSync(acts: seq<Act>, delay: nat)
    requires ValidActs(acts, delay)
    ensures Valid(Standing(acts), delay)
    ensures After(acts, delay) == Some(Run(Standing(acts), delay))
  {
    if acts != [] {
      var n := |acts| - 1;
      ReplicaMatchesFreshSync(acts[..n], delay);
      var before := Standing(acts[..n]);
      match acts[n]
      case Apply(ev) =>
        assert (before + [ev])[..|before|] == before;
      case Reorg(height) => RollbackIsReplay(before, delay, height);
    }
  }

  // ---------------------------------------------------------------------------
  // The rollback itself
  // ---------------------------------------------------------------------------

  /** `SELECT action_index FROM actions WHERE block_index >= ? ORDER BY action_index LIMIT 1`. */
  ghost predicate IsFirstAction(actions: map<nat, nat>, height: nat, first: Option<nat>) {
    match first
    case None => forall a <- actions :: actions[a] < height
    case Some(f) => f in actions && actions[f] >= height && forall a <- actions :: a < f ==> actions[a] < height
  }

  method FirstActionIndex(actions: map<nat, nat>, height: nat) returns (first: Option<nat>)
    ensures IsFirstAction(actions, height, first)
  {
    first := None;
    var left := actions.Keys;
    while left != {}
      invariant left <= actions.Keys
      invariant first.Some? ==> first.value in actions && actions[first.value] >= height
      invariant forall a <- actions :: a !in left && actions[a] >= height ==> first.Some? && first.value <= a
    {
      var a :| a in left;
      if actions[a] >= height && (first.None? || a < first.value) {
        first := Some(a);
      }
      left := left - {a};
    }
  }

  /** Action indices grow with blocks, so one index separates the orphaned rows of every action-keyed table. */
  lemma FirstActionSplits(actions: map<nat, nat>, height: nat, first: Option<nat>, top: nat, a: nat)
    requires ActionsOk(actions, top) && IsFirstAction(actions, height, first) && a in actions
    ensures Stake.Dropped(first, a) <==> actions[a] >= height
  {
  }

  lemma StakesSplit(l: Ledger, delay: nat, top: nat, height: nat, first: Option<nat>)
    requires Inv(l, delay, top) && IsFirstAction(l.actions, height, first)
    ensures Stake.Splits(first, height, l.contract.rows) && Stake.Splits(first, height, l.capability.rows)
  {
    forall a | a in l.actions
      ensures Stake.Dropped(first, a) <==> l.actions[a] >= height
    {
      FirstActionSplits(l.actions, height, first, top, a);
    }
  }

  /** The in-place reset statements over the flippable rows, in the order they run, then the delete. */
  /** The resets of requests, calls and polls. */
  method ResetRequests(flips: map<FlipId, FlipRow>, height: nat) returns (out: map<FlipId, FlipRow>)
    ensures out.Keys == flips.Keys
    ensures forall id <- out ::
              out[id] == UnfirePoll(ReopenPoll(ReopenXcall(ReopenAttest(flips[id], height), height), height), height)
  {
    var a := map id | id in flips :: ReopenAttest(flips[id], height);
    var x := map id | id in a :: ReopenXcall(a[id], height);
    var p := map id | id in x :: ReopenPoll(x[id], height);
    out := map id | id in p :: UnfirePoll(p[id], height);
  }

  /** The resets of feeds, bets and delegations. */
  method ResetFeeds(flips: map<FlipId, FlipRow>, height: nat, delay: nat) returns (out: map<FlipId, FlipRow>)
    ensures out.Keys == flips.Keys
    ensures forall id <- out ::
              var feeds := Unlatch(FeedToOpen(FeedToClosed(flips[id], height), height), height);
              out[id] == ClearDelegation(ReopenBet(feeds, height), height, delay)
  {
    var c := map id | id in flips :: FeedToClosed(flips[id], height);
    var o := map id | id in c :: FeedToOpen(c[id], height);
    var l := map id | id in o :: Unlatch(o[id], height);
    var b := map id | id in l :: ReopenBet(l[id], height);
    out := map id | id in b :: ClearDelegation(b[id], height, delay);
  }

  method ResetFlips(flips: map<FlipId, FlipRow>, height: nat, delay: nat, first: Option<nat>)
    returns (out: map<FlipId, FlipRow>)
    ensures out.Keys == set id | id in flips && !Stake.Dropped(first, id.action)
    ensures forall id <- out :: out[id] == Undo(flips[id], height, delay)
  {
    var requests := ResetRequests(flips, height);
    var reset := ResetFeeds(requests, height, delay);
    out := map id | id in reset && !Stake.Dropped(first, id.action) :: reset[id];
  }

  lemma FlipsSplit(l: Ledger, delay: nat, top: nat, height: nat, first: Option<nat>, out: map<FlipId, FlipRow>)
    requires Inv(l, delay, top) && IsFirstAction(l.actions, height, first)
    requires out.Keys == set id | id in l.flips && !Stake.Dropped(first, id.action)
    requires forall id <- out :: out[id] == Undo(l.flips[id], height, delay)
    ensures out == FlipsBelow(l.flips, height, delay)
  {
    forall a | a in l.actions
      ensures Stake.Dropped(first, a) <==> l.actions[a] >= height
    {
      FirstActionSplits(l.actions, height, first, top, a);
    }
  }

  method DeleteActions(actions: map<nat, nat>, height: nat, first: Option<nat>, ghost top: nat)
    returns (out: map<nat, nat>)
    requires ActionsOk(actions, top) && IsFirstAction(actions, height, first)
    ensures out == ActionsBelow(actions, height)
  {
    forall a | a in actions
      ensures Stake.Dropped(first, a) <==> actions[a] >= height
    {
      FirstActionSplits(actions, height, first, top, a);
    }
    out := map a | a in actions && !Stake.Dropped(first, a) :: actions[a];
  }

  /** The replica's database and the rollback that rewrites it in place. */
  class Replica {
    var actions: map<nat, nat>
    var contract: Stake.Tables
    var capability: Stake.Tables
    var flips: map<FlipId, FlipRow>

    ghost function Value(): Ledger
      reads this
    {
      Ledger(actions, contract, capability, flips)
    }

    constructor ()
      ensures Value() == EMPTY
    {
      actions, flips := map[], map[];
      contract, capability := Stake.Tables(map[], [], []), Stake.Tables(map[], [], []);
    }

    method RollbackIndexer(height: nat, delay: nat, ghost top: nat)
      requires Inv(Value(), delay, top)
      modifies this
      ensures Value() == RolledBack(old(Value()), height, delay)
    {
      var first := FirstActionIndex(actions, height);
      ghost var before := Value();
      StakesSplit(before, delay, top, height, first);
      flips := ResetFlips(flips, height, delay, first);
      FlipsSplit(before, delay, top, height, first, flips);
      contract := Stake.RollbackTables(Stake.Contract, contract, height, delay, first);
      capability := Stake.RollbackTables(Stake.Capability, capability, height, delay, first);
      actions := DeleteActions(actions, height, first, top);
    }
  }

  /** On a replica any valid run has filled, the rollback leaves what the surviving blocks alone would. */
  method RollbackReplica(replica: Replica, ghost events: seq<Event>, height: nat, delay: nat)
    requires Valid(events, delay) && replica.Value() == Run(events, delay)
    modifies replica
    ensures Valid(Below(events, height), delay)
    ensures replica.Value() == Run(Below(events, height), delay)
  {
    RunKeeps(events, delay);
    RollbackIsReplay(events, delay, height);
    ghost var top: nat :| Inv(replica.Value(), delay, top);
    replica.RollbackIndexer(height, delay, top);
  }
}
