/** Rows of earlier blocks that a later block flips in place: delegation stamps, ATTEST and XCALL requests,
    polls with deferred callbacks, BET feeds and bets; and the statements that flip them back.
 */
module InPlaceFlips {

  import opened Hashing

  datatype FlipTable = Delegations | ContractDelegations | Attests | Xcalls | Polls | Feeds | Bets

  datatype FlipId = FlipId(table: FlipTable, action: nat)

  datatype AttestStatus = AttestPending | Fulfilled | Errored | AttestExpired | NotRequest
  datatype XcallStatus = XcallPending | Completed | XcallExpired | NotCall
  datatype PollStatus = PollOpen | Finalized | FailedQuorum
  datatype FeedStatus = FeedOpen | FeedClosed | FeedTerminal(kind: nat)
  datatype BetStatus = BetOpen | BetSettled(kind: nat)

  /** A row with the columns a later block may flip. `outcome` stands for the poll columns that are NULL
      exactly while the poll is open. */
  datatype FlipRow =
    | Delegation(block: nat, deactivation: Option<nat>)
    | Attest(block: nat, version: nat, attestStatus: AttestStatus, resolved: Option<nat>)
    | Xcall(block: nat, version: nat, xcallStatus: XcallStatus, result: Option<nat>, payload: Option<nat>,
            resolved: Option<nat>, callback: Option<nat>)
    | Poll(block: nat, pollStatus: PollStatus, outcome: Option<nat>, finalizedBy: Option<nat>, resolved: Option<nat>,
           due: Option<nat>, fired: Option<nat>)
    | Feed(block: nat, feedStatus: FeedStatus, closed: Option<nat>, terminal: Option<nat>)
    | Bet(block: nat, betStatus: BetStatus, settled: Option<nat>)

  predicate AtLeast(stamp: Option<nat>, height: nat) {
    stamp.Some? && stamp.value >= height
  }

  // ---------------------------------------------------------------------------
  // Rollback statements, one row at a time
  // ---------------------------------------------------------------------------

  function ReopenAttest(r: FlipRow, height: nat): FlipRow {
    if r.Attest? && r.version == 0
      && (r.attestStatus == Fulfilled || r.attestStatus == Errored || r.attestStatus == AttestExpired)
       && AtLeast(r.resolved, height)
    then r.(attestStatus := AttestPending, resolved := None) else r
  }

  function ReopenXcall(r: FlipRow, height: nat): FlipRow {
    if r.Xcall? && r.version == 0 && (r.xcallStatus == Completed || r.xcallStatus == XcallExpired)
      && AtLeast(r.resolved, height)
    then r.(xcallStatus := XcallPending, result := None, payload := None, resolved := None, callback := None) else r
  }

  function ReopenPoll(r: FlipRow, height: nat): FlipRow {
    if r.Poll? && (r.pollStatus == Finalized || r.pollStatus == FailedQuorum) && AtLeast(r.resolved, height)
    then r.(pollStatus := PollOpen, outcome := None, finalizedBy := None, resolved := None, due := None, fired := None)
    else r
  }

  /** A deferred callback whose due block is orphaned while the finalization survives. */
  function UnfirePoll(r: FlipRow, height: nat): FlipRow {
    if r.Poll? && (r.pollStatus == Finalized || r.pollStatus == FailedQuorum) && AtLeast(r.due, height) && r.fired.Some?
    then r.(fired := None) else r
  }

  /** (a) Terminal feeds whose latch survives go back to closed. */
  function FeedToClosed(r: FlipRow, height: nat): FlipRow {
    if r.Feed? && AtLeast(r.terminal, height) && r.closed.Some? && r.closed.value < height
    then r.(feedStatus := FeedClosed, terminal := None) else r
  }

  /** (b) Terminal feeds with no surviving latch go back to open. */
  function FeedToOpen(r: FlipRow, height: nat): FlipRow {
    if r.Feed? && AtLeast(r.terminal, height) && (r.closed.None? || r.closed.value >= height)
    then r.(feedStatus := FeedOpen, terminal := None) else r
  }

  /** (c) Orphaned latches clear last. */
  function Unlatch(r: FlipRow, height: nat): FlipRow {
    if r.Feed? && AtLeast(r.closed, height) then r.(feedStatus := FeedOpen, closed := None) else r
  }

  function ReopenBet(r: FlipRow, height: nat): FlipRow {
    if r.Bet? && AtLeast(r.settled, height) then r.(betStatus := BetOpen, settled := None) else r
  }

  function ClearDelegation(r: FlipRow, height: nat, delay: nat): FlipRow {
    if r.Delegation? && AtLeast(r.deactivation, height + delay) then r.(deactivation := None) else r
  }

  /** All of them in the order they run. */
  function Undo(r: FlipRow, height: nat, delay: nat): FlipRow {
    var requests := ReopenXcall(ReopenAttest(r, height), height);
    var polls := UnfirePoll(ReopenPoll(requests, height), height);
    var feeds := Unlatch(FeedToOpen(FeedToClosed(polls, height), height), height);
    ClearDelegation(ReopenBet(feeds, height), height, delay)
  }

  // ---------------------------------------------------------------------------
  // Forward writers
  // ---------------------------------------------------------------------------

  datatype Flip =
    | Revoke
    | ResolveAttest(attestStatus: AttestStatus)
    | ResolveXcall(xcallStatus: XcallStatus, result: Option<nat>, payload: Option<nat>, callback: Option<nat>)
    | Finalize(pollStatus: PollStatus, outcome: nat, finalizedBy: nat, due: Option<nat>, fired: Option<nat>)
    | Fire(execution: nat)
    | Latch
    | Terminate(kind: nat)
    | Settle(kind: nat)

  /** When a block may apply a flip to a row. Stamps go on NULL columns only, a deferred callback fires at its
      due block, and a latch never follows its feed's terminal flip. */
  ghost predicate CanFlip(r: FlipRow, f: Flip, block: nat) {
    match f
    case Revoke => r.Delegation? && r.deactivation == None
    case ResolveAttest(status) =>
      r.Attest? && r.version == 0 && r.attestStatus == AttestPending && status != AttestPending && status != NotRequest
    case ResolveXcall(status, _, _, _) =>
      r.Xcall? && r.version == 0 && r.xcallStatus == XcallPending && status != XcallPending && status != NotCall
    case Finalize(status, _, _, due, fired) =>
      && r.Poll? && r.pollStatus == PollOpen && status != PollOpen
      && (due.Some? ==> due.value >= block && (fired.Some? ==> due.value == block))
    case Fire(_) => r.Poll? && r.pollStatus != PollOpen && r.due == Some(block) && r.fired == None
    case Latch => r.Feed? && r.feedStatus == FeedOpen && r.closed == None && r.terminal == None
    case Terminate(_) => r.Feed? && r.terminal == None
    case Settle(_) => r.Bet? && r.settled == None
  }

  ghost function Flipped(r: FlipRow, f: Flip, block: nat, delay: nat): FlipRow
    requires CanFlip(r, f, block)
  {
    match f
    case Revoke => r.(deactivation := Some(block + delay))
    case ResolveAttest(status) => r.(attestStatus := status, resolved := Some(block))
    case ResolveXcall(status, result, payload, callback) =>
      r.(xcallStatus := status, result := result, payload := payload, resolved := Some(block), callback := callback)
    case Finalize(status, outcome, finalizer, due, fired) =>
      r.(pollStatus := status, outcome := Some(outcome), finalizedBy := Some(finalizer), resolved := Some(block),
         due := due, fired := fired)
    case Fire(execution) => r.(fired := Some(execution))
    case Latch => r.(feedStatus := FeedClosed, closed := Some(block))
    case Terminate(kind) => r.(feedStatus := FeedTerminal(kind), terminal := Some(block))
    case Settle(kind) => r.(betStatus := BetSettled(kind), settled := Some(block))
  }

  ghost predicate StampBelow(stamp: Option<nat>, height: nat) {
    stamp.Some? ==> stamp.value < height
  }

  /** A row written by blocks below `height` only. */
  ghost predicate RowOk(r: FlipRow, height: nat, delay: nat) {
    && r.block < height
    && match r
       case Delegation(_, deactivation) => StampBelow(deactivation, height + delay)
       case Attest(_, version, status, resolved) =>
         version == 0 ==>
           StampBelow(resolved, height) && (status == AttestPending <==> resolved == None) && status != NotRequest
       case Xcall(_, version, status, result, payload, resolved, callback) =>
         version == 0 ==>
           && StampBelow(resolved, height) && (status == XcallPending <==> resolved == None) && status != NotCall
           && (resolved == None ==> result == None && payload == None && callback == None)
       case Poll(_, status, outcome, finalizer, resolved, due, fired) =>
         && StampBelow(resolved, height) && (status == PollOpen <==> resolved == None)
         && (resolved == None ==> outcome == None && finalizer == None && due == None && fired == None)
         && (fired.Some? ==> StampBelow(due, height))
         && (resolved.Some? && due.Some? ==> resolved.value <= due.value)
       case Feed(_, status, closed, terminal) =>
         && StampBelow(closed, height) && StampBelow(terminal, height)
         && (terminal == None ==> status == if closed == None then FeedOpen else FeedClosed)
         && (terminal.Some? ==> status.FeedTerminal? && (closed.Some? ==> closed.value <= terminal.value))
       case Bet(_, status, settled) => StampBelow(settled, height) && (settled == None ==> status == BetOpen)
  }

  lemma FlipKeeps(r: FlipRow, f: Flip, block: nat, delay: nat)
    requires RowOk(r, block + 1, delay) && CanFlip(r, f, block)
    ensures RowOk(Flipped(r, f, block, delay), block + 1, delay)
  {
  }

  /** A flip by an orphaned block leaves no trace in the row once the statements have run. */
  lemma FlipLeavesNoTrace(r: FlipRow, f: Flip, block: nat, delay: nat, height: nat)
    requires RowOk(r, block + 1, delay) && CanFlip(r, f, block) && height <= block
    ensures Undo(Flipped(r, f, block, delay), height, delay) == Undo(r, height, delay)
  {
  }

  lemma UntouchedRow(r: FlipRow, height: nat, delay: nat)
    requires RowOk(r, height, delay)
    ensures Undo(r, height, delay) == r
  {
  }

  // ---------------------------------------------------------------------------
  // Where the ordering and the assumptions matter
  // ---------------------------------------------------------------------------

  /** Without the rule that a latch never follows the terminal flip, the statements reopen a feed whose
      terminal flip survives. Exactly then: a latch at or above the height after a surviving terminal flip. */
  lemma LateLatchReopens(block: nat, kind: nat, terminal: nat, latch: nat, height: nat, delay: nat)
    requires block <= terminal <= latch && terminal < height
    ensures var r := Feed(block, FeedTerminal(kind), Some(latch), Some(terminal));
            var expected := if latch < height then r else Feed(block, FeedTerminal(kind), None, Some(terminal));
            Undo(r, height, delay) == expected <==> latch < height
  {
  }

  /** A callback fired after its due block survives a rollback between the two. */
  lemma LateFireSurvives(block: nat, status: PollStatus, due: nat, fire: nat, execution: nat, height: nat, delay: nat)
    requires status != PollOpen && block <= due < fire && height <= fire
    ensures var before := Poll(block, status, Some(0), Some(0), Some(block), Some(due), None);
            block < height ==>
              (Undo(before.(fired := Some(execution)), height, delay) == before <==> height <= due)
  {
  }
}
