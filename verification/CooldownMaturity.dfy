/** Legacy cooldown maturities and their reversal: a matured unstake writes a refund credit and a negative
    escrow release under its own, earlier action index and is flipped to completed in place.
 */
module CooldownMaturity {

  import opened Hashing

  datatype Family = Capability | Contract

  /** A row of `unstakes` or `contract_unstakes`. Capability bonds are in the gas ticker. */
  datatype Unstake = Unstake(family: Family, block: nat, source: nat, tick: nat, amount: nat, cooldownEnd: nat,
                             completed: bool)

  /** A row of `credits` or `escrows`. Neither table has a block column. */
  datatype LedgerRow = LedgerRow(action: nat, address: nat, tick: nat, amount: int)

  datatype Book = Book(actions: map<nat, nat>, unstakes: map<nat, Unstake>, credits: seq<LedgerRow>,
                       escrows: seq<LedgerRow>)

  predicate Joins(action: nat, u: Unstake, row: LedgerRow) {
    row.action == action && row.address == u.source && row.tick == u.tick
  }

  /** Completed by a maturity at or above the height, on a row that survives. */
  predicate Reversible(u: Unstake, height: nat) {
    u.completed && u.cooldownEnd >= height && u.block < height
  }

  /** The ledger row belongs to a reversed maturity of the family. */
  predicate Orphaned(unstakes: map<nat, Unstake>, family: Family, height: nat, row: LedgerRow) {
    && row.action in unstakes
    && var u := unstakes[row.action];
       u.family == family && Joins(row.action, u, row) && Reversible(u, height)
  }

  function Without(rows: seq<LedgerRow>, drop: LedgerRow -> bool): seq<LedgerRow> {
    if rows == [] then []
    else
      var n := |rows| - 1;
      if drop(rows[n]) then Without(rows[..n], drop) else Without(rows[..n], drop) + [rows[n]]
  }

  function Count(rows: seq<LedgerRow>, p: LedgerRow -> bool): nat {
    if rows == [] then 0
    else Count(rows[..|rows| - 1], p) + if p(rows[|rows| - 1]) then 1 else 0
  }

  /** Refund credits of one unstake. */
  ghost function Refunds(b: Book, action: nat): nat
    requires action in b.unstakes
  {
    Count(b.credits, row => Joins(action, b.unstakes[action], row))
  }

  /** Escrow releases of one unstake: the rows of its identity with a negative amount. */
  ghost function Releases(b: Book, action: nat): nat
    requires action in b.unstakes
  {
    Count(b.escrows, row => Joins(action, b.unstakes[action], row) && row.amount < 0)
  }

  // ---------------------------------------------------------------------------
  // Forward writers and rollback
  // ---------------------------------------------------------------------------

  datatype Event =
    | Act(action: nat)
    | Open(action: nat, unstake: Unstake)
    | Mature(action: nat)
    | Credit(row: LedgerRow)
    | Escrow(row: LedgerRow)

  /** A maturity is processed at the unstake's own cooldown end. Other writers post under an action of their
      own block, and never a credit or a negative escrow under an unstake's identity. */
  ghost predicate Allowed(b: Book, block: nat, e: Event) {
    match e
    case Act(action) => forall a <- b.actions :: a < action
    case Open(action, u) =>
      && (forall a <- b.actions :: a < action)
      && u.block == block && !u.completed && u.amount > 0 && u.cooldownEnd >= block
    case Mature(action) =>
      action in b.unstakes && !b.unstakes[action].completed && b.unstakes[action].cooldownEnd == block
    case Credit(row) =>
      && row.action in b.actions && b.actions[row.action] == block
      && (row.action in b.unstakes ==> !Joins(row.action, b.unstakes[row.action], row))
    case Escrow(row) =>
      && row.action in b.actions && b.actions[row.action] == block
      && (row.action in b.unstakes && Joins(row.action, b.unstakes[row.action], row) ==> row.amount >= 0)
  }

  function Refund(action: nat, u: Unstake): LedgerRow {
    LedgerRow(action, u.source, u.tick, u.amount)
  }

  function Release(action: nat, u: Unstake): LedgerRow {
    LedgerRow(action, u.source, u.tick, -(u.amount as int))
  }

  ghost function Step(b: Book, block: nat, e: Event): Book
    requires Allowed(b, block, e)
  {
    match e
    case Act(action) => b.(actions := b.actions[action := block])
    case Open(action, u) => b.(actions := b.actions[action := block], unstakes := b.unstakes[action := u])
    case Mature(action) =>
      var u := b.unstakes[action];
      b.(unstakes := b.unstakes[action := u.(completed := true)],
         credits := b.credits + [Refund(action, u)], escrows := b.escrows + [Release(action, u)])
    case Credit(row) => b.(credits := b.credits + [row])
    case Escrow(row) => b.(escrows := b.escrows + [row])
  }

  predicate Dropped(first: Option<nat>, action: nat) {
    first.Some? && action >= first.value
  }

  function DropsCredit(unstakes: map<nat, Unstake>, height: nat): LedgerRow -> bool {
    (row: LedgerRow) => Orphaned(unstakes, Capability, height, row) || Orphaned(unstakes, Contract, height, row)
  }

  function DropsRelease(unstakes: map<nat, Unstake>, height: nat, gate: bool): LedgerRow -> bool {
    (row: LedgerRow) =>
      && gate && row.amount < 0
      && (Orphaned(unstakes, Capability, height, row) || Orphaned(unstakes, Contract, height, row))
  }

  function DropsAction(first: Option<nat>): LedgerRow -> bool {
    (row: LedgerRow) => Dropped(first, row.action)
  }

  function Reset(u: Unstake, height: nat): Unstake {
    if Reversible(u, height) then u.(completed := false) else u
  }

  /** `reverseCooldownMaturities`. */
  ghost function Reversed(b: Book, height: nat, gate: bool): Book {
    b.(unstakes := map a | a in b.unstakes :: Reset(b.unstakes[a], height),
       credits := Without(b.credits, DropsCredit(b.unstakes, height)),
       escrows := Without(b.escrows, DropsRelease(b.unstakes, height, gate)))
  }

  /** The deletes keyed on the first orphaned action. */
  ghost function Purged(b: Book, first: Option<nat>): Book {
    Book(map a | a in b.actions && !Dropped(first, a) :: b.actions[a],
         map a | a in b.unstakes && !Dropped(first, a) :: b.unstakes[a],
         Without(b.credits, DropsAction(first)), Without(b.escrows, DropsAction(first)))
  }

  ghost function RolledBack(b: Book, height: nat, gate: bool, first: Option<nat>): Book {
    Purged(Reversed(b, height, gate), first)
  }

  // ---------------------------------------------------------------------------
  // Counting
  // ---------------------------------------------------------------------------

  lemma {:induction false} CountSame(rows: seq<LedgerRow>, p: LedgerRow -> bool, q: LedgerRow -> bool)
    requires forall row <- rows :: p(row) == q(row)
    ensures Count(rows, p) == Count(rows, q)
  {
    if rows != [] {
      CountSame(rows[..|rows| - 1], p, q);
      assert rows[|rows| - 1] in rows;
    }
  }

  lemma {:induction false} CountKept(rows: seq<LedgerRow>, drop: LedgerRow -> bool, p: LedgerRow -> bool)
    requires forall row <- rows :: p(row) ==> !drop(row)
    ensures Count(Without(rows, drop), p) == Count(rows, p)
  {
    if rows != [] {
      var n := |rows| - 1;
      CountKept(rows[..n], drop, p);
      assert rows[n] in rows;
      assert (Without(rows[..n], drop) + [rows[n]])[..|Without(rows[..n], drop)|] == Without(rows[..n], drop);
    }
  }

  lemma {:induction false} CountDropped(rows: seq<LedgerRow>, drop: LedgerRow -> bool, p: LedgerRow -> bool)
    requires forall row <- rows :: p(row) ==> drop(row)
    ensures Count(Without(rows, drop), p) == 0
  {
    if rows != [] {
      var n := |rows| - 1;
      CountDropped(rows[..n], drop, p);
      assert rows[n] in rows;
      assert (Without(rows[..n], drop) + [rows[n]])[..|Without(rows[..n], drop)|] == Without(rows[..n], drop);
    }
  }

  lemma {:induction false} CountNone(rows: seq<LedgerRow>, p: LedgerRow -> bool)
    requires forall row <- rows :: !p(row)
    ensures Count(rows, p) == 0
  {
    if rows != [] {
      CountNone(rows[..|rows| - 1], p);
      assert rows[|rows| - 1] in rows;
    }
  }

  lemma CountAppend(rows: seq<LedgerRow>, row: LedgerRow, p: LedgerRow -> bool)
    ensures Count(rows + [row], p) == Count(rows, p) + if p(row) then 1 else 0
  {
    assert (rows + [row])[..|rows|] == rows;
  }

  lemma {:induction false} WithoutFrom(rows: seq<LedgerRow>, drop: LedgerRow -> bool)
    ensures forall row :: row in Without(rows, drop) <==> row in rows && !drop(row)
  {
    if rows != [] {
      var n := |rows| - 1;
      WithoutFrom(rows[..n], drop);
      assert rows == rows[..n] + [rows[n]];
    }
  }

  // ---------------------------------------------------------------------------
  // What every history keeps
  // ---------------------------------------------------------------------------

  /** Every unstake has one refund and one release when completed and neither when valid. */
  ghost predicate Balanced(b: Book) {
    forall a <- b.unstakes ::
      var n := if b.unstakes[a].completed then 1 else 0;
      Refunds(b, a) == n && Releases(b, a) == n
  }

  /** Actions grow with blocks, every row's action is known, and maturities lie below the height. */
  ghost predicate Sound(b: Book, height: nat) {
    && (forall a <- b.actions :: b.actions[a] < height)
    && (forall a, c :: a in b.actions && c in b.actions && a < c ==> b.actions[a] <= b.actions[c])
    && (forall a <- b.unstakes :: a in b.actions && b.actions[a] == b.unstakes[a].block && b.unstakes[a].amount > 0)
    && (forall a <- b.unstakes :: b.unstakes[a].completed ==> b.unstakes[a].cooldownEnd < height)
    && (forall row <- b.credits :: row.action in b.actions)
    && (forall row <- b.escrows :: row.action in b.actions)
  }

  lemma StepSound(b: Book, block: nat, e: Event)
    requires Sound(b, block + 1) && Allowed(b, block, e)
    ensures Sound(Step(b, block, e), block + 1)
  {
  }

  lemma StepCounts(b: Book, block: nat, e: Event, a: nat)
    requires Sound(b, block + 1) && Balanced(b) && Allowed(b, block, e) && a in Step(b, block, e).unstakes
    ensures var s := Step(b, block, e);
            Refunds(s, a) == Releases(s, a) == if s.unstakes[a].completed then 1 else 0
  {
    var s := Step(b, block, e);
    var refund := (row: LedgerRow) => Joins(a, s.unstakes[a], row);
    var release := (row: LedgerRow) => Joins(a, s.unstakes[a], row) && row.amount < 0;
    if e.Open? && e.action == a {
      CountNone(b.credits, refund);
      CountNone(b.escrows, release);
    } else {
      CountSame(b.credits, refund, row => Joins(a, b.unstakes[a], row));
      CountSame(b.escrows, release, row => Joins(a, b.unstakes[a], row) && row.amount < 0);
      if e.Mature? {
        CountAppend(b.credits, Refund(e.action, b.unstakes[e.action]), refund);
        CountAppend(b.escrows, Release(e.action, b.unstakes[e.action]), release);
      } else if e.Credit? {
        CountAppend(b.credits, e.row, refund);
      } else if e.Escrow? {
        CountAppend(b.escrows, e.row, release);
      }
    }
  }

  lemma StepBalanced(b: Book, block: nat, e: Event)
    requires Sound(b, block + 1) && Balanced(b) && Allowed(b, block, e)
    ensures Balanced(Step(b, block, e))
  {
    var s := Step(b, block, e);
    forall a | a in s.unstakes
      ensures Refunds(s, a) == Releases(s, a) == if s.unstakes[a].completed then 1 else 0
    {
      StepCounts(b, block, e, a);
    }
  }

  // ---------------------------------------------------------------------------
  // Rollback
  // ---------------------------------------------------------------------------

  ghost predicate IsFirst(b: Book, height: nat, first: Option<nat>) {
    match first
    case None => forall a <- b.actions :: b.actions[a] < height
    case Some(f) => f in b.actions && b.actions[f] >= height && forall a <- b.actions :: a < f ==> b.actions[a] < height
  }

  lemma DroppedIsOrphaned(b: Book, top: nat, height: nat, first: Option<nat>, a: nat)
    requires Sound(b, top) && IsFirst(b, height, first) && a in b.actions
    ensures Dropped(first, a) <==> b.actions[a] >= height
  {
  }

  /** The credits the rollback deletes, by either statement. */
  ghost function DropsAnyCredit(b: Book, height: nat, first: Option<nat>): LedgerRow -> bool {
    row => DropsCredit(b.unstakes, height)(row) || DropsAction(first)(row)
  }

  ghost function DropsAnyRelease(b: Book, height: nat, gate: bool, first: Option<nat>): LedgerRow -> bool {
    row => DropsRelease(b.unstakes, height, gate)(row) || DropsAction(first)(row)
  }

  lemma RowsRolledBack(b: Book, height: nat, gate: bool, first: Option<nat>)
    ensures RolledBack(b, height, gate, first).credits == Without(b.credits, DropsAnyCredit(b, height, first))
    ensures RolledBack(b, height, gate, first).escrows == Without(b.escrows, DropsAnyRelease(b, height, gate, first))
  {
    WithoutTwice(b.credits, DropsCredit(b.unstakes, height), DropsAction(first));
    WithoutSame(b.credits, row => DropsCredit(b.unstakes, height)(row) || DropsAction(first)(row),
                DropsAnyCredit(b, height, first));
    WithoutTwice(b.escrows, DropsRelease(b.unstakes, height, gate), DropsAction(first));
    WithoutSame(b.escrows, row => DropsRelease(b.unstakes, height, gate)(row) || DropsAction(first)(row),
                DropsAnyRelease(b, height, gate, first));
  }

  lemma CreditsReversed(b: Book, top: nat, height: nat, gate: bool, first: Option<nat>, a: nat)
    requires Sound(b, top) && IsFirst(b, height, first) && Balanced(b)
             && a in RolledBack(b, height, gate, first).unstakes
    ensures var s := RolledBack(b, height, gate, first);
            Refunds(s, a) == if s.unstakes[a].completed then 1 else 0
  {
    var s := RolledBack(b, height, gate, first);
    var u := b.unstakes[a];
    var drop := DropsAnyCredit(b, height, first);
    RowsRolledBack(b, height, gate, first);
    var refund := (row: LedgerRow) => Joins(a, s.unstakes[a], row);
    var was := (row: LedgerRow) => Joins(a, u, row);
    DroppedIsOrphaned(b, top, height, first, a);
    CountSame(s.credits, refund, was);
    if Reversible(u, height) {
      CountDropped(b.credits, drop, was);
    } else {
      CountKept(b.credits, drop, was);
      CountSame(b.credits, was, row => Joins(a, b.unstakes[a], row));
    }
  }

  lemma ReleasesReversed(b: Book, top: nat, height: nat, gate: bool, first: Option<nat>, a: nat)
    requires Sound(b, top) && IsFirst(b, height, first) && Balanced(b)
             && a in RolledBack(b, height, gate, first).unstakes
    ensures var s := RolledBack(b, height, gate, first);
            Releases(s, a) == if s.unstakes[a].completed || (Reversible(b.unstakes[a], height) && !gate) then 1 else 0
  {
    var s := RolledBack(b, height, gate, first);
    var u := b.unstakes[a];
    var drop := DropsAnyRelease(b, height, gate, first);
    RowsRolledBack(b, height, gate, first);
    var release := (row: LedgerRow) => Joins(a, s.unstakes[a], row) && row.amount < 0;
    var was := (row: LedgerRow) => Joins(a, u, row) && row.amount < 0;
    DroppedIsOrphaned(b, top, height, first, a);
    CountSame(s.escrows, release, was);
    if Reversible(u, height) && gate {
      CountDropped(b.escrows, drop, was);
    } else {
      CountKept(b.escrows, drop, was);
      CountSame(b.escrows, was, row => Joins(a, b.unstakes[a], row) && row.amount < 0);
    }
  }

  /** A rollback keeps every unstake's refund and release paired exactly when its target is at or above the
      gate or no surviving unstake completed at or above the target. */
  lemma RollbackBalances(b: Book, top: nat, height: nat, gate: bool, first: Option<nat>)
    requires Sound(b, top) && IsFirst(b, height, first) && Balanced(b)
    ensures Balanced(RolledBack(b, height, gate, first)) <==>
            gate || forall a <- b.unstakes :: !Reversible(b.unstakes[a], height)
  {
    var s := RolledBack(b, height, gate, first);
    forall a | a in s.unstakes
      ensures var n := if s.unstakes[a].completed then 1 else 0;
              Refunds(s, a) == n && (Releases(s, a) == n <==> gate || !Reversible(b.unstakes[a], height))
    {
      CreditsReversed(b, top, height, gate, first, a);
      ReleasesReversed(b, top, height, gate, first, a);
    }
    if a :| a in b.unstakes && Reversible(b.unstakes[a], height) && !gate {
      DroppedIsOrphaned(b, top, height, first, a);
      assert a in s.unstakes;
    }
  }

  /** Below the gate only the credit is reversed, so when the unstake matures again its one bond has two
      releases. */
  lemma SecondRelease(b: Book, top: nat, height: nat, first: Option<nat>, a: nat)
    requires Sound(b, top) && IsFirst(b, height, first) && Balanced(b)
    requires a in b.unstakes && Reversible(b.unstakes[a], height)
    ensures var s := RolledBack(b, height, false, first);
            var end := b.unstakes[a].cooldownEnd;
            && Allowed(s, end, Mature(a))
            && Refunds(Step(s, end, Mature(a)), a) == 1 && Releases(Step(s, end, Mature(a)), a) == 2
  {
    var s := RolledBack(b, height, false, first);
    DroppedIsOrphaned(b, top, height, first, a);
    CreditsReversed(b, top, height, false, first, a);
    ReleasesReversed(b, top, height, false, first, a);
    var u := s.unstakes[a];
    var next := Step(s, u.cooldownEnd, Mature(a));
    var refund := (row: LedgerRow) => Joins(a, next.unstakes[a], row);
    var release := (row: LedgerRow) => Joins(a, next.unstakes[a], row) && row.amount < 0;
    CountSame(s.credits, refund, row => Joins(a, s.unstakes[a], row));
    CountSame(s.escrows, release, row => Joins(a, s.unstakes[a], row) && row.amount < 0);
    CountAppend(s.credits, Refund(a, u), refund);
    CountAppend(s.escrows, Release(a, u), release);
  }

  lemma RollbackSound(b: Book, top: nat, height: nat, gate: bool, first: Option<nat>)
    requires Sound(b, top) && IsFirst(b, height, first)
    ensures Sound(RolledBack(b, height, gate, first), height)
  {
    var s := RolledBack(b, height, gate, first);
    forall a | a in b.actions
      ensures Dropped(first, a) <==> b.actions[a] >= height
    {
      DroppedIsOrphaned(b, top, height, first, a);
    }
    forall row | row in s.credits
      ensures row.action in s.actions
    {
      WithoutFrom(b.credits, DropsCredit(b.unstakes, height));
      WithoutFrom(Reversed(b, height, gate).credits, DropsAction(first));
    }
    forall row | row in s.escrows
      ensures row.action in s.actions
    {
      WithoutFrom(b.escrows, DropsRelease(b.unstakes, height, gate));
      WithoutFrom(Reversed(b, height, gate).escrows, DropsAction(first));
    }
  }

  // ---------------------------------------------------------------------------
  // Every history
  // ---------------------------------------------------------------------------

  datatype Move = Write(block: nat, e: Event) | Rollback(height: nat, first: Option<nat>)

  ghost const EMPTY := Book(map[], map[], [], [])

  /** A history of block writes in ascending order and rollbacks, each with the next height a block may have. */
  ghost predicate Possible(moves: seq<Move>, gate: nat -> bool)
    decreases |moves|, 0
  {
    moves == [] ||
    var n := |moves| - 1;
    && Possible(moves[..n], gate)
    && match moves[n]
       case Write(block, e) => Floor(moves[..n]) <= block && Allowed(After(moves[..n], gate), block, e)
       case Rollback(height, first) => IsFirst(After(moves[..n], gate), height, first)
  }

  /** Blocks below this height are settled: the last block written, or the last rollback's target. */
  ghost function Floor(moves: seq<Move>): nat {
    if moves == [] then 0 else
    var n := |moves| - 1;
    match moves[n]
    case Write(block, _) => block
    case Rollback(height, _) => height
  }

  ghost function After(moves: seq<Move>, gate: nat -> bool): Book
    requires Possible(moves, gate)
    decreases |moves|, 1
  {
    if moves == [] then EMPTY else
    var n := |moves| - 1;
    match moves[n]
    case Write(block, e) => Step(After(moves[..n], gate), block, e)
    case Rollback(height, first) => RolledBack(After(moves[..n], gate), height, gate(height), first)
  }

  lemma SoundWeakens(b: Book, low: nat, high: nat)
    requires Sound(b, low) && low <= high
    ensures Sound(b, high)
  {
  }

  /** Over every history whose rollback targets are at or above the gate, each surviving unstake has exactly
      one refund credit and one release when completed and neither when valid. */
  lemma {:induction false} AlwaysBalanced(moves: seq<Move>, gate: nat -> bool)
    requires Possible(moves, gate)
    requires forall i :: 0 <= i < |moves| && moves[i].Rollback? ==> gate(moves[i].height)
    ensures Balanced(After(moves, gate)) && Sound(After(moves, gate), Floor(moves) + 1)
  {
    if moves != [] {
      var n := |moves| - 1;
      AlwaysBalanced(moves[..n], gate);
      var b := After(moves[..n], gate);
      match moves[n]
      case Write(block, e) =>
        SoundWeakens(b, Floor(moves[..n]) + 1, block + 1);
        StepSound(b, block, e);
        StepBalanced(b, block, e);
      case Rollback(height, first) =>
        RollbackSound(b, Floor(moves[..n]) + 1, height, gate(height), first);
        RollbackBalances(b, Floor(moves[..n]) + 1, height, gate(height), first);
        SoundWeakens(After(moves, gate), height, height + 1);
    }
  }

  // ---------------------------------------------------------------------------
  // Conservation of the bond
  // ---------------------------------------------------------------------------

  /** Rows posted under an unstake's identity carry its whole bond. */
  ghost predicate WholeBond(b: Book) {
    && (forall row <- b.credits :: row.action in b.unstakes && Joins(row.action, b.unstakes[row.action], row) ==>
          row.amount == b.unstakes[row.action].amount)
    && (forall row <- b.escrows ::
          row.action in b.unstakes && Joins(row.action, b.unstakes[row.action], row) && row.amount < 0 ==>
          row.amount == -(b.unstakes[row.action].amount as int))
  }

  lemma StepWholeBond(b: Book, block: nat, e: Event)
    requires Sound(b, block + 1) && WholeBond(b) && Allowed(b, block, e)
    ensures WholeBond(Step(b, block, e))
  {
  }

  lemma RollbackWholeBond(b: Book, height: nat, gate: bool, first: Option<nat>)
    requires WholeBond(b)
    ensures WholeBond(RolledBack(b, height, gate, first))
  {
    var m, s := Reversed(b, height, gate), RolledBack(b, height, gate, first);
    WithoutFrom(b.credits, DropsCredit(b.unstakes, height));
    WithoutFrom(m.credits, DropsAction(first));
    WithoutFrom(b.escrows, DropsRelease(b.unstakes, height, gate));
    WithoutFrom(m.escrows, DropsAction(first));
    forall row | row in s.credits && row.action in s.unstakes && Joins(row.action, s.unstakes[row.action], row)
      ensures row.amount == s.unstakes[row.action].amount
    {
      assert row in b.credits && Joins(row.action, b.unstakes[row.action], row);
    }
    forall row |
      && row in s.escrows && row.action in s.unstakes
      && Joins(row.action, s.unstakes[row.action], row) && row.amount < 0
      ensures row.amount == -(s.unstakes[row.action].amount as int)
    {
      assert row in b.escrows && Joins(row.action, b.unstakes[row.action], row);
    }
  }

  lemma {:induction false} AlwaysWholeBond(moves: seq<Move>, gate: nat -> bool)
    requires Possible(moves, gate)
    requires forall i :: 0 <= i < |moves| && moves[i].Rollback? ==> gate(moves[i].height)
    ensures WholeBond(After(moves, gate))
  {
    if moves != [] {
      var n := |moves| - 1;
      AlwaysWholeBond(moves[..n], gate);
      AlwaysBalanced(moves[..n], gate);
      var b := After(moves[..n], gate);
      match moves[n]
      case Write(block, e) =>
        SoundWeakens(b, Floor(moves[..n]) + 1, block + 1);
        StepWholeBond(b, block, e);
      case Rollback(height, first) => RollbackWholeBond(b, height, gate(height), first);
    }
  }

  function Total(rows: seq<LedgerRow>, p: LedgerRow -> bool): int {
    if rows == [] then 0
    else Total(rows[..|rows| - 1], p) + if p(rows[|rows| - 1]) then rows[|rows| - 1].amount else 0
  }

  lemma {:induction false} TotalIsCount(rows: seq<LedgerRow>, p: LedgerRow -> bool, amount: int)
    requires forall row <- rows :: p(row) ==> row.amount == amount
    ensures Total(rows, p) == Count(rows, p) * amount
  {
    if rows != [] {
      TotalIsCount(rows[..|rows| - 1], p, amount);
      assert rows[|rows| - 1] in rows;
    }
  }

  function RefundOf(action: nat, u: Unstake): LedgerRow -> bool {
    row => Joins(action, u, row)
  }

  function ReleaseOf(action: nat, u: Unstake): LedgerRow -> bool {
    (row: LedgerRow) => Joins(action, u, row) && row.amount < 0
  }

  ghost function Paid(b: Book, action: nat): int
    requires action in b.unstakes
  {
    Total(b.credits, RefundOf(action, b.unstakes[action]))
  }

  ghost function Released(b: Book, action: nat): int
    requires action in b.unstakes
  {
    Total(b.escrows, ReleaseOf(action, b.unstakes[action]))
  }

  lemma BondPaid(b: Book, a: nat)
    requires Balanced(b) && WholeBond(b) && a in b.unstakes
    ensures Paid(b, a) == if b.unstakes[a].completed then b.unstakes[a].amount else 0
  {
    var p := RefundOf(a, b.unstakes[a]);
    TotalIsCount(b.credits, p, b.unstakes[a].amount);
    CountSame(b.credits, p, row => Joins(a, b.unstakes[a], row));
    assert Count(b.credits, p) == Refunds(b, a);
  }

  lemma BondReleased(b: Book, a: nat)
    requires Balanced(b) && WholeBond(b) && a in b.unstakes
    ensures Released(b, a) == if b.unstakes[a].completed then -(b.unstakes[a].amount as int) else 0
  {
    var p := ReleaseOf(a, b.unstakes[a]);
    TotalIsCount(b.escrows, p, -(b.unstakes[a].amount as int));
    CountSame(b.escrows, p, row => Joins(a, b.unstakes[a], row) && row.amount < 0);
    assert Count(b.escrows, p) == Releases(b, a);
  }

  /** Over every such history, what an unstake's refunds paid out is what its releases took out of escrow: the
      whole bond once it has completed, nothing before. */
  lemma BondConserved(moves: seq<Move>, gate: nat -> bool, a: nat)
    requires Possible(moves, gate) && a in After(moves, gate).unstakes
    requires forall i :: 0 <= i < |moves| && moves[i].Rollback? ==> gate(moves[i].height)
    ensures var b := After(moves, gate);
            Paid(b, a) == (if b.unstakes[a].completed then b.unstakes[a].amount else 0) && Released(b, a) == -Paid(b, a)
  {
    AlwaysBalanced(moves, gate);
    AlwaysWholeBond(moves, gate);
    BondPaid(After(moves, gate), a);
    BondReleased(After(moves, gate), a);
  }

  // ---------------------------------------------------------------------------
  // At or above the gate a rollback is replay
  // ---------------------------------------------------------------------------

  predicate ByMaturity(b: Book, height: nat, row: LedgerRow) {
    Orphaned(b.unstakes, Capability, height, row) || Orphaned(b.unstakes, Contract, height, row)
  }

  /** The row's action belongs to an orphaned block. */
  predicate ByBlock(b: Book, height: nat, row: LedgerRow) {
    row.action in b.actions && b.actions[row.action] >= height
  }

  function GoneCredit(b: Book, height: nat): LedgerRow -> bool {
    (row: LedgerRow) => ByMaturity(b, height, row) || ByBlock(b, height, row)
  }

  function GoneEscrow(b: Book, height: nat): LedgerRow -> bool {
    (row: LedgerRow) => (row.amount < 0 && ByMaturity(b, height, row)) || ByBlock(b, height, row)
  }

  ghost function ActionsAt(actions: map<nat, nat>, height: nat): map<nat, nat> {
    map a | a in actions && actions[a] < height :: actions[a]
  }

  ghost function UnstakesAt(unstakes: map<nat, Unstake>, height: nat): map<nat, Unstake> {
    map a | a in unstakes && unstakes[a].block < height :: Reset(unstakes[a], height)
  }

  lemma OrphanedActionUnseen(actions: map<nat, nat>, action: nat, block: nat, height: nat)
    requires action !in actions && height <= block
    ensures ActionsAt(actions[action := block], height) == ActionsAt(actions, height)
  {
  }

  lemma OrphanedUnstakeUnseen(unstakes: map<nat, Unstake>, action: nat, u: Unstake, height: nat)
    requires if action in unstakes
             then
               && u.block == unstakes[action].block
               && (u.block < height ==> Reset(u, height) == Reset(unstakes[action], height))
             else height <= u.block
    ensures UnstakesAt(unstakes[action := u], height) == UnstakesAt(unstakes, height)
  {
    var a, b := UnstakesAt(unstakes[action := u], height), UnstakesAt(unstakes, height);
    assert a.Keys == b.Keys;
  }

  /** The rollback read by blocks instead of by the first orphaned action. */
  ghost function RolledAt(b: Book, height: nat): Book {
    Book(ActionsAt(b.actions, height), UnstakesAt(b.unstakes, height),
         Without(b.credits, GoneCredit(b, height)), Without(b.escrows, GoneEscrow(b, height)))
  }

  lemma FirstActionSelects(b: Book, top: nat, height: nat, first: Option<nat>, row: LedgerRow)
    requires Sound(b, top) && IsFirst(b, height, first) && row.action in b.actions
    ensures GoneCredit(b, height)(row) == (DropsCredit(b.unstakes, height)(row) || DropsAction(first)(row))
    ensures GoneEscrow(b, height)(row) == (DropsRelease(b.unstakes, height, true)(row) || DropsAction(first)(row))
  {
    DroppedIsOrphaned(b, top, height, first, row.action);
  }

  lemma FirstActionKeeps(b: Book, top: nat, height: nat, first: Option<nat>)
    requires Sound(b, top) && IsFirst(b, height, first)
    ensures RolledBack(b, height, true, first).actions == ActionsAt(b.actions, height)
    ensures RolledBack(b, height, true, first).unstakes == UnstakesAt(b.unstakes, height)
  {
    forall a | a in b.actions
      ensures Dropped(first, a) <==> b.actions[a] >= height
    {
      DroppedIsOrphaned(b, top, height, first, a);
    }
  }

  lemma RolledBackIsRolledAt(b: Book, top: nat, height: nat, first: Option<nat>)
    requires Sound(b, top) && IsFirst(b, height, first)
    ensures RolledBack(b, height, true, first) == RolledAt(b, height)
  {
    FirstActionKeeps(b, top, height, first);
    forall row | row in b.credits || row in b.escrows
      ensures GoneCredit(b, height)(row) == (DropsCredit(b.unstakes, height)(row) || DropsAction(first)(row))
      ensures GoneEscrow(b, height)(row) == (DropsRelease(b.unstakes, height, true)(row) || DropsAction(first)(row))
    {
      FirstActionSelects(b, top, height, first, row);
    }
    WithoutTwice(b.credits, DropsCredit(b.unstakes, height), DropsAction(first));
    WithoutSame(b.credits, row => DropsCredit(b.unstakes, height)(row) || DropsAction(first)(row),
                GoneCredit(b, height));
    WithoutTwice(b.escrows, DropsRelease(b.unstakes, height, true), DropsAction(first));
    WithoutSame(b.escrows, row => DropsRelease(b.unstakes, height, true)(row) || DropsAction(first)(row),
                GoneEscrow(b, height));
  }

  lemma {:induction false} NoneCounted(rows: seq<LedgerRow>, p: LedgerRow -> bool, row: LedgerRow)
    requires Count(rows, p) == 0 && row in rows
    ensures !p(row)
  {
    var n := |rows| - 1;
    if rows[n] != row {
      NoneCounted(rows[..n], p, row);
    }
  }

  lemma WithoutAppend(rows: seq<LedgerRow>, row: LedgerRow, p: LedgerRow -> bool, q: LedgerRow -> bool)
    requires q(row) && forall x <- rows :: p(x) == q(x)
    ensures Without(rows + [row], q) == Without(rows, p)
  {
    assert (rows + [row])[..|rows|] == rows;
    WithoutSame(rows, p, q);
  }

  /** Rows already posted are selected alike in both books. */
  ghost predicate SameSelection(b: Book, s: Book, height: nat) {
    && (forall row <- b.credits :: GoneCredit(b, height)(row) == GoneCredit(s, height)(row))
    && (forall row <- b.escrows :: GoneEscrow(b, height)(row) == GoneEscrow(s, height)(row))
  }

  lemma SelectedAlike(b: Book, s: Book, height: nat, row: LedgerRow)
    requires ByMaturity(b, height, row) == ByMaturity(s, height, row) || ByBlock(b, height, row)
    requires ByBlock(b, height, row) == ByBlock(s, height, row)
    ensures GoneCredit(b, height)(row) == GoneCredit(s, height)(row)
    ensures GoneEscrow(b, height)(row) == GoneEscrow(s, height)(row)
  {
  }

  lemma NewActionSelectsAlike(b: Book, block: nat, e: Event, height: nat, row: LedgerRow)
    requires Sound(b, block + 1) && Allowed(b, block, e) && (e.Act? || e.Open?) && row.action in b.actions
    ensures var s := Step(b, block, e);
            && GoneCredit(b, height)(row) == GoneCredit(s, height)(row)
            && GoneEscrow(b, height)(row) == GoneEscrow(s, height)(row)
  {
    SelectedAlike(b, Step(b, block, e), height, row);
  }

  lemma ActLeavesNoTrace(b: Book, block: nat, e: Event, height: nat)
    requires Sound(b, block + 1) && Allowed(b, block, e) && height <= block && (e.Act? || e.Open?)
    ensures RolledAt(Step(b, block, e), height) == RolledAt(b, height)
  {
    var s := Step(b, block, e);
    forall row | row in b.credits || row in b.escrows
      ensures GoneCredit(b, height)(row) == GoneCredit(s, height)(row)
              && GoneEscrow(b, height)(row) == GoneEscrow(s, height)(row)
    {
      NewActionSelectsAlike(b, block, e, height, row);
    }
    WithoutSame(b.credits, GoneCredit(s, height), GoneCredit(b, height));
    WithoutSame(b.escrows, GoneEscrow(s, height), GoneEscrow(b, height));
    OrphanedActionUnseen(b.actions, e.action, block, height);
    if e.Open? {
      OrphanedUnstakeUnseen(b.unstakes, e.action, e.unstake, height);
    }
  }

  lemma PostLeavesNoTrace(b: Book, block: nat, e: Event, height: nat)
    requires Sound(b, block + 1) && Allowed(b, block, e) && height <= block && (e.Credit? || e.Escrow?)
    ensures RolledAt(Step(b, block, e), height) == RolledAt(b, height)
  {
    var s := Step(b, block, e);
    assert ByBlock(s, height, e.row);
    forall row | row in b.credits || row in b.escrows
      ensures GoneCredit(b, height)(row) == GoneCredit(s, height)(row)
              && GoneEscrow(b, height)(row) == GoneEscrow(s, height)(row)
    {
      SelectedAlike(b, s, height, row);
    }
    if e.Credit? {
      WithoutAppend(b.credits, e.row, GoneCredit(b, height), GoneCredit(s, height));
      WithoutSame(b.escrows, GoneEscrow(s, height), GoneEscrow(b, height));
    } else {
      WithoutAppend(b.escrows, e.row, GoneEscrow(b, height), GoneEscrow(s, height));
      WithoutSame(b.credits, GoneCredit(s, height), GoneCredit(b, height));
    }
  }

  /** Before it matures an unstake has no row for the maturity to select. */
  lemma MatureSelectsAlike(b: Book, block: nat, e: Event, height: nat)
    requires Sound(b, block + 1) && Balanced(b) && Allowed(b, block, e) && e.Mature?
    ensures SameSelection(b, Step(b, block, e), height)
  {
    var s := Step(b, block, e);
    assert Refunds(b, e.action) == 0 && Releases(b, e.action) == 0;
    forall row | row in b.credits
      ensures GoneCredit(b, height)(row) == GoneCredit(s, height)(row)
    {
      NoneCounted(b.credits, r => Joins(e.action, b.unstakes[e.action], r), row);
      SelectedAlike(b, s, height, row);
    }
    forall row | row in b.escrows
      ensures GoneEscrow(b, height)(row) == GoneEscrow(s, height)(row)
    {
      NoneCounted(b.escrows, r => Joins(e.action, b.unstakes[e.action], r) && r.amount < 0, row);
      if row.amount < 0 {
        SelectedAlike(b, s, height, row);
      }
    }
  }

  lemma MaturityIsSelected(b: Book, block: nat, e: Event, height: nat, row: LedgerRow)
    requires Sound(b, block + 1) && Allowed(b, block, e) && height <= block && e.Mature?
    requires Joins(e.action, b.unstakes[e.action], row)
    ensures GoneCredit(Step(b, block, e), height)(row)
    ensures row.amount < 0 ==> GoneEscrow(Step(b, block, e), height)(row)
  {
    var s := Step(b, block, e);
    if b.unstakes[e.action].block < height {
      assert Reversible(s.unstakes[e.action], height);
      assert Orphaned(s.unstakes, s.unstakes[e.action].family, height, row);
      assert ByMaturity(s, height, row);
    } else {
      assert ByBlock(s, height, row);
    }
  }

  lemma MatureLeavesNoTrace(b: Book, block: nat, e: Event, height: nat)
    requires Sound(b, block + 1) && Balanced(b) && Allowed(b, block, e) && height <= block && e.Mature?
    ensures RolledAt(Step(b, block, e), height) == RolledAt(b, height)
  {
    var s, u := Step(b, block, e), b.unstakes[e.action];
    MatureSelectsAlike(b, block, e, height);
    MaturityIsSelected(b, block, e, height, Refund(e.action, u));
    MaturityIsSelected(b, block, e, height, Release(e.action, u));
    WithoutAppend(b.credits, Refund(e.action, u), GoneCredit(b, height), GoneCredit(s, height));
    WithoutAppend(b.escrows, Release(e.action, u), GoneEscrow(b, height), GoneEscrow(s, height));
    OrphanedUnstakeUnseen(b.unstakes, e.action, u.(completed := true), height);
  }

  lemma NothingSelected(b: Book, height: nat, row: LedgerRow)
    requires Sound(b, height)
    ensures !GoneCredit(b, height)(row) && !GoneEscrow(b, height)(row)
  {
    assert !ByMaturity(b, height, row) && !ByBlock(b, height, row);
  }

  lemma NothingOrphaned(b: Book, height: nat)
    requires Sound(b, height)
    ensures RolledAt(b, height) == b
  {
    forall row | row in b.credits || row in b.escrows
      ensures !GoneCredit(b, height)(row) && !GoneEscrow(b, height)(row)
    {
      NothingSelected(b, height, row);
    }
    WithoutNone(b.credits, GoneCredit(b, height));
    WithoutNone(b.escrows, GoneEscrow(b, height));
    assert RolledAt(b, height).actions == b.actions && RolledAt(b, height).unstakes == b.unstakes;
  }

  datatype Post = Post(block: nat, e: Event)

  ghost function Top(posts: seq<Post>): nat {
    if posts == [] then 0 else posts[|posts| - 1].block
  }

  ghost predicate Valid(posts: seq<Post>)
    decreases |posts|, 0
  {
    posts == [] ||
    var n := |posts| - 1;
    Valid(posts[..n]) && Top(posts[..n]) <= posts[n].block && Allowed(Run(posts[..n]), posts[n].block, posts[n].e)
  }

  ghost function Run(posts: seq<Post>): Book
    requires Valid(posts)
    decreases |posts|, 1
  {
    if posts == [] then EMPTY else var n := |posts| - 1; Step(Run(posts[..n]), posts[n].block, posts[n].e)
  }

  ghost function Below(posts: seq<Post>, height: nat): seq<Post> {
    if posts == [] || posts[|posts| - 1].block < height then posts else Below(posts[..|posts| - 1], height)
  }

  lemma {:induction false} RunKeeps(posts: seq<Post>)
    requires Valid(posts)
    ensures Sound(Run(posts), Top(posts) + 1) && Balanced(Run(posts))
  {
    if posts != [] {
      var n := |posts| - 1;
      RunKeeps(posts[..n]);
      SoundWeakens(Run(posts[..n]), Top(posts[..n]) + 1, posts[n].block + 1);
      StepSound(Run(posts[..n]), posts[n].block, posts[n].e);
      StepBalanced(Run(posts[..n]), posts[n].block, posts[n].e);
    }
  }

  lemma {:induction false} RolledAtIsReplay(posts: seq<Post>, height: nat)
    requires Valid(posts)
    ensures Valid(Below(posts, height)) && RolledAt(Run(posts), height) == Run(Below(posts, height))
  {
    RunKeeps(posts);
    if posts == [] || posts[|posts| - 1].block < height {
      if posts == [] {
        assert Sound(EMPTY, height);
      } else {
        SoundWeakens(Run(posts), Top(posts) + 1, height);
      }
      NothingOrphaned(Run(posts), height);
    } else {
      var n := |posts| - 1;
      var b, block, e := Run(posts[..n]), posts[n].block, posts[n].e;
      RunKeeps(posts[..n]);
      SoundWeakens(b, Top(posts[..n]) + 1, block + 1);
      if e.Mature? {
        MatureLeavesNoTrace(b, block, e, height);
      } else if e.Act? || e.Open? {
        ActLeavesNoTrace(b, block, e, height);
      } else {
        PostLeavesNoTrace(b, block, e, height);
      }
      RolledAtIsReplay(posts[..n], height);
    }
  }

  /** At or above the gate the rolled-back book is the book of the surviving writes: every credit, escrow and
      status, in order. */
  lemma RollbackIsReplay(posts: seq<Post>, height: nat, first: Option<nat>)
    requires Valid(posts) && IsFirst(Run(posts), height, first)
    ensures Valid(Below(posts, height))
    ensures RolledBack(Run(posts), height, true, first) == Run(Below(posts, height))
  {
    RunKeeps(posts);
    RolledBackIsRolledAt(Run(posts), Top(posts) + 1, height, first);
    RolledAtIsReplay(posts, height);
  }

  /** What the write brought is in the book. */
  ghost predicate Brought(b: Book, block: nat, e: Event) {
    match e
    case Act(action) => action in b.actions && b.actions[action] == block
    case Open(action, u) =>
      && action in b.actions && b.actions[action] == block
      && action in b.unstakes && b.unstakes[action].(completed := false) == u
    case Mature(action) =>
      && action in b.unstakes && b.unstakes[action].completed
      && Refund(action, b.unstakes[action]) in b.credits && Release(action, b.unstakes[action]) in b.escrows
    case Credit(row) => row in b.credits
    case Escrow(row) => row in b.escrows
  }

  lemma StepBrings(b: Book, block: nat, e: Event)
    requires Allowed(b, block, e)
    ensures Brought(Step(b, block, e), block, e)
  {
    if e.Open? {
      assert e.unstake.(completed := false) == e.unstake;
    }
  }

  lemma StepKeepsBrought(b: Book, block: nat, e: Event, was: nat, d: Event)
    requires Allowed(b, block, e) && Sound(b, block + 1) && Brought(b, was, d)
    ensures Brought(Step(b, block, e), was, d)
  {
  }

  /** In every run of writes each of them is in the book to the end: a credit, an escrow, an unstake with its terms,
      and a maturity with its refund and its release. */
  lemma {:induction false} PostsStand(posts: seq<Post>, i: nat)
    requires Valid(posts) && i < |posts|
    ensures Brought(Run(posts), posts[i].block, posts[i].e)
  {
    var n := |posts| - 1;
    RunKeeps(posts[..n]);
    SoundWeakens(Run(posts[..n]), Top(posts[..n]) + 1, posts[n].block + 1);
    if i == n {
      StepBrings(Run(posts[..n]), posts[n].block, posts[n].e);
    } else {
      PostsStand(posts[..n], i);
      StepKeepsBrought(Run(posts[..n]), posts[n].block, posts[n].e, posts[i].block, posts[i].e);
    }
  }

  /** The writes still standing after a history of writes and rollbacks. */
  ghost function Standing(moves: seq<Move>): seq<Post> {
    if moves == [] then []
    else
      var n := |moves| - 1;
      match moves[n]
      case Write(block, e) => Standing(moves[..n]) + [Post(block, e)]
      case Rollback(height, _) => Below(Standing(moves[..n]), height)
  }

  lemma {:induction false} TopBelow(posts: seq<Post>, height: nat)
    ensures Top(Below(posts, height)) <= height
  {
    if posts != [] && posts[|posts| - 1].block >= height {
      TopBelow(posts[..|posts| - 1], height);
    }
  }

  /** Whatever the history of writes and rollbacks at or above the gate, the book equals that of a replica fed
      the standing writes alone. */
  lemma {:induction false} BookMatchesFreshSync(moves: seq<Move>, gate: nat -> bool)
    requires Possible(moves, gate)
    requires forall i :: 0 <= i < |moves| && moves[i].Rollback? ==> gate(moves[i].height)
    ensures Valid(Standing(moves)) && Top(Standing(moves)) <= Floor(moves)
    ensures After(moves, gate) == Run(Standing(moves))
  {
    if moves != [] {
      var n := |moves| - 1;
      BookMatchesFreshSync(moves[..n], gate);
      var before := Standing(moves[..n]);
      match moves[n]
      case Write(block, e) =>
        assert (before + [Post(block, e)])[..|before|] == before;
      case Rollback(height, first) =>
        RollbackIsReplay(before, height, first);
        TopBelow(before, height);
    }
  }

  // ---------------------------------------------------------------------------
  // The statements
  // ---------------------------------------------------------------------------

  lemma {:induction false} WithoutSame(rows: seq<LedgerRow>, p: LedgerRow -> bool, q: LedgerRow -> bool)
    requires forall row <- rows :: p(row) == q(row)
    ensures Without(rows, p) == Without(rows, q)
  {
    if rows != [] {
      WithoutSame(rows[..|rows| - 1], p, q);
      assert rows[|rows| - 1] in rows;
    }
  }

  lemma {:induction false} WithoutTwice(rows: seq<LedgerRow>, p: LedgerRow -> bool, q: LedgerRow -> bool)
    ensures Without(Without(rows, p), q) == Without(rows, row => p(row) || q(row))
  {
    if rows != [] {
      var n := |rows| - 1;
      WithoutTwice(rows[..n], p, q);
      var kept := Without(rows[..n], p);
      assert (kept + [rows[n]])[..|kept|] == kept;
    }
  }

  function Drops(unstakes: map<nat, Unstake>, family: Family, height: nat, negativeOnly: bool): LedgerRow -> bool {
    (row: LedgerRow) => Orphaned(unstakes, family, height, row) && (negativeOnly ==> row.amount < 0)
  }

  /** `DELETE` of the joined rows, row by row. */
  method DeleteJoined(rows: seq<LedgerRow>, unstakes: map<nat, Unstake>, family: Family, height: nat,
                      negativeOnly: bool)
    returns (kept: seq<LedgerRow>)
    ensures kept == Without(rows, Drops(unstakes, family, height, negativeOnly))
  {
    kept := [];
    var drop := Drops(unstakes, family, height, negativeOnly);
    for i := 0 to |rows|
      invariant kept == Without(rows[..i], drop)
    {
      assert rows[..i + 1][..i] == rows[..i];
      if !drop(rows[i]) {
        kept := kept + [rows[i]];
      }
    }
    assert rows[..|rows|] == rows;
  }

  /** The row was posted by a maturity at or above the height, of an unstake below it: same action, address and
      ticker. */
  ghost predicate Undone(unstakes: map<nat, Unstake>, height: nat, row: LedgerRow) {
    exists a <- unstakes ::
      && unstakes[a].completed && unstakes[a].cooldownEnd >= height && unstakes[a].block < height
      && row.action == a && row.address == unstakes[a].source && row.tick == unstakes[a].tick
  }

  lemma UndoneExactly(unstakes: map<nat, Unstake>, height: nat, gate: bool, credits: seq<LedgerRow>,
                      escrows: seq<LedgerRow>)
    ensures forall row :: row in Without(credits, DropsCredit(unstakes, height)) <==>
              row in credits && !Undone(unstakes, height, row)
    ensures forall row :: row in Without(escrows, DropsRelease(unstakes, height, gate)) <==>
              row in escrows && !(gate && row.amount < 0 && Undone(unstakes, height, row))
  {
    WithoutFrom(credits, DropsCredit(unstakes, height));
    WithoutFrom(escrows, DropsRelease(unstakes, height, gate));
    forall row: LedgerRow
      ensures DropsCredit(unstakes, height)(row) <==> Undone(unstakes, height, row)
    {
    }
  }

  class Tables {
    var unstakes: map<nat, Unstake>
    var credits: seq<LedgerRow>
    var escrows: seq<LedgerRow>

    constructor (unstakes: map<nat, Unstake>, credits: seq<LedgerRow>, escrows: seq<LedgerRow>)
      ensures this.unstakes == unstakes && this.credits == credits && this.escrows == escrows
    {
      this.unstakes, this.credits, this.escrows := unstakes, credits, escrows;
    }

    /** One family's ledger rows: its credits always, its releases only at or above the gate. */
    method DeleteMaturityRows(family: Family, height: nat, deleteReleases: bool)
      modifies this`credits, this`escrows
      ensures credits == Without(old(credits), Drops(unstakes, family, height, false))
      ensures escrows == if deleteReleases
                         then Without(old(escrows), Drops(unstakes, family, height, true))
                         else old(escrows)
    {
      credits := DeleteJoined(credits, unstakes, family, height, false);
      if deleteReleases {
        escrows := DeleteJoined(escrows, unstakes, family, height, true);
      }
    }

    /** Both families' ledger rows go while the completed statuses still select them; the statuses are reset
        last. */
    method ReverseCooldownMaturities(height: nat, gate: bool)
      modifies this
      ensures forall row :: row in credits <==> row in old(credits) && !Undone(old(unstakes), height, row)
      ensures forall row :: row in escrows <==>
                row in old(escrows) && !(gate && row.amount < 0 && Undone(old(unstakes), height, row))
      ensures unstakes.Keys == old(unstakes.Keys)
      ensures forall a <- unstakes ::
                var u := old(unstakes)[a];
                unstakes[a] == u.(completed := u.completed && !(u.cooldownEnd >= height && u.block < height))
      ensures unstakes == map a | a in old(unstakes) :: Reset(old(unstakes)[a], height)
      ensures credits == Without(old(credits), DropsCredit(old(unstakes), height))
      ensures escrows == Without(old(escrows), DropsRelease(old(unstakes), height, gate))
    {
      ghost var c, e, u := credits, escrows, unstakes;
      DeleteMaturityRows(Capability, height, gate);
      DeleteMaturityRows(Contract, height, gate);
      ghost var c1, c2 := Drops(u, Capability, height, false), Drops(u, Contract, height, false);
      WithoutTwice(c, c1, c2);
      WithoutSame(c, row => c1(row) || c2(row), DropsCredit(u, height));
      if gate {
        ghost var e1, e2 := Drops(u, Capability, height, true), Drops(u, Contract, height, true);
        WithoutTwice(e, e1, e2);
        WithoutSame(e, row => e1(row) || e2(row), DropsRelease(u, height, gate));
      } else {
        WithoutNone(e, DropsRelease(u, height, gate));
      }
      unstakes := map a | a in unstakes :: Reset(unstakes[a], height);
      UndoneExactly(u, height, gate, c, e);
    }
  }

  lemma {:induction false} WithoutNone(rows: seq<LedgerRow>, drop: LedgerRow -> bool)
    requires forall row <- rows :: !drop(row)
    ensures Without(rows, drop) == rows
  {
    if rows != [] {
      var n := |rows| - 1;
      WithoutNone(rows[..n], drop);
      assert rows[n] in rows && rows == rows[..n] + [rows[n]];
    }
  }
}
