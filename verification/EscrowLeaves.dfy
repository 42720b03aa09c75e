/** Locked-balance leaves inside the balances tree, and the shadow balances root threaded
    through them (`escrowLeaf`, `applyEscrowLeaves`, `resolveShadowBalancesRoot`). */
module EscrowLeaves {
  import opened Hashing
  import opened SparseMerkle
  import opened PersistentSmt
  import opened JournalRoots

  /** A stored `locked_amount`: SQL NULL, blank text, or an amount in units of 10^-18. */
  datatype Locked = Null | Blank | Amount(units: int)

  type LockRow = Row<Locked>

  function Digits(n: nat): string {
    if n < 10 then ["0123456789"[n]] else Digits(n / 10) + ["0123456789"[n % 10]]
  }

  /** NULL, blank and zero all delete the leaf. A negative total has no leaf: the source throws on
      it, which `CheckedLeaf` reports. */
  function EscrowLeaf(locked: Locked): Option<Hash> {
    if locked.Amount? && locked.units > 0 then Some(LeafHash(Digits(locked.units))) else None
  }

  /** The number a text of digits stands for. */
  function Reading(text: string): nat {
    if text == [] then 0
    else
      var c := text[|text| - 1];
      10 * Reading(text[..|text| - 1]) + (if '0' <= c <= '9' then c as int - '0' as int else 0)
  }

  /** The text of an amount reads back as it, so no two amounts share a leaf. */
  lemma {:induction false} DigitsReadBack(n: nat)
    ensures Reading(Digits(n)) == n && Digits(n) != []
  {
    if n >= 10 {
      DigitsReadBack(n / 10);
      var text := Digits(n / 10);
      assert (text + ["0123456789"[n % 10]])[..|text|] == text;
    }
  }

  predicate Negative(locked: Locked) {
    locked.Amount? && locked.units < 0
  }

  /** The key's newest total is one the encoding refuses. */
  predicate Refused(rows: seq<LockRow>, key: Key) {
    var latest := Latest(rows, key);
    latest.Some? && Negative(latest.value.value)
  }

  /** The key's newest total, if it has a row. */
  ghost function HeldNow(rows: seq<LockRow>, key: Key): Option<Locked> {
    var latest := Latest(rows, key);
    if latest.Some? then Some(latest.value.value) else None
  }

  /** Nothing is locked under the key: it has no row, or its newest total is NULL, blank or zero. */
  ghost predicate Released(rows: seq<LockRow>, key: Key) {
    HeldNow(rows, key) in {None, Some(Null), Some(Blank), Some(Amount(0))}
  }

  // ---------------------------------------------------------------------------
  // One block
  // ---------------------------------------------------------------------------

  method CheckedLeaf(rows: seq<LockRow>, key: Key) returns (leaf: Result<Option<Hash>>)
    ensures leaf.Err? <==> Refused(rows, key)
    ensures leaf.Ok? ==> leaf.value == LeafNow(rows, key, EscrowLeaf)
    ensures leaf == Ok(None) <==> Released(rows, key)
    ensures forall n: nat :: n > 0 ==>
              (leaf.Ok? && leaf.value.Some? && leaf.value.value.LeafHash? && Reading(leaf.value.value.text) == n <==>
               HeldNow(rows, key) == Some(Amount(n)))
  {
    var latest := Latest(rows, key);
    if latest.None? {
      return Ok(None);
    }
    if latest.value.value.Amount? && latest.value.value.units > 0 {
      DigitsReadBack(latest.value.value.units);
    }
    leaf := if Negative(latest.value.value) then Err("merkle: non-canonical amount")
            else Ok(EscrowLeaf(latest.value.value));
  }

  /** Threading a block's locked leaves stops with an error exactly when a touched key's newest
      total is negative; otherwise it is one update per touched key. */
  method ApplyEscrowLeaves(smt: PersistentSmt, root: Hash, rows: seq<LockRow>, touched: seq<Key>)
    returns (after: Result<Hash>)
    requires forall k <- touched :: |k| == smt.depth
    modifies smt
    ensures after.Err? <==> exists i :: 0 <= i < |touched| && Refused(rows, touched[i])
    ensures after.Ok? ==> (smt.nodes, after.value) == Thread(old(smt.nodes), root, Updates(rows, touched, EscrowLeaf))
  {
    ghost var start := smt.nodes;
    var cur := root;
    for i := 0 to |touched|
      invariant forall j :: 0 <= j < i ==> !Refused(rows, touched[j])
      invariant (smt.nodes, cur) == Thread(start, root, Updates(rows, touched[..i], EscrowLeaf))
    {
      var leaf := CheckedLeaf(rows, touched[i]);
      if leaf.Err? {
        return Err(leaf.error);
      }
      assert !Refused(rows, touched[i]);
      assert forall j :: 0 <= j < i + 1 ==> !Refused(rows, touched[j]);
      ThreadNext(start, root, rows, touched, EscrowLeaf, i);
      cur := smt.Update(cur, touched[i], leaf.value);
    }
    assert touched[..|touched|] == touched;
    after := Ok(cur);
  }

  lemma {:induction false} ThreadConcat(store: NodeStore, root: Hash, a: seq<Op>, b: seq<Op>)
    ensures Thread(store, root, a + b) == Thread(Thread(store, root, a).0, Thread(store, root, a).1, b)
  {
    if b == [] {
      assert a + b == a;
    } else {
      var n := |b| - 1;
      assert (a + b)[..|a + b| - 1] == a + b[..n];
      ThreadConcat(store, root, a, b[..n]);
    }
  }

  /** The updates of a list, one after the other. */
  method ThreadUpdates(smt: PersistentSmt, root: Hash, ops: seq<Op>) returns (after: Hash)
    requires FullOps(smt.depth, ops)
    modifies smt
    ensures (smt.nodes, after) == Thread(old(smt.nodes), root, ops)
  {
    after := root;
    for i := 0 to |ops|
      invariant (smt.nodes, after) == Thread(old(smt.nodes), root, ops[..i])
    {
      assert ops[..i + 1] == ops[..i] + [ops[i]];
      ThreadLast(old(smt.nodes), root, ops[..i], ops[i]);
      after := smt.Update(after, ops[i].key, ops[i].leaf);
    }
    assert ops[..|ops|] == ops;
  }

  /** Every live locked leaf: the newest row per key, with released keys dropped after the newest was chosen.
      Stops with an error exactly when some key's newest total is negative. */
  method LiveEscrowLeaves(rows: seq<LockRow>, keys: seq<Key>) returns (leaves: Result<seq<Op>>)
    ensures leaves.Err? <==> exists i :: 0 <= i < |keys| && Refused(rows, keys[i])
    ensures leaves.Ok? ==> leaves.value == LiveUpdates(rows, keys, EscrowLeaf)
  {
    var out := [];
    for i := 0 to |keys|
      invariant forall j :: 0 <= j < i ==> !Refused(rows, keys[j])
      invariant out == LiveUpdates(rows, keys[..i], EscrowLeaf)
    {
      UpdatesExtend(rows, keys, EscrowLeaf, i);
      var leaf := CheckedLeaf(rows, keys[i]);
      if leaf.Err? {
        return Err(leaf.error);
      }
      if leaf.value.Some? {
        out := out + [Op(keys[i], leaf.value)];
      }
    }
    assert keys[..|keys|] == keys;
    leaves := Ok(out);
  }

  /** `resolveShadowBalancesRoot` with its full build: thread the spendable updates and the touched locked
      leaves from the prior shadow root, or rebuild spendable and live locked leaves from the empty tree. */
  method ResolveShadowBalancesRoot(smt: PersistentSmt, prior: Option<Hash>, updates: Option<seq<Op>>,
                                   rows: seq<LockRow>,
                                   touched: seq<Key>, spendable: seq<Op>, lockKeys: seq<Key>)
    returns (root: Result<Hash>)
    requires FullOps(smt.depth, spendable) && (updates.Some? ==> FullOps(smt.depth, updates.value))
    requires (forall k <- touched :: |k| == smt.depth) && (forall k <- lockKeys :: |k| == smt.depth)
    modifies smt
    ensures root.Ok? && prior.Some? && updates.Some? ==>
              (smt.nodes, root.value) == Thread(old(smt.nodes), prior.value,
                                                updates.value + Updates(rows, touched, EscrowLeaf))
    ensures root.Ok? && !(prior.Some? && updates.Some?) ==>
              (smt.nodes, root.value) == Thread(old(smt.nodes), Empty(smt.depth),
                                                spendable + LiveUpdates(rows, lockKeys, EscrowLeaf))
    ensures root.Err? <==> if prior.Some? && updates.Some?
            then exists i :: 0 <= i < |touched| && Refused(rows, touched[i])
                           else exists i :: 0 <= i < |lockKeys| && Refused(rows, lockKeys[i])
  {
    if prior.Some? && updates.Some? {
      var threaded := ThreadUpdates(smt, prior.value, updates.value);
      ThreadConcat(old(smt.nodes), prior.value, updates.value, Updates(rows, touched, EscrowLeaf));
      root := ApplyEscrowLeaves(smt, threaded, rows, touched);
      return;
    }
    var built := ThreadUpdates(smt, Empty(smt.depth), spendable);
    var locked := LiveEscrowLeaves(rows, lockKeys);
    if locked.Err? {
      return Err(locked.error);
    }
    LiveUpdatesMembers(rows, lockKeys, EscrowLeaf);
    ThreadConcat(old(smt.nodes), Empty(smt.depth), spendable, locked.value);
    built := ThreadUpdates(smt, built, locked.value);
    root := Ok(built);
  }

  // ---------------------------------------------------------------------------
  // Runs of blocks and reorgs
  // ---------------------------------------------------------------------------

  /** `spendable[b]` is the spendable-leaf map after block b; `shadow` holds the stored shadow roots. */
  datatype Chain = Chain(
    rows: seq<LockRow>,
    spendable: seq<map<Key, Hash>>,
    shadow: map<int, Hash>,
    nodes: NodeStore)

  /** A block: its locked rows, the spendable map it leaves and, when the committed path has one, its
      per-key update list; the key lists are query answers in any order. */
  datatype Event =
    | Apply(locks: seq<LockRow>, balances: map<Key, Hash>, updates: Option<seq<Op>>, active: bool,
            touched: seq<Key>, spendKeys: seq<Key>, lockKeys: seq<Key>)
    | Reorg(height: nat)

  const GENESIS := Chain([], [], map[], map[])

  ghost function Spendable(s: Chain): map<Key, Hash> {
    if s.spendable == [] then map[] else s.spendable[|s.spendable| - 1]
  }

  /** The full leaf set: spendable leaves and live locked leaves side by side. */
  ghost function Both(balances: map<Key, Hash>, rows: seq<LockRow>): map<Key, Hash> {
    balances + Live(rows, EscrowLeaf)
  }

  ghost function SpendOps(balances: map<Key, Hash>, order: seq<Key>): seq<Op> {
    seq(|order|, i requires 0 <= i < |order| => Op(order[i], Lookup(balances, order[i])))
  }

  ghost function RebuildOps(e: Event, rows: seq<LockRow>): seq<Op>
    requires e.Apply?
  {
    SpendOps(e.balances, e.spendKeys) + LiveUpdates(rows, e.lockKeys, EscrowLeaf)
  }

  /** `resolveShadowBalancesRoot`: thread from the prior shadow root when it and an update list exist,
      else rebuild in full with the locked leaves forced on. */
  ghost function Resolved(depth: nat, s: Chain, e: Event): (NodeStore, Hash)
    requires e.Apply?
  {
    var rows := s.rows + e.locks;
    var block := |s.spendable|;
    if block - 1 in s.shadow && e.updates.Some? then
      Thread(s.nodes, s.shadow[block - 1], e.updates.value + Updates(rows, e.touched, EscrowLeaf))
    else
      Thread(s.nodes, Empty(depth), RebuildOps(e, rows))
  }

  /** The two key domains are disjoint: `isLocked` tells them apart. */
  ghost predicate Valid(depth: nat, isLocked: Key -> bool, s: Chain, e: Event) {
    e.Apply? ==>
      var block := |s.spendable|;
      var rows := s.rows + e.locks;
      && (forall x <- e.locks :: x.block == block && |x.key| == depth && isLocked(x.key) && !Negative(x.value))
      && (forall k <- e.balances :: |k| == depth && !isLocked(k))
      && (e.updates.Some? ==>
            && (forall op <- e.updates.value :: |op.key| == depth && !isLocked(op.key))
            && PutAll(Spendable(s), e.updates.value) == e.balances)
      && ListsKeys(e.touched, Touched(rows, block))
      && ListsKeys(e.spendKeys, e.balances.Keys)
      && ListsKeys(e.lockKeys, AllKeys(rows))
  }

  ghost function Step(depth: nat, s: Chain, e: Event): Chain {
    match e
    case Reorg(height) =>
      Chain(UpTo(s.rows, height - 1),
            if height <= |s.spendable| then s.spendable[..height] else s.spendable,
            map b | b in s.shadow && b < height :: s.shadow[b], s.nodes)
    case Apply(locks, balances, _, active, _, _, _) =>
      var rows, spendable := s.rows + locks, s.spendable + [balances];
      if active then
        var (nodes, root) := Resolved(depth, s, e);
        Chain(rows, spendable, s.shadow[|s.spendable| := root], nodes)
      else Chain(rows, spendable, s.shadow, s.nodes)
  }

  ghost function Run(depth: nat, events: seq<Event>): Chain {
    if events == [] then GENESIS
    else Step(depth, Run(depth, events[..|events| - 1]), events[|events| - 1])
  }

  ghost predicate ValidRun(depth: nat, isLocked: Key -> bool, events: seq<Event>) {
    forall i :: 0 <= i < |events| ==> Valid(depth, isLocked, Run(depth, events[..i]), events[i])
  }

  ghost predicate Anchored(depth: nat, s: Chain, block: int, root: Hash) {
    0 <= block < |s.spendable| &&
    Represents(depth, s.nodes, root, Both(s.spendable[block], UpTo(s.rows, block)))
  }

  ghost predicate Separated(depth: nat, isLocked: Key -> bool, s: Chain) {
    && (forall x <- s.rows :: x.block < |s.spendable| && |x.key| == depth && isLocked(x.key))
    && (forall i :: 0 <= i < |s.spendable| ==> forall k <- s.spendable[i] :: |k| == depth && !isLocked(k))
  }

  ghost predicate Inv(depth: nat, isLocked: Key -> bool, s: Chain) {
    && ContentAddressed(s.nodes)
    && Separated(depth, isLocked, s)
    && (forall b <- s.shadow :: Anchored(depth, s, b, s.shadow[b]))
  }

  // ---------------------------------------------------------------------------
  // The block's updates reach the combined map
  // ---------------------------------------------------------------------------

  lemma {:induction false} PutAllSkips(m: map<Key, Hash>, ops: seq<Op>, key: Key)
    requires !Names(ops, key)
    ensures Lookup(PutAll(m, ops), key) == Lookup(m, key)
  {
    if ops != [] {
      assert ops == ops[..|ops| - 1] + [ops[|ops| - 1]];
      assert ops[|ops| - 1] in ops;
      PutAllSkips(m, ops[..|ops| - 1], key);
    }
  }

  lemma {:induction false} PutAllLocal(m: map<Key, Hash>, n: map<Key, Hash>, ops: seq<Op>, key: Key)
    requires Lookup(m, key) == Lookup(n, key)
    ensures Lookup(PutAll(m, ops), key) == Lookup(PutAll(n, ops), key)
  {
    if ops != [] {
      PutAllLocal(m, n, ops[..|ops| - 1], key);
    }
  }

  lemma {:induction false} PutAllConcat(m: map<Key, Hash>, a: seq<Op>, b: seq<Op>)
    ensures PutAll(m, a + b) == PutAll(PutAll(m, a), b)
  {
    if b == [] {
      assert a + b == a;
    } else {
      assert (a + b)[..|a + b| - 1] == a + b[..|b| - 1];
      PutAllConcat(m, a, b[..|b| - 1]);
    }
  }

  lemma LiveKeysLocked(isLocked: Key -> bool, rows: seq<LockRow>, key: Key)
    requires forall x <- rows :: isLocked(x.key)
    requires !isLocked(key)
    ensures Lookup(Live(rows, EscrowLeaf), key) == None
  {
    LiveReads(rows, EscrowLeaf, key);
    LatestIsMaxId(rows, key);
  }

  /** Reading one key of the combined map: its own domain decides. */
  lemma BothReads(isLocked: Key -> bool, balances: map<Key, Hash>, rows: seq<LockRow>, key: Key)
    requires forall x <- rows :: isLocked(x.key)
    requires forall k <- balances :: !isLocked(k)
    ensures Lookup(Both(balances, rows), key)
            == if isLocked(key) then LeafNow(rows, key, EscrowLeaf) else Lookup(balances, key)
  {
    LiveReads(rows, EscrowLeaf, key);
    if !isLocked(key) {
      LiveKeysLocked(isLocked, rows, key);
    }
  }

  /** A locked key has no leaf once it is released; while a positive total is locked it has one, from which that
      total, and no other, can be read. */
  lemma LockedKeyReads(isLocked: Key -> bool, balances: map<Key, Hash>, rows: seq<LockRow>, key: Key, n: nat)
    requires forall x <- rows :: isLocked(x.key)
    requires forall k <- balances :: !isLocked(k)
    requires isLocked(key) && !Refused(rows, key) && n > 0
    ensures key !in Both(balances, rows) <==> Released(rows, key)
    ensures HeldNow(rows, key) == Some(Amount(n)) <==>
              && key in Both(balances, rows) && Both(balances, rows)[key].LeafHash?
              && Reading(Both(balances, rows)[key].text) == n
  {
    BothReads(isLocked, balances, rows, key);
    var held := HeldNow(rows, key);
    if held.Some? && held.value.Amount? && held.value.units > 0 {
      DigitsReadBack(held.value.units);
    }
  }

  lemma UpdatesNamed(rows: seq<LockRow>, order: seq<Key>, key: Key)
    ensures Names(Updates(rows, order, EscrowLeaf), key) <==> key in order
  {
    if key in order {
      UpdatesName(rows, order, EscrowLeaf, key);
    }
  }

  lemma ThreadedReads(depth: nat, isLocked: Key -> bool, s: Chain, e: Event, key: Key)
    requires Separated(depth, isLocked, s) && Valid(depth, isLocked, s, e) && e.Apply? && e.updates.Some?
    ensures var rows := s.rows + e.locks;
            Lookup(PutAll(PutAll(Both(Spendable(s), s.rows), e.updates.value),
                          Updates(rows, e.touched, EscrowLeaf)), key)
            == Lookup(Both(e.balances, rows), key)
  {
    var rows := s.rows + e.locks;
    var before := Both(Spendable(s), s.rows);
    var middle := PutAll(before, e.updates.value);
    var ops := Updates(rows, e.touched, EscrowLeaf);
    BothReads(isLocked, Spendable(s), s.rows, key);
    BothReads(isLocked, e.balances, rows, key);
    UpdatesNamed(rows, e.touched, key);
    if isLocked(key) {
      PutAllSkips(before, e.updates.value, key);
      if key in e.touched {
        LiveReads(rows, EscrowLeaf, key);
        forall op <- ops
          ensures op.leaf == Lookup(Live(rows, EscrowLeaf), op.key)
        {
          LiveReads(rows, EscrowLeaf, op.key);
        }
        PutAllReads(middle, ops, Live(rows, EscrowLeaf), key);
      } else {
        PutAllSkips(middle, ops, key);
        UntouchedKeepsRow(s, e, key);
      }
    } else {
      PutAllLocal(before, Spendable(s), e.updates.value, key);
      TouchedAreLocked(depth, isLocked, s, e);
      PutAllSkips(middle, ops, key);
    }
  }

  lemma UntouchedKeepsRow(s: Chain, e: Event, key: Key)
    requires e.Apply? && ListsKeys(e.touched, Touched(s.rows + e.locks, |s.spendable|)) && key !in e.touched
    requires forall x <- e.locks :: x.block == |s.spendable|
    ensures LeafNow(s.rows + e.locks, key, EscrowLeaf) == LeafNow(s.rows, key, EscrowLeaf)
  {
    forall x <- e.locks
      ensures x.key != key
    {
      assert x in s.rows + e.locks;
      assert x.key in Touched(s.rows + e.locks, |s.spendable|);
    }
    LatestSame(s.rows, e.locks, key);
  }

  lemma TouchedAreLocked(depth: nat, isLocked: Key -> bool, s: Chain, e: Event)
    requires Separated(depth, isLocked, s) && Valid(depth, isLocked, s, e) && e.Apply?
    ensures forall k <- e.touched :: isLocked(k) && |k| == depth
    ensures forall k <- e.lockKeys :: isLocked(k) && |k| == depth
  {
    var rows := s.rows + e.locks;
    forall k | k in e.touched || k in e.lockKeys
      ensures isLocked(k) && |k| == depth
    {
      var x :| x in rows && x.key == k;
    }
  }

  /** A prior shadow root plus this block's spendable updates and touched locked leaves: the map reached
      is the full leaf set after the block. */
  lemma ThreadedReachesBoth(depth: nat, isLocked: Key -> bool, s: Chain, e: Event)
    requires Separated(depth, isLocked, s) && Valid(depth, isLocked, s, e) && e.Apply? && e.updates.Some?
    ensures var rows := s.rows + e.locks;
            PutAll(Both(Spendable(s), s.rows), e.updates.value + Updates(rows, e.touched, EscrowLeaf))
            == Both(e.balances, rows)
  {
    var rows := s.rows + e.locks;
    var ops := Updates(rows, e.touched, EscrowLeaf);
    var before := Both(Spendable(s), s.rows);
    PutAllConcat(before, e.updates.value, ops);
    forall key
      ensures Lookup(PutAll(PutAll(before, e.updates.value), ops), key) == Lookup(Both(e.balances, rows), key)
    {
      ThreadedReads(depth, isLocked, s, e, key);
    }
    SameLookups(PutAll(PutAll(before, e.updates.value), ops), Both(e.balances, rows));
  }

  /** The full build with locked leaves forced on reaches the combined map, in any key order. */
  lemma FullReachesBoth(isLocked: Key -> bool, balances: map<Key, Hash>, rows: seq<LockRow>, spendKeys: seq<Key>,
                        lockKeys: seq<Key>)
    requires (forall x <- rows :: isLocked(x.key)) && (forall k <- balances :: !isLocked(k))
    requires ListsKeys(spendKeys, balances.Keys) && ListsKeys(lockKeys, AllKeys(rows))
    ensures PutAll(map[], SpendOps(balances, spendKeys) + LiveUpdates(rows, lockKeys, EscrowLeaf)) ==
            Both(balances, rows)
  {
    var spend, lock := SpendOps(balances, spendKeys), LiveUpdates(rows, lockKeys, EscrowLeaf);
    var want := Both(balances, rows);
    PutAllConcat(map[], spend, lock);
    LiveUpdatesMembers(rows, lockKeys, EscrowLeaf);
    forall op: Op | op in spend + lock
      ensures op.leaf == Lookup(want, op.key)
    {
      BothReads(isLocked, balances, rows, op.key);
    }
    forall k | !Names(spend + lock, k)
      ensures Lookup(want, k) == None
    {
      BothReads(isLocked, balances, rows, k);
      if isLocked(k) {
        if LeafNow(rows, k, EscrowLeaf).Some? {
          LiveUpdatesName(rows, lockKeys, EscrowLeaf, k);
          NamesRight(spend, lock, k);
        }
      } else if k in balances {
        SpendNames(balances, spendKeys, k);
        NamesLeft(spend, lock, k);
      }
    }
    PutAllReaches(map[], spend + lock, want);
  }

  lemma SpendNames(balances: map<Key, Hash>, order: seq<Key>, key: Key)
    requires key in order
    ensures Names(SpendOps(balances, order), key)
  {
    var i :| 0 <= i < |order| && order[i] == key;
    assert SpendOps(balances, order)[i] in SpendOps(balances, order);
  }

  lemma NamesLeft(a: seq<Op>, b: seq<Op>, key: Key)
    requires Names(a, key)
    ensures Names(a + b, key)
  {
    var op :| op in a && op.key == key;
    assert op in a + b;
  }

  lemma NamesRight(a: seq<Op>, b: seq<Op>, key: Key)
    requires Names(b, key)
    ensures Names(a + b, key)
  {
    var op :| op in b && op.key == key;
    assert op in a + b;
  }

  // ---------------------------------------------------------------------------
  // Every run
  // ---------------------------------------------------------------------------

  lemma PriorShadowIsBoth(depth: nat, isLocked: Key -> bool, s: Chain)
    requires Inv(depth, isLocked, s) && |s.spendable| - 1 in s.shadow
    ensures Represents(depth, s.nodes, s.shadow[|s.spendable| - 1], Both(Spendable(s), s.rows))
  {
    UpToAll(s.rows, |s.spendable| - 1);
    assert Anchored(depth, s, |s.spendable| - 1, s.shadow[|s.spendable| - 1]);
  }

  lemma ThreadOpsFull(depth: nat, isLocked: Key -> bool, s: Chain, e: Event)
    requires Separated(depth, isLocked, s) && Valid(depth, isLocked, s, e) && e.Apply?
    ensures e.updates.Some? ==> FullOps(depth, e.updates.value + Updates(s.rows + e.locks, e.touched, EscrowLeaf))
    ensures FullOps(depth, RebuildOps(e, s.rows + e.locks))
  {
    TouchedAreLocked(depth, isLocked, s, e);
    LiveUpdatesMembers(s.rows + e.locks, e.lockKeys, EscrowLeaf);
    forall op <- SpendOps(e.balances, e.spendKeys)
      ensures op.key in e.spendKeys
    {
    }
    forall op <- Updates(s.rows + e.locks, e.touched, EscrowLeaf)
      ensures op.key in e.touched
    {
    }
  }

  lemma ThreadsTo(depth: nat, nodes: NodeStore, root: Hash, before: map<Key, Hash>, ops: seq<Op>, after: map<Key, Hash>)
    requires Represents(depth, nodes, root, before) && FullOps(depth, ops) && PutAll(before, ops) == after
    ensures var (grown, next) := Thread(nodes, root, ops);
            Represents(depth, grown, next, after) && Extends(nodes, grown)
  {
    ThreadRefines(depth, nodes, root, before, ops);
  }

  lemma ThreadedIsBoth(depth: nat, isLocked: Key -> bool, s: Chain, e: Event, prior: Hash)
    requires Separated(depth, isLocked, s) && Valid(depth, isLocked, s, e) && e.Apply? && e.updates.Some?
    requires Represents(depth, s.nodes, prior, Both(Spendable(s), s.rows))
    ensures var (nodes, root) := Thread(s.nodes, prior,
                                        e.updates.value + Updates(s.rows + e.locks, e.touched, EscrowLeaf));
            Represents(depth, nodes, root, Both(e.balances, s.rows + e.locks)) && Extends(s.nodes, nodes)
  {
    ThreadOpsFull(depth, isLocked, s, e);
    ThreadedReachesBoth(depth, isLocked, s, e);
    ThreadsTo(depth, s.nodes, prior, Both(Spendable(s), s.rows),
              e.updates.value + Updates(s.rows + e.locks, e.touched, EscrowLeaf), Both(e.balances, s.rows + e.locks));
  }

  lemma RebuiltIsBoth(depth: nat, isLocked: Key -> bool, s: Chain, e: Event)
    requires Separated(depth, isLocked, s) && Valid(depth, isLocked, s, e) && e.Apply? && ContentAddressed(s.nodes)
    ensures var (nodes, root) := Thread(s.nodes, Empty(depth), RebuildOps(e, s.rows + e.locks));
            Represents(depth, nodes, root, Both(e.balances, s.rows + e.locks)) && Extends(s.nodes, nodes)
  {
    ThreadOpsFull(depth, isLocked, s, e);
    EmptyRepresented(depth, s.nodes);
    TouchedAreLocked(depth, isLocked, s, e);
    FullReachesBoth(isLocked, e.balances, s.rows + e.locks, e.spendKeys, e.lockKeys);
    ThreadsTo(depth, s.nodes, Empty(depth), map[], RebuildOps(e, s.rows + e.locks), Both(e.balances, s.rows + e.locks));
  }

  lemma ResolvesTo(depth: nat, s: Chain, e: Event, threaded: (NodeStore, Hash), want: map<Key, Hash>)
    requires e.Apply? && Represents(depth, threaded.0, threaded.1, want) && Extends(s.nodes, threaded.0)
    requires threaded == Resolved(depth, s, e)
    ensures var (nodes, root) := Resolved(depth, s, e);
            Represents(depth, nodes, root, want) && Extends(s.nodes, nodes)
  {
  }

  lemma ResolvedIsBoth(depth: nat, isLocked: Key -> bool, s: Chain, e: Event)
    requires Inv(depth, isLocked, s) && Valid(depth, isLocked, s, e) && e.Apply?
    ensures var (nodes, root) := Resolved(depth, s, e);
            Represents(depth, nodes, root, Both(e.balances, s.rows + e.locks)) && Extends(s.nodes, nodes)
  {
    var want := Both(e.balances, s.rows + e.locks);
    if |s.spendable| - 1 in s.shadow && e.updates.Some? {
      var prior := s.shadow[|s.spendable| - 1];
      PriorShadowIsBoth(depth, isLocked, s);
      ThreadedIsBoth(depth, isLocked, s, e, prior);
      ResolvesTo(depth, s, e, Thread(s.nodes, prior,
                                     e.updates.value + Updates(s.rows + e.locks, e.touched, EscrowLeaf)), want);
    } else {
      RebuiltIsBoth(depth, isLocked, s, e);
      ResolvesTo(depth, s, e, Thread(s.nodes, Empty(depth), RebuildOps(e, s.rows + e.locks)), want);
    }
  }

  lemma ApplyKeepsInv(depth: nat, isLocked: Key -> bool, s: Chain, e: Event)
    requires Inv(depth, isLocked, s) && Valid(depth, isLocked, s, e) && e.Apply?
    ensures Inv(depth, isLocked, Step(depth, s, e))
  {
    var after := Step(depth, s, e);
    if e.active {
      ResolvedIsBoth(depth, isLocked, s, e);
    }
    forall b <- after.shadow
      ensures Anchored(depth, after, b, after.shadow[b])
    {
      if b in s.shadow {
        assert Anchored(depth, s, b, s.shadow[b]);
        UpToAppend(s.rows, e.locks, b);
        HoldsForever(s.nodes, after.nodes, depth, s.shadow[b]);
      } else {
        UpToAll(after.rows, b);
      }
    }
  }

  lemma ReorgKeepsInv(depth: nat, isLocked: Key -> bool, s: Chain, e: Event)
    requires Inv(depth, isLocked, s) && e.Reorg?
    ensures Inv(depth, isLocked, Step(depth, s, e))
  {
    ReorgSeparates(depth, isLocked, s, e);
    var after := Step(depth, s, e);
    forall b <- after.shadow
      ensures Anchored(depth, after, b, after.shadow[b])
    {
      AnchoredAfterReorg(depth, s, e, b);
    }
  }

  lemma ReorgSeparates(depth: nat, isLocked: Key -> bool, s: Chain, e: Event)
    requires Separated(depth, isLocked, s) && e.Reorg?
    ensures Separated(depth, isLocked, Step(depth, s, e))
  {
    UpToMembers(s.rows, e.height - 1);
  }

  lemma AnchoredAfterReorg(depth: nat, s: Chain, e: Event, b: int)
    requires e.Reorg? && b in s.shadow && b < e.height && Anchored(depth, s, b, s.shadow[b])
    ensures Anchored(depth, Step(depth, s, e), b, s.shadow[b])
  {
    UpToTwice(s.rows, e.height - 1, b);
  }

  lemma {:induction false} RunKeepsInv(depth: nat, isLocked: Key -> bool, events: seq<Event>)
    requires ValidRun(depth, isLocked, events)
    ensures Inv(depth, isLocked, Run(depth, events))
  {
    if events != [] {
      var n := |events| - 1;
      assert forall i :: 0 <= i < n ==> events[..n][..i] == events[..i];
      RunKeepsInv(depth, isLocked, events[..n]);
      if events[n].Apply? {
        ApplyKeepsInv(depth, isLocked, Run(depth, events[..n]), events[n]);
      } else {
        ReorgKeepsInv(depth, isLocked, Run(depth, events[..n]), events[n]);
      }
    }
  }

  /** A full build from the empty tree, over any store, commits the combined map. */
  lemma FullBuildCommitsBoth(depth: nat, isLocked: Key -> bool, nodes: NodeStore, balances: map<Key, Hash>,
                             rows: seq<LockRow>,
                             spendKeys: seq<Key>, lockKeys: seq<Key>)
    requires ContentAddressed(nodes)
    requires (forall x <- rows :: isLocked(x.key) && |x.key| == depth)
    requires (forall k <- balances :: !isLocked(k) && |k| == depth)
    requires ListsKeys(spendKeys, balances.Keys) && ListsKeys(lockKeys, AllKeys(rows))
    ensures Thread(nodes, Empty(depth), SpendOps(balances, spendKeys) + LiveUpdates(rows, lockKeys, EscrowLeaf)).1
            == Root(depth, Both(balances, rows))
  {
    LiveUpdatesMembers(rows, lockKeys, EscrowLeaf);
    forall op <- SpendOps(balances, spendKeys)
      ensures op.key in spendKeys
    {
    }
    EmptyRepresented(depth, nodes);
    FullReachesBoth(isLocked, balances, rows, spendKeys, lockKeys);
    ThreadsTo(depth, nodes, Empty(depth), map[],
              SpendOps(balances, spendKeys) + LiveUpdates(rows, lockKeys, EscrowLeaf), Both(balances, rows));
  }

  /** At every surviving height of every run, the shadow root is the root of spendable leaves plus live
      locked leaves, and is the root a full build threads for that height, whatever order the queries list the
      keys in. */
  lemma ShadowRootIsFullBuild(depth: nat, isLocked: Key -> bool, events: seq<Event>, block: int, spendKeys: seq<Key>,
                              lockKeys: seq<Key>)
    requires ValidRun(depth, isLocked, events) && block in Run(depth, events).shadow
    ensures var s := Run(depth, events);
            && 0 <= block < |s.spendable|
            && s.shadow[block] == Root(depth, Both(s.spendable[block], UpTo(s.rows, block)))
            && (ListsKeys(spendKeys, s.spendable[block].Keys) && ListsKeys(lockKeys, AllKeys(UpTo(s.rows, block))) ==>
                  s.shadow[block] == Thread(s.nodes, Empty(depth),
                    SpendOps(s.spendable[block], spendKeys) + LiveUpdates(UpTo(s.rows, block), lockKeys, EscrowLeaf)).1)
  {
    RunKeepsInv(depth, isLocked, events);
    var s := Run(depth, events);
    assert Anchored(depth, s, block, s.shadow[block]);
    UpToMembers(s.rows, block);
    if ListsKeys(spendKeys, s.spendable[block].Keys) && ListsKeys(lockKeys, AllKeys(UpTo(s.rows, block))) {
      FullBuildCommitsBoth(depth, isLocked, s.nodes, s.spendable[block], UpTo(s.rows, block), spendKeys, lockKeys);
    }
  }

  /** Each key of that root is decided by its own domain: a spendable key by the balances of its block, a locked
      key by its newest total, which has no leaf when NULL, blank or zero and can be read back otherwise. */
  lemma ShadowRootReads(depth: nat, isLocked: Key -> bool, events: seq<Event>, block: int, key: Key, n: nat)
    requires ValidRun(depth, isLocked, events) && block in Run(depth, events).shadow && n > 0
    ensures var s := Run(depth, events);
            && 0 <= block < |s.spendable|
            && var both, rows := Both(s.spendable[block], UpTo(s.rows, block)), UpTo(s.rows, block);
               && s.shadow[block] == Root(depth, both)
               && (!isLocked(key) ==> Lookup(both, key) == Lookup(s.spendable[block], key))
               && (isLocked(key) ==> (key !in both <==> Released(rows, key)))
               && (isLocked(key) ==>
                     (HeldNow(rows, key) == Some(Amount(n)) <==>
                      key in both && both[key].LeafHash? && Reading(both[key].text) == n))
  {
    RunKeepsInv(depth, isLocked, events);
    var s := Run(depth, events);
    assert Anchored(depth, s, block, s.shadow[block]);
    var rows := UpTo(s.rows, block);
    UpToMembers(s.rows, block);
    BothReads(isLocked, s.spendable[block], rows, key);
    if isLocked(key) {
      NeverRefused(depth, isLocked, events, rows, key);
      LockedKeyReads(isLocked, s.spendable[block], rows, key, n);
    }
  }

  ghost predicate NoneNegative(rows: seq<LockRow>) {
    forall x <- rows :: !Negative(x.value)
  }

  lemma NeverRefused(depth: nat, isLocked: Key -> bool, events: seq<Event>, rows: seq<LockRow>, key: Key)
    requires ValidRun(depth, isLocked, events) && forall x <- rows :: x in Run(depth, events).rows
    ensures !Refused(rows, key)
  {
    RunNeverNegative(depth, isLocked, events);
    LatestIsMaxId(rows, key);
  }

  lemma {:induction false} RunNeverNegative(depth: nat, isLocked: Key -> bool, events: seq<Event>)
    requires ValidRun(depth, isLocked, events)
    ensures NoneNegative(Run(depth, events).rows)
  {
    if events != [] {
      var n := |events| - 1;
      assert forall i :: 0 <= i < n ==> events[..n][..i] == events[..i];
      RunNeverNegative(depth, isLocked, events[..n]);
      StepNeverNegative(depth, isLocked, Run(depth, events[..n]), events[n], Run(depth, events));
    }
  }

  lemma StepNeverNegative(depth: nat, isLocked: Key -> bool, s: Chain, e: Event, t: Chain)
    requires Valid(depth, isLocked, s, e) && NoneNegative(s.rows) && t == Step(depth, s, e)
    ensures NoneNegative(t.rows)
  {
    if e.Reorg? {
      UpToMembers(s.rows, e.height - 1);
    } else {
      BlockBrings(depth, s, e);
    }
  }

  /** A block appends its rows and its balances, and stores a shadow root under its own height if it is active. */
  lemma BlockBrings(depth: nat, s: Chain, e: Event)
    requires e.Apply?
    ensures var t := Step(depth, s, e);
            && t.rows == s.rows + e.locks && t.spendable == s.spendable + [e.balances]
            && t.shadow.Keys == s.shadow.Keys + (if e.active then {|s.spendable|} else {})
            && forall b <- s.shadow :: b != |s.spendable| ==> t.shadow[b] == s.shadow[b]
  {
  }

  // ---------------------------------------------------------------------------
  // Which blocks have a shadow root
  // ---------------------------------------------------------------------------

  /** The blocks still standing after a run, in order of height. */
  ghost function Standing(events: seq<Event>): seq<Event> {
    if events == [] then []
    else
      var n := |events| - 1;
      var before := Standing(events[..n]);
      match events[n]
      case Reorg(height) => if height <= |before| then before[..height] else before
      case Apply(_, _, _, _, _, _, _) => before + [events[n]]
  }

  ghost function Locks(blocks: seq<Event>): seq<LockRow> {
    if blocks == [] then []
    else
      var n := |blocks| - 1;
      Locks(blocks[..n]) + (if blocks[n].Apply? then blocks[n].locks else [])
  }

  /** The chain holds what the blocks brought: their balances, their locked rows under their own heights, and a
      shadow root for exactly the active ones. */
  ghost predicate Holding(s: Chain, blocks: seq<Event>) {
    && |s.spendable| == |blocks|
    && (forall i :: 0 <= i < |blocks| ==> blocks[i].Apply? && s.spendable[i] == blocks[i].balances)
    && (forall i :: 0 <= i < |blocks| ==> forall x <- blocks[i].locks :: x.block == i)
    && s.rows == Locks(blocks)
    && forall b :: b in s.shadow <==> 0 <= b < |blocks| && blocks[b].active
  }

  lemma {:induction false} LocksBelow(blocks: seq<Event>, height: nat)
    requires height <= |blocks|
    requires forall i :: 0 <= i < |blocks| ==> blocks[i].Apply? && forall x <- blocks[i].locks :: x.block == i
    ensures UpTo(Locks(blocks), height - 1) == Locks(blocks[..height])
    decreases |blocks|
  {
    var n := |blocks| - 1;
    if height == |blocks| {
      assert blocks[..height] == blocks;
      LocksStamped(blocks);
      UpToAll(Locks(blocks), height - 1);
    } else {
      LocksBelow(blocks[..n], height);
      assert blocks[..n][..height] == blocks[..height];
      UpToAppend(Locks(blocks[..n]), blocks[n].locks, height - 1);
    }
  }

  lemma {:induction false} LocksStamped(blocks: seq<Event>)
    requires forall i :: 0 <= i < |blocks| ==> blocks[i].Apply? && forall x <- blocks[i].locks :: x.block == i
    ensures forall x <- Locks(blocks) :: x.block < |blocks|
  {
    if blocks != [] {
      LocksStamped(blocks[..|blocks| - 1]);
    }
  }

  lemma ApplyHolds(depth: nat, isLocked: Key -> bool, s: Chain, e: Event, blocks: seq<Event>)
    requires Valid(depth, isLocked, s, e) && e.Apply? && Holding(s, blocks)
    ensures Holding(Step(depth, s, e), blocks + [e])
  {
    BlockBrings(depth, s, e);
    HoldingGrows(s, Step(depth, s, e), e, blocks);
  }

  lemma HoldingGrows(s: Chain, t: Chain, e: Event, blocks: seq<Event>)
    requires e.Apply? && Holding(s, blocks) && forall x <- e.locks :: x.block == |s.spendable|
    requires t.rows == s.rows + e.locks && t.spendable == s.spendable + [e.balances]
    requires t.shadow.Keys == s.shadow.Keys + (if e.active then {|s.spendable|} else {})
    ensures Holding(t, blocks + [e])
  {
    assert (blocks + [e])[..|blocks|] == blocks;
  }

  lemma ReorgLeaves(depth: nat, s: Chain, e: Event)
    requires e.Reorg?
    ensures var t := Step(depth, s, e);
            && t.rows == UpTo(s.rows, e.height - 1)
            && t.spendable == (if e.height <= |s.spendable| then s.spendable[..e.height] else s.spendable)
            && (forall b :: b in t.shadow <==> b in s.shadow && b < e.height)
            && forall b <- t.shadow :: t.shadow[b] == s.shadow[b]
  {
  }

  lemma ReorgHolds(depth: nat, s: Chain, e: Event, blocks: seq<Event>)
    requires e.Reorg? && Holding(s, blocks)
    ensures Holding(Step(depth, s, e), if e.height <= |blocks| then blocks[..e.height] else blocks)
  {
    ReorgLeaves(depth, s, e);
    if e.height <= |blocks| {
      LocksBelow(blocks, e.height);
      HoldingShrinks(s, Step(depth, s, e), e.height, blocks);
    } else {
      HoldingAll(s, Step(depth, s, e), e.height, blocks);
    }
  }

  lemma HoldingAll(s: Chain, t: Chain, height: nat, blocks: seq<Event>)
    requires Holding(s, blocks) && height > |blocks|
    requires t.rows == UpTo(s.rows, height - 1) && t.spendable == s.spendable
    requires forall b :: b in t.shadow <==> b in s.shadow && b < height
    ensures Holding(t, blocks)
  {
    LocksStamped(blocks);
    UpToAll(s.rows, height - 1);
  }

  lemma HoldingShrinks(s: Chain, t: Chain, height: nat, blocks: seq<Event>)
    requires Holding(s, blocks) && height <= |blocks|
    requires t.rows == Locks(blocks[..height]) && t.spendable == s.spendable[..height]
    requires forall b :: b in t.shadow <==> b in s.shadow && b < height
    ensures Holding(t, blocks[..height])
  {
  }

  /** After any run the chain holds exactly the standing blocks: their rows and balances, and a shadow root for
      each block that stands and was computed, and for no other. */
  lemma {:induction false} StandingBlocksHaveShadowRoots(depth: nat, isLocked: Key -> bool, events: seq<Event>)
    requires ValidRun(depth, isLocked, events)
    ensures Holding(Run(depth, events), Standing(events))
  {
    if events != [] {
      var n := |events| - 1;
      assert forall i :: 0 <= i < n ==> events[..n][..i] == events[..i];
      StandingBlocksHaveShadowRoots(depth, isLocked, events[..n]);
      if events[n].Apply? {
        ApplyHolds(depth, isLocked, Run(depth, events[..n]), events[n], Standing(events[..n]));
      } else {
        ReorgHolds(depth, Run(depth, events[..n]), events[n], Standing(events[..n]));
      }
    }
  }
}
