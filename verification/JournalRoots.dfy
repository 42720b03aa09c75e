/** Roots threaded block by block over an append-only journal, shared by the contract-state
    and locked-balance derivations. A row carries the SMT key its identity derives. */
module JournalRoots {
  import opened Hashing
  import opened SparseMerkle
  import opened PersistentSmt

  datatype Row<V> = Row(id: nat, block: nat, key: Key, value: V)

  // ---------------------------------------------------------------------------
  // Latest row per key
  // ---------------------------------------------------------------------------

  /** The row with the highest id among a key's rows. */
  function Latest<V(!new)>(rows: seq<Row<V>>, key: Key): Option<Row<V>> {
    if rows == [] then None
    else
      var n := |rows| - 1;
      var before := Latest(rows[..n], key);
      if rows[n].key == key && (before.None? || before.value.id < rows[n].id) then Some(rows[n]) else before
  }

  lemma {:induction false} LatestIsMaxId<V(!new)>(rows: seq<Row<V>>, key: Key)
    ensures var r := Latest(rows, key);
            && (r.Some? ==> r.value in rows && r.value.key == key)
            && (r.Some? ==> forall x {:trigger x in rows} :: x in rows && x.key == key ==> x.id <= r.value.id)
            && (r.None? ==> forall x {:trigger x in rows} :: x in rows ==> x.key != key)
  {
    if rows != [] {
      LatestIsMaxId(rows[..|rows| - 1], key);
      assert rows == rows[..|rows| - 1] + [rows[|rows| - 1]];
    }
  }

  /** The rows of blocks at or below one height, in journal order. */
  function UpTo<V(!new)>(rows: seq<Row<V>>, block: int): seq<Row<V>> {
    if rows == [] then []
    else
      var n := |rows| - 1;
      var before := UpTo(rows[..n], block);
      if rows[n].block <= block then before + [rows[n]] else before
  }

  lemma {:induction false} UpToMembers<V(!new)>(rows: seq<Row<V>>, block: int)
    ensures forall x :: x in UpTo(rows, block) <==> x in rows && x.block <= block
  {
    if rows != [] {
      UpToMembers(rows[..|rows| - 1], block);
      assert rows == rows[..|rows| - 1] + [rows[|rows| - 1]];
    }
  }

  lemma {:induction false} UpToAll<V(!new)>(rows: seq<Row<V>>, block: int)
    requires forall x <- rows :: x.block <= block
    ensures UpTo(rows, block) == rows
  {
    if rows != [] {
      UpToAll(rows[..|rows| - 1], block);
    }
  }

  lemma {:induction false} UpToTwice<V(!new)>(rows: seq<Row<V>>, high: int, low: int)
    requires low <= high
    ensures UpTo(UpTo(rows, high), low) == UpTo(rows, low)
  {
    if rows != [] {
      var n := |rows| - 1;
      UpToTwice(rows[..n], high, low);
      if rows[n].block <= high {
        var before := UpTo(rows[..n], high);
        assert (before + [rows[n]])[..|before|] == before;
      }
    }
  }

  lemma {:induction false} UpToAppend<V(!new)>(rows: seq<Row<V>>, more: seq<Row<V>>, block: int)
    requires forall x <- more :: x.block > block
    ensures UpTo(rows + more, block) == UpTo(rows, block)
  {
    if more == [] {
      assert rows + more == rows;
    } else {
      var n := |more| - 1;
      assert (rows + more)[..|rows| + n] == rows + more[..n];
      UpToAppend(rows, more[..n], block);
    }
  }

  /** The leaf a key commits now: the newest row decides, a tombstone included. */
  ghost function LeafNow<V(!new)>(rows: seq<Row<V>>, key: Key, leafOf: V -> Option<Hash>): Option<Hash> {
    var latest := Latest(rows, key);
    if latest.Some? then leafOf(latest.value.value) else None
  }

  ghost function AllKeys<V(!new)>(rows: seq<Row<V>>): set<Key> {
    set x <- rows :: x.key
  }

  /** The live key-to-leaf map: one leaf per key whose newest row is not a tombstone. */
  ghost function Live<V(!new)>(rows: seq<Row<V>>, leafOf: V -> Option<Hash>): map<Key, Hash> {
    if rows == [] then map[]
    else
      var n := |rows| - 1;
      Put(Live(rows[..n], leafOf), rows[n].key, LeafNow(rows, rows[n].key, leafOf))
  }

  lemma {:induction false} LiveReads<V(!new)>(rows: seq<Row<V>>, leafOf: V -> Option<Hash>, key: Key)
    ensures Lookup(Live(rows, leafOf), key) == LeafNow(rows, key, leafOf)
  {
    if rows != [] {
      LiveReads(rows[..|rows| - 1], leafOf, key);
    }
  }

  lemma {:induction false} LatestSame<V(!new)>(rows: seq<Row<V>>, more: seq<Row<V>>, key: Key)
    requires forall x <- more :: x.key != key
    ensures Latest(rows + more, key) == Latest(rows, key)
  {
    if more == [] {
      assert rows + more == rows;
    } else {
      var n := |more| - 1;
      assert (rows + more)[..|rows| + n] == rows + more[..n];
      LatestSame(rows, more[..n], key);
    }
  }

  /** With ids growing in append order the newest row is the last one written, so `Live` is the
      state left by replaying the writes in order. */
  ghost function Replayed<V(!new)>(rows: seq<Row<V>>, leafOf: V -> Option<Hash>): map<Key, Hash> {
    if rows == [] then map[]
    else
      var n := |rows| - 1;
      Put(Replayed(rows[..n], leafOf), rows[n].key, leafOf(rows[n].value))
  }

  ghost predicate Ascending<V(!new)>(rows: seq<Row<V>>) {
    forall i, j :: 0 <= i < j < |rows| ==> rows[i].id < rows[j].id
  }

  lemma {:induction false} LiveIsReplay<V(!new)>(rows: seq<Row<V>>, leafOf: V -> Option<Hash>)
    requires Ascending(rows)
    ensures Live(rows, leafOf) == Replayed(rows, leafOf)
  {
    var a, b := Live(rows, leafOf), Replayed(rows, leafOf);
    if rows != [] {
      var n := |rows| - 1;
      LiveIsReplay(rows[..n], leafOf);
      var c := Live(rows[..n], leafOf);
      forall k
        ensures Lookup(a, k) == Lookup(b, k)
      {
        LiveReads(rows, leafOf, k);
        LiveReads(rows[..n], leafOf, k);
        LatestIsMaxId(rows[..n], k);
      }
    }
    SameLookups(a, b);
  }

  lemma SameLookups(a: map<Key, Hash>, b: map<Key, Hash>)
    requires forall k :: Lookup(a, k) == Lookup(b, k)
    ensures a == b
  {
    forall k
      ensures k in a <==> k in b
      ensures k in a ==> a[k] == b[k]
    {
      assert Lookup(a, k) == Lookup(b, k);
    }
    assert a.Keys == b.Keys;
  }

  // ---------------------------------------------------------------------------
  // Threading a list of updates
  // ---------------------------------------------------------------------------

  ghost function Thread(store: NodeStore, root: Hash, ops: seq<Op>): (NodeStore, Hash) {
    if ops == [] then (store, root)
    else
      var n := |ops| - 1;
      var (s, r) := Thread(store, root, ops[..n]);
      Updated(s, r, ops[n].key, ops[n].leaf)
  }

  ghost function PutAll(m: map<Key, Hash>, ops: seq<Op>): map<Key, Hash> {
    if ops == [] then m
    else
      var n := |ops| - 1;
      Put(PutAll(m, ops[..n]), ops[n].key, ops[n].leaf)
  }

  /** Threading a root through updates is applying them to the map it stands for. */
  lemma {:induction false} ThreadRefines(depth: nat, store: NodeStore, root: Hash, m: map<Key, Hash>, ops: seq<Op>)
    requires Represents(depth, store, root, m) && FullOps(depth, ops)
    ensures Represents(depth, Thread(store, root, ops).0, Thread(store, root, ops).1, PutAll(m, ops))
    ensures Extends(store, Thread(store, root, ops).0)
  {
    if ops != [] {
      var n := |ops| - 1;
      ThreadRefines(depth, store, root, m, ops[..n]);
      var (s, r) := Thread(store, root, ops[..n]);
      UpdateRefines(depth, s, r, PutAll(m, ops[..n]), ops[n].key, ops[n].leaf);
    }
  }

  ghost predicate Names(ops: seq<Op>, key: Key) {
    exists op <- ops :: op.key == key
  }

  /** When every update of a key carries the same leaf, order and repetition do not matter. */
  lemma {:induction false} PutAllReads(m: map<Key, Hash>, ops: seq<Op>, want: map<Key, Hash>, key: Key)
    requires forall op <- ops :: op.leaf == Lookup(want, op.key)
    ensures Lookup(PutAll(m, ops), key) == if Names(ops, key) then Lookup(want, key) else Lookup(m, key)
  {
    if ops != [] {
      var n := |ops| - 1;
      assert ops == ops[..n] + [ops[n]];
      PutAllReads(m, ops[..n], want, key);
      assert Names(ops, key) <==> Names(ops[..n], key) || ops[n].key == key;
    }
  }

  lemma PutAllReaches(m: map<Key, Hash>, ops: seq<Op>, want: map<Key, Hash>)
    requires forall op <- ops :: op.leaf == Lookup(want, op.key)
    requires forall k :: !Names(ops, k) ==> Lookup(m, k) == Lookup(want, k)
    ensures PutAll(m, ops) == want
  {
    forall k
      ensures Lookup(PutAll(m, ops), k) == Lookup(want, k)
    {
      PutAllReads(m, ops, want, k);
    }
    SameLookups(PutAll(m, ops), want);
  }

  // ---------------------------------------------------------------------------
  // One block's updates and the full build
  // ---------------------------------------------------------------------------

  /** The keys as some query may list them: exactly this set, in any order. */
  ghost predicate ListsKeys(order: seq<Key>, keys: set<Key>) {
    forall k :: k in order <==> k in keys
  }

  ghost function Touched<V(!new)>(rows: seq<Row<V>>, block: nat): set<Key> {
    set x <- rows | x.block == block :: x.key
  }

  /** One update per listed key, with the leaf it commits now. */
  ghost function Updates<V(!new)>(rows: seq<Row<V>>, order: seq<Key>, leafOf: V -> Option<Hash>): seq<Op> {
    seq(|order|, i requires 0 <= i < |order| => Op(order[i], LeafNow(rows, order[i], leafOf)))
  }

  /** The full build skips keys with no leaf instead of deleting them. */
  ghost function LiveUpdates<V(!new)>(rows: seq<Row<V>>, order: seq<Key>, leafOf: V -> Option<Hash>): seq<Op> {
    if order == [] then []
    else
      var n := |order| - 1;
      var leaf := LeafNow(rows, order[n], leafOf);
      LiveUpdates(rows, order[..n], leafOf) + (if leaf.Some? then [Op(order[n], leaf)] else [])
  }

  lemma {:induction false} LiveUpdatesMembers<V(!new)>(rows: seq<Row<V>>, order: seq<Key>, leafOf: V -> Option<Hash>)
    ensures forall op :: op in LiveUpdates(rows, order, leafOf) <==>
              op.key in order && op.leaf == LeafNow(rows, op.key, leafOf) && op.leaf.Some?
  {
    if order != [] {
      LiveUpdatesMembers(rows, order[..|order| - 1], leafOf);
      assert order == order[..|order| - 1] + [order[|order| - 1]];
    }
  }

  lemma UpdatesName<V(!new)>(rows: seq<Row<V>>, order: seq<Key>, leafOf: V -> Option<Hash>, key: Key)
    requires key in order
    ensures Names(Updates(rows, order, leafOf), key)
  {
    var i :| 0 <= i < |order| && order[i] == key;
    assert Updates(rows, order, leafOf)[i] in Updates(rows, order, leafOf);
  }

  lemma LiveUpdatesName<V(!new)>(rows: seq<Row<V>>, order: seq<Key>, leafOf: V -> Option<Hash>, key: Key)
    requires ListsKeys(order, AllKeys(rows)) && LeafNow(rows, key, leafOf).Some?
    ensures Names(LiveUpdates(rows, order, leafOf), key)
  {
    LatestIsMaxId(rows, key);
    LiveUpdatesMembers(rows, order, leafOf);
    assert key in AllKeys(rows);
    assert Op(key, LeafNow(rows, key, leafOf)) in LiveUpdates(rows, order, leafOf);
  }

  /** Applying a block's touched keys to the prior live map gives the live map after the block,
      with no key-by-key undo list: untouched keys keep their newest row. */
  lemma TouchedUpdatesReachLive<V(!new)>(rows: seq<Row<V>>, more: seq<Row<V>>, block: nat, order: seq<Key>,
                                   leafOf: V -> Option<Hash>)
    requires forall x <- rows :: x.block < block
    requires forall x <- more :: x.block == block
    requires ListsKeys(order, Touched(rows + more, block))
    ensures PutAll(Live(rows, leafOf), Updates(rows + more, order, leafOf)) == Live(rows + more, leafOf)
  {
    var ops, after := Updates(rows + more, order, leafOf), Live(rows + more, leafOf);
    forall k | !Names(ops, k)
      ensures Lookup(Live(rows, leafOf), k) == Lookup(after, k)
    {
      if k in order {
        UpdatesName(rows + more, order, leafOf, k);
      }
      forall x <- more
        ensures x.key != k
      {
        assert x in rows + more;
        assert x.key in Touched(rows + more, block);
      }
      LatestSame(rows, more, k);
      LiveReads(rows, leafOf, k);
      LiveReads(rows + more, leafOf, k);
    }
    forall op <- ops
      ensures op.leaf == Lookup(after, op.key)
    {
      LiveReads(rows + more, leafOf, op.key);
    }
    PutAllReaches(Live(rows, leafOf), ops, after);
  }

  lemma FullBuildReachesLive<V(!new)>(rows: seq<Row<V>>, order: seq<Key>, leafOf: V -> Option<Hash>)
    requires ListsKeys(order, AllKeys(rows))
    ensures PutAll(map[], LiveUpdates(rows, order, leafOf)) == Live(rows, leafOf)
  {
    var ops, want := LiveUpdates(rows, order, leafOf), Live(rows, leafOf);
    forall k | !Names(ops, k)
      ensures Lookup(want, k) == None
    {
      if LeafNow(rows, k, leafOf).Some? {
        LiveUpdatesName(rows, order, leafOf, k);
      }
      LiveReads(rows, leafOf, k);
    }
    LiveUpdatesMembers(rows, order, leafOf);
    forall op <- ops
      ensures op.leaf == Lookup(want, op.key)
    {
      LiveReads(rows, leafOf, op.key);
    }
    PutAllReaches(map[], ops, want);
  }

  lemma UpdatesFull<V(!new)>(depth: nat, rows: seq<Row<V>>, order: seq<Key>, leafOf: V -> Option<Hash>)
    requires forall x <- rows :: |x.key| == depth
    requires forall k <- order :: k in AllKeys(rows)
    ensures FullOps(depth, Updates(rows, order, leafOf)) && FullOps(depth, LiveUpdates(rows, order, leafOf))
  {
    forall k <- order
      ensures |k| == depth
    {
      var x :| x in rows && x.key == k;
    }
    LiveUpdatesMembers(rows, order, leafOf);
    forall op <- Updates(rows, order, leafOf)
      ensures op.key in order
    {
    }
  }

  /** Threading one block's touched keys carries a represented root to the live map after it. */
  lemma ThreadBlock<V(!new)>(depth: nat, nodes: NodeStore, root: Hash, rows: seq<Row<V>>, more: seq<Row<V>>,
                             block: nat, touched: seq<Key>, leafOf: V -> Option<Hash>)
    requires Represents(depth, nodes, root, Live(rows, leafOf))
    requires forall x <- rows :: x.block < block
    requires forall x <- more :: x.block == block
    requires forall x <- rows + more :: |x.key| == depth
    requires ListsKeys(touched, Touched(rows + more, block))
    ensures var (after, top) := Thread(nodes, root, Updates(rows + more, touched, leafOf));
            Represents(depth, after, top, Live(rows + more, leafOf)) && Extends(nodes, after)
  {
    UpdatesFull(depth, rows + more, touched, leafOf);
    ThreadRefines(depth, nodes, root, Live(rows, leafOf), Updates(rows + more, touched, leafOf));
    TouchedUpdatesReachLive(rows, more, block, touched, leafOf);
  }

  /** The full build over the newest row per key reaches the live map from the empty root. */
  lemma BuildFull<V(!new)>(depth: nat, nodes: NodeStore, rows: seq<Row<V>>, all: seq<Key>, leafOf: V -> Option<Hash>)
    requires ContentAddressed(nodes)
    requires forall x <- rows :: |x.key| == depth
    requires ListsKeys(all, AllKeys(rows))
    ensures var (after, top) := Thread(nodes, Empty(depth), LiveUpdates(rows, all, leafOf));
            Represents(depth, after, top, Live(rows, leafOf)) && Extends(nodes, after)
  {
    EmptyRepresented(depth, nodes);
    UpdatesFull(depth, rows, all, leafOf);
    ThreadRefines(depth, nodes, Empty(depth), map[], LiveUpdates(rows, all, leafOf));
    FullBuildReachesLive(rows, all, leafOf);
  }

  lemma {:induction false} UpToAscending<V(!new)>(rows: seq<Row<V>>, block: int)
    requires Ascending(rows)
    ensures Ascending(UpTo(rows, block))
  {
    if rows != [] {
      var n := |rows| - 1;
      UpToAscending(rows[..n], block);
      UpToMembers(rows[..n], block);
      forall x <- UpTo(rows[..n], block)
        ensures x.id < rows[n].id
      {
        assert x in rows[..n];
      }
    }
  }

  lemma UpdatesExtend<V(!new)>(rows: seq<Row<V>>, order: seq<Key>, leafOf: V -> Option<Hash>, i: nat)
    requires i < |order|
    ensures Updates(rows, order[..i + 1], leafOf)
            == Updates(rows, order[..i], leafOf) + [Op(order[i], LeafNow(rows, order[i], leafOf))]
    ensures LiveUpdates(rows, order[..i + 1], leafOf)
            == LiveUpdates(rows, order[..i], leafOf)
               + (if LeafNow(rows, order[i], leafOf).Some? then [Op(order[i], LeafNow(rows, order[i], leafOf))] else [])
  {
    assert order[..i + 1][..i] == order[..i];
  }

  lemma ThreadLast(store: NodeStore, root: Hash, ops: seq<Op>, op: Op)
    ensures Thread(store, root, ops + [op])
            == Updated(Thread(store, root, ops).0, Thread(store, root, ops).1, op.key, op.leaf)
  {
    assert (ops + [op])[..|ops|] == ops;
  }

  /** The next listed key's update extends the thread by one. */
  lemma ThreadNext<V(!new)>(store: NodeStore, root: Hash, rows: seq<Row<V>>, order: seq<Key>,
                            leafOf: V -> Option<Hash>, i: nat)
    requires i < |order|
    ensures var (s, r) := Thread(store, root, Updates(rows, order[..i], leafOf));
            Thread(store, root, Updates(rows, order[..i + 1], leafOf))
            == Updated(s, r, order[i], LeafNow(rows, order[i], leafOf))
  {
    UpdatesExtend(rows, order, leafOf, i);
    ThreadLast(store, root, Updates(rows, order[..i], leafOf), Op(order[i], LeafNow(rows, order[i], leafOf)));
  }
}
