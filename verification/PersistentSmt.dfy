/** The persistent sparse Merkle engine: a content-addressed, copy-on-write node store in
    which a missing row reads as an empty subtree (`PersistentSMT.descend` and `update`). */
module PersistentSmt {
  import opened Hashing
  import opened SparseMerkle

  type NodeStore = map<Hash, (Hash, Hash)>

  datatype Descent = Descent(siblings: seq<Hash>, leaf: Hash)

  /** Every row is filed under the hash of its own children. */
  ghost predicate ContentAddressed(store: NodeStore) {
    forall h <- store :: h == NodeHash(store[h].0, store[h].1)
  }

  /** The store carries a whole subtree: every non-empty node of it has a row. */
  ghost predicate Holds(store: NodeStore, height: nat, node: Hash) {
    height == 0 ||
    (&& node.NodeHash?
     && (node in store || node == Empty(height))
     && Holds(store, height - 1, node.left)
     && Holds(store, height - 1, node.right))
  }

  /** A root in the store stands for a key-to-leaf map. */
  ghost predicate Represents(depth: nat, store: NodeStore, root: Hash, m: map<Key, Hash>) {
    ContentAddressed(store) && root == Root(depth, m) && Holds(store, depth, root)
  }

  ghost predicate Extends(store: NodeStore, later: NodeStore) {
    forall h <- store :: h in later && later[h] == store[h]
  }

  /** Copy-on-write: a store that only grew still holds every root it held, so the root rows
      that survive a reorg keep anchoring complete trees. */
  lemma {:induction false} HoldsForever(store: NodeStore, later: NodeStore, height: nat, node: Hash)
    requires Extends(store, later) && Holds(store, height, node)
    ensures Holds(later, height, node)
    decreases height
  {
    if height > 0 {
      HoldsForever(store, later, height - 1, node.left);
      HoldsForever(store, later, height - 1, node.right);
    }
  }

  lemma {:induction false} HoldsEmpty(store: NodeStore, height: nat)
    ensures Holds(store, height, Empty(height))
  {
    if height > 0 {
      HoldsEmpty(store, height - 1);
    }
  }

  lemma EmptyRepresented(depth: nat, store: NodeStore)
    requires ContentAddressed(store)
    ensures Represents(depth, store, Empty(depth), map[])
  {
    HoldsEmpty(store, depth);
    EmptyTree(depth, map[], []);
  }

  // ---------------------------------------------------------------------------
  // Descend
  // ---------------------------------------------------------------------------

  /** The walk down from `cur` (None once a row was missing). */
  ghost function Walk(store: NodeStore, cur: Option<Hash>, key: Key, at: nat): (d: Descent)
    requires at <= |key|
    ensures |d.siblings| == |key| - at
    decreases |key| - at
  {
    if at == |key| then Descent([], LeafOrEmpty(cur))
    else if cur.None? || cur.value !in store then
      var below := Walk(store, None, key, at + 1);
      Descent([Empty(|key| - 1 - at)] + below.siblings, below.leaf)
    else
      var (left, right) := store[cur.value];
      var below := Walk(store, Some(if key[at] then right else left), key, at + 1);
      Descent([if key[at] then left else right] + below.siblings, below.leaf)
  }

  /** The rest of a walk, under the siblings read so far. */
  ghost function Below(siblings: seq<Hash>, d: Descent): Descent {
    Descent(siblings + d.siblings, d.leaf)
  }

  lemma WalkStep(store: NodeStore, cur: Option<Hash>, key: Key, at: nat, siblings: seq<Hash>)
    requires at < |key|
    ensures Below(siblings, Walk(store, cur, key, at)) ==
              if cur.None? || cur.value !in store
              then Below(siblings + [Empty(|key| - 1 - at)], Walk(store, None, key, at + 1))
              else Below(siblings + [if key[at] then store[cur.value].0 else store[cur.value].1],
                         Walk(store, Some(if key[at] then store[cur.value].1 else store[cur.value].0), key, at + 1))
  {
  }

  /** On a represented root the walk reads the tree's own siblings and the held leaf. */
  lemma {:induction false} WalkReadsTree(depth: nat, store: NodeStore, m: map<Key, Hash>, cur: Option<Hash>, key: Key,
                                         at: nat)
    requires |key| == depth && at <= depth && ContentAddressed(store)
    requires cur.Some? ==> cur.value == Tree(depth, m, key[..at]) && Holds(store, depth - at, cur.value)
    requires cur.None? ==> Tree(depth, m, key[..at]) == Empty(depth - at)
    ensures Walk(store, cur, key, at) == Descent(Siblings(depth, m, key)[at..], LeafAt(m, key))
    decreases depth - at
  {
    var all := Siblings(depth, m, key);
    if at == depth {
      assert key[..at] == key;
    } else {
      assert key[..at + 1] == key[..at] + [key[at]];
      assert all[at] == SiblingAt(depth, m, key, at);
      assert all[at..] == [all[at]] + all[at + 1..];
      if cur.None? || cur.value !in store {
        WalkReadsTree(depth, store, m, None, key, at + 1);
      } else {
        var (left, right) := store[cur.value];
        WalkReadsTree(depth, store, m, Some(if key[at] then right else left), key, at + 1);
      }
    }
  }

  // ---------------------------------------------------------------------------
  // Update
  // ---------------------------------------------------------------------------

  /** INSERT IGNORE of one path node; an all-empty subtree gets no row. */
  function PutNode(store: NodeStore, height: nat, left: Hash, right: Hash): NodeStore {
    var parent := NodeHash(left, right);
    if parent == Empty(height) || parent in store then store else store[parent := (left, right)]
  }

  /** The store after the climb has written the path's nodes from the leaf up to one depth. */
  ghost function WritePath(store: NodeStore, key: Key, leaf: Hash, siblings: seq<Hash>, at: nat): NodeStore
    requires |siblings| == |key| && at <= |key|
    decreases |key| - at
  {
    if at == |key| then store
    else
      var below := Climb(key, leaf, siblings, at + 1);
      var deeper := WritePath(store, key, leaf, siblings, at + 1);
      if key[at] then PutNode(deeper, |key| - at, siblings[at], below)
      else PutNode(deeper, |key| - at, below, siblings[at])
  }

  lemma {:induction false} WritePathGrows(store: NodeStore, key: Key, leaf: Hash, siblings: seq<Hash>, at: nat)
    requires |siblings| == |key| && at <= |key| && ContentAddressed(store)
    ensures ContentAddressed(WritePath(store, key, leaf, siblings, at))
    ensures Extends(store, WritePath(store, key, leaf, siblings, at))
    decreases |key| - at
  {
    if at < |key| {
      WritePathGrows(store, key, leaf, siblings, at + 1);
    }
  }

  lemma {:induction false} WritePathHolds(store: NodeStore, key: Key, leaf: Hash, siblings: seq<Hash>, at: nat)
    requires |siblings| == |key| && at <= |key| && ContentAddressed(store)
    requires forall d :: at <= d < |key| ==> Holds(store, |key| - 1 - d, siblings[d])
    ensures Holds(WritePath(store, key, leaf, siblings, at), |key| - at, Climb(key, leaf, siblings, at))
    decreases |key| - at
  {
    if at < |key| {
      var height := |key| - at;
      var deeper := WritePath(store, key, leaf, siblings, at + 1);
      var after := WritePath(store, key, leaf, siblings, at);
      var below := Climb(key, leaf, siblings, at + 1);
      WritePathHolds(store, key, leaf, siblings, at + 1);
      WritePathGrows(store, key, leaf, siblings, at + 1);
      WritePathGrows(store, key, leaf, siblings, at);
      assert Extends(deeper, after);
      HoldsForever(deeper, after, height - 1, below);
      HoldsForever(store, after, height - 1, siblings[at]);
    }
  }

  lemma {:induction false} SiblingsHeld(depth: nat, store: NodeStore, m: map<Key, Hash>, key: Key, at: nat)
    requires |key| == depth && at <= depth && Holds(store, depth - at, Tree(depth, m, key[..at]))
    ensures forall d :: at <= d < depth ==> Holds(store, depth - 1 - d, SiblingAt(depth, m, key, d))
    decreases depth - at
  {
    if at < depth {
      assert key[..at + 1] == key[..at] + [key[at]];
      var node := Tree(depth, m, key[..at]);
      assert node.left == Tree(depth, m, key[..at] + [false]) && node.right == Tree(depth, m, key[..at] + [true]);
      assert Holds(store, depth - at - 1, node.left) && Holds(store, depth - at - 1, node.right);
      assert Tree(depth, m, key[..at + 1]) == if key[at] then node.right else node.left;
      assert SiblingAt(depth, m, key, at) == if key[at] then node.left else node.right;
      SiblingsHeld(depth, store, m, key, at + 1);
    }
  }

  /** Setting or deleting one key moves the climb's result to the root of the updated map. */
  lemma ClimbUpdates(depth: nat, m: map<Key, Hash>, key: Key, leaf: Option<Hash>)
    requires |key| == depth
    ensures Climb(key, LeafOrEmpty(leaf), Siblings(depth, m, key), 0) == Root(depth, Put(m, key, leaf))
  {
    var n := Put(m, key, leaf);
    forall d | 0 <= d < depth
      ensures SiblingAt(depth, m, key, d) == SiblingAt(depth, n, key, d)
    {
      var aside := key[..d] + [!key[d]];
      assert SameBelow(depth, m, n, aside) by {
        forall k: Key | |k| == depth && aside <= k
          ensures LeafAt(m, k) == LeafAt(n, k)
        {
          assert k[d] == aside[d];
        }
      }
      TreeDeterminesLeaves(depth, m, n, aside);
    }
    ClimbMeetsTree(depth, n, key, LeafOrEmpty(leaf), Siblings(depth, m, key), 0);
    assert key[..0] == [];
  }

  /** The store and root after one `update`. */
  ghost function Updated(store: NodeStore, root: Hash, key: Key, leaf: Option<Hash>): (NodeStore, Hash) {
    var siblings := Walk(store, Some(root), key, 0).siblings;
    (WritePath(store, key, LeafOrEmpty(leaf), siblings, 0), Climb(key, LeafOrEmpty(leaf), siblings, 0))
  }

  /** One `update` over the node store is one `set` (or delete) on the reference tree, and it
      leaves every root the store already held intact. */
  lemma UpdateRefines(depth: nat, store: NodeStore, root: Hash, m: map<Key, Hash>, key: Key, leaf: Option<Hash>)
    requires |key| == depth && Represents(depth, store, root, m)
    ensures Represents(depth, Updated(store, root, key, leaf).0, Updated(store, root, key, leaf).1, Put(m, key, leaf))
    ensures Extends(store, Updated(store, root, key, leaf).0)
  {
    assert key[..0] == [];
    WalkReadsTree(depth, store, m, Some(root), key, 0);
    var siblings := Siblings(depth, m, key);
    assert siblings[0..] == siblings;
    SiblingsHeld(depth, store, m, key, 0);
    WritePathHolds(store, key, LeafOrEmpty(leaf), siblings, 0);
    WritePathGrows(store, key, LeafOrEmpty(leaf), siblings, 0);
    ClimbUpdates(depth, m, key, leaf);
  }

  /** Over a store without the root's row the walk reads the empty tree. */
  lemma {:induction false} WalkOfNothing(store: NodeStore, cur: Option<Hash>, key: Key, at: nat, i: nat)
    requires at + i < |key| && (cur.None? || cur.value !in store)
    ensures Walk(store, cur, key, at).siblings[i] == Empty(|key| - 1 - at - i)
    decreases i
  {
    if i > 0 {
      WalkOfNothing(store, None, key, at + 1, i - 1);
      assert Walk(store, cur, key, at).siblings == [Empty(|key| - 1 - at)] + Walk(store, None, key, at + 1).siblings;
    }
  }

  lemma EmptySiblings(depth: nat, key: Key, d: nat)
    requires |key| == depth && d < depth
    ensures SiblingAt(depth, map[], key, d) == Empty(depth - 1 - d)
  {
    EmptyTree(depth, map[], key[..d] + [!key[d]]);
  }

  /** A store that does not carry the prior root's nodes silently rebuilds from a blank tree: the new root
      holds the updated key alone, and is right if and only if the prior tree held no other leaf. */
  lemma ForgottenStoreDropsKeys(depth: nat, store: NodeStore, root: Hash, m: map<Key, Hash>, key: Key,
                                leaf: Option<Hash>)
    requires |key| == depth && root !in store
    ensures Updated(store, root, key, leaf).1 == Root(depth, Put(map[], key, leaf))
    ensures Updated(store, root, key, leaf).1 == Root(depth, Put(m, key, leaf)) <==>
              forall k: Key :: |k| == depth && k != key ==> LeafAt(m, k) == EmptyLeaf
  {
    var siblings := Walk(store, Some(root), key, 0).siblings;
    forall d | 0 <= d < depth
      ensures siblings[d] == SiblingAt(depth, map[], key, d)
    {
      WalkOfNothing(store, Some(root), key, 0, d);
      EmptySiblings(depth, key, d);
    }
    assert siblings == Siblings(depth, map[], key);
    ClimbUpdates(depth, map[], key, leaf);
    OtherLeavesDecide(depth, m, key, leaf);
  }

  lemma OtherLeavesDecide(depth: nat, m: map<Key, Hash>, key: Key, leaf: Option<Hash>)
    requires |key| == depth
    ensures Root(depth, Put(map[], key, leaf)) == Root(depth, Put(m, key, leaf)) <==>
              forall k: Key :: |k| == depth && k != key ==> LeafAt(m, k) == EmptyLeaf
  {
    var blank, full := Put(map[], key, leaf), Put(m, key, leaf);
    TreeDeterminesLeaves(depth, blank, full, []);
    forall k: Key | |k| == depth && k != key
      ensures LeafAt(blank, k) == EmptyLeaf && LeafAt(full, k) == LeafAt(m, k)
    {
    }
    if SameBelow(depth, blank, full, []) {
      forall k: Key | |k| == depth && k != key
        ensures LeafAt(m, k) == EmptyLeaf
      {
        assert LeafAt(full, k) == LeafAt(m, k) && LeafAt(blank, k) == LeafAt(full, k);
      }
    }
  }

  class PersistentSmt {
    const depth: nat
    var nodes: NodeStore

    ghost predicate Valid()
      reads this
    {
      ContentAddressed(nodes)
    }

    constructor (depth: nat)
      ensures Valid() && this.depth == depth && nodes == map[]
    {
      this.depth := depth;
      nodes := map[];
    }

    method Descend(root: Hash, key: Key) returns (d: Descent)
      requires |key| == depth
      ensures d == Walk(nodes, Some(root), key, 0)
    {
      var siblings := [];
      var cur := Some(root);
      for at := 0 to depth
        invariant Below(siblings, Walk(nodes, cur, key, at)) == Walk(nodes, Some(root), key, 0)
      {
        WalkStep(nodes, cur, key, at, siblings);
        if cur.None? || cur.value !in nodes {
          siblings, cur := siblings + [Empty(depth - 1 - at)], None;
        } else {
          var (left, right) := nodes[cur.value];
          siblings := siblings + [if key[at] then left else right];
          cur := Some(if key[at] then right else left);
        }
      }
      d := Descent(siblings, LeafOrEmpty(cur));
    }

    method Update(root: Hash, key: Key, leaf: Option<Hash>) returns (after: Hash)
      requires |key| == depth
      modifies this
      ensures (nodes, after) == Updated(old(nodes), root, key, leaf)
    {
      var d := Descend(root, key);
      var cur, at, store := LeafOrEmpty(leaf), depth, nodes;
      while at > 0
        invariant 0 <= at <= depth
        invariant cur == Climb(key, LeafOrEmpty(leaf), d.siblings, at)
        invariant store == WritePath(nodes, key, LeafOrEmpty(leaf), d.siblings, at)
        invariant nodes == old(nodes)
      {
        at := at - 1;
        var left := if key[at] then d.siblings[at] else cur;
        var right := if key[at] then cur else d.siblings[at];
        store := PutNode(store, depth - at, left, right);
        cur := NodeHash(left, right);
      }
      nodes := store;
      after := cur;
    }

    /** Proof as of any root the store holds: the reference tree's own proof. */
    method Prove(root: Hash, key: Key, ghost m: map<Key, Hash>) returns (proof: Proof)
      requires |key| == depth && Represents(depth, nodes, root, m)
      ensures proof.siblings == Siblings(depth, m, key)
      ensures NoEmptyLeaf(m) ==> proof.leaf == Lookup(m, key)
      ensures Accepts(depth, root, key, proof.leaf, proof.siblings)
    {
      var d := Descend(root, key);
      assert key[..0] == [];
      WalkReadsTree(depth, nodes, m, Some(root), key, 0);
      assert Siblings(depth, m, key)[0..] == Siblings(depth, m, key);
      proof := Proof(if d.leaf != EmptyLeaf then Some(d.leaf) else None, d.siblings);
      AcceptedExactly(depth, m, key, proof.leaf, proof.siblings);
    }
  }
}
