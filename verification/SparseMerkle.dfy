/** The reference sparse Merkle tree: `smtNode`, `SparseMerkleTree` and `verifySmtProof`.

    The depth is a parameter (256 in the source) and a key is its path, most significant
    bit first. `Tree` is the independent reference: the dense tree over a key-to-leaf map,
    with no shortcut for empty subtrees.
 */
module SparseMerkle {
  import opened Hashing

  type Key = seq<bool>

  datatype Entry = Entry(key: Key, leaf: Hash)

  datatype Proof = Proof(leaf: Option<Hash>, siblings: seq<Hash>)

  // ---------------------------------------------------------------------------
  // The dense reference tree
  // ---------------------------------------------------------------------------

  ghost function LeafAt(m: map<Key, Hash>, key: Key): Hash {
    if key in m then m[key] else EmptyLeaf
  }

  ghost function Lookup(m: map<Key, Hash>, key: Key): Option<Hash> {
    if key in m then Some(m[key]) else None
  }

  ghost function Tree(depth: nat, m: map<Key, Hash>, path: Key): Hash
    requires |path| <= depth
    decreases depth - |path|
  {
    if |path| == depth then LeafAt(m, path)
    else NodeHash(Tree(depth, m, path + [false]), Tree(depth, m, path + [true]))
  }

  ghost function Root(depth: nat, m: map<Key, Hash>): Hash {
    Tree(depth, m, [])
  }

  /** Every key has full length. */
  ghost predicate FullKeys(depth: nat, m: map<Key, Hash>) {
    forall k <- m :: |k| == depth
  }

  /** No stored leaf equals the empty leaf: the delete-on-zero rule. */
  ghost predicate NoEmptyLeaf(m: map<Key, Hash>) {
    forall k <- m :: m[k] != EmptyLeaf
  }

  ghost predicate SameBelow(depth: nat, m: map<Key, Hash>, n: map<Key, Hash>, path: Key) {
    forall k: Key {:trigger LeafAt(m, k)} {:trigger LeafAt(n, k)} ::
      |k| == depth && path <= k ==> LeafAt(m, k) == LeafAt(n, k)
  }

  lemma PrefixSplits(path: Key, k: Key)
    requires path <= k && |path| < |k|
    ensures path + [k[|path|]] <= k
  {
  }

  /** Two maps give the same subtree hash exactly when they hold the same leaves below it. */
  lemma {:induction false} TreeDeterminesLeaves(depth: nat, m: map<Key, Hash>, n: map<Key, Hash>, path: Key)
    requires |path| <= depth
    ensures Tree(depth, m, path) == Tree(depth, n, path) <==> SameBelow(depth, m, n, path)
    decreases depth - |path|
  {
    if |path| == depth {
      forall k: Key | |k| == depth && path <= k
        ensures k == path
      {
      }
      assert path <= path;
      if SameBelow(depth, m, n, path) {
        assert LeafAt(m, path) == LeafAt(n, path);
      }
    } else {
      TreeDeterminesLeaves(depth, m, n, path + [false]);
      TreeDeterminesLeaves(depth, m, n, path + [true]);
      if SameBelow(depth, m, n, path + [false]) && SameBelow(depth, m, n, path + [true]) {
        forall k: Key | |k| == depth && path <= k
          ensures LeafAt(m, k) == LeafAt(n, k)
        {
          PrefixSplits(path, k);
          if k[|path|] {
            assert path + [true] <= k;
          } else {
            assert path + [false] <= k;
          }
        }
      }
      if SameBelow(depth, m, n, path) {
        forall b: bool, k: Key | |k| == depth && path + [b] <= k
          ensures LeafAt(m, k) == LeafAt(n, k)
        {
          assert path <= path + [b];
        }
      }
    }
  }

  /** The root is a function of the map alone, and distinct maps have distinct roots. */
  lemma RootDeterminesMap(depth: nat, m: map<Key, Hash>, n: map<Key, Hash>)
    requires FullKeys(depth, m) && FullKeys(depth, n)
    requires NoEmptyLeaf(m) && NoEmptyLeaf(n)
    ensures Root(depth, m) == Root(depth, n) <==> m == n
  {
    TreeDeterminesLeaves(depth, m, n, []);
    if SameBelow(depth, m, n, []) {
      forall k | k in m || k in n
        ensures k in m && k in n && m[k] == n[k]
      {
        assert LeafAt(m, k) == LeafAt(n, k);
      }
      assert m.Keys == n.Keys;
    }
  }

  /** A leaf equal to the empty leaf is the one thing the root cannot see: why zero deletes. */
  lemma EmptyLeafIsInvisible(depth: nat, m: map<Key, Hash>, key: Key)
    requires |key| == depth && key !in m
    ensures m[key := EmptyLeaf] != m && Root(depth, m[key := EmptyLeaf]) == Root(depth, m)
  {
    TreeDeterminesLeaves(depth, m[key := EmptyLeaf], m, []);
    assert key in m[key := EmptyLeaf];
  }

  /** An empty subtree is the EMPTY constant of its height, at every depth. */
  lemma {:induction false} EmptyTree(depth: nat, m: map<Key, Hash>, path: Key)
    requires |path| <= depth
    requires forall k <- m :: |k| == depth ==> !(path <= k)
    ensures Tree(depth, m, path) == Empty(depth - |path|)
    decreases depth - |path|
  {
    if |path| == depth {
      assert path <= path;
    } else {
      assert path <= path + [false] && path <= path + [true];
      EmptyTree(depth, m, path + [false]);
      EmptyTree(depth, m, path + [true]);
    }
  }

  // ---------------------------------------------------------------------------
  // smtNode over an entry list
  // ---------------------------------------------------------------------------

  predicate FullEntries(depth: nat, entries: seq<Entry>) {
    forall e <- entries :: |e.key| == depth
  }

  /** The entries whose key takes the given turn at one depth, in list order. */
  function Side(depth: nat, entries: seq<Entry>, at: nat, bit: bool): (side: seq<Entry>)
    requires at < depth && FullEntries(depth, entries)
    ensures forall e :: e in side <==> e in entries && e.key[at] == bit
    ensures FullEntries(depth, side)
  {
    if entries == [] then []
    else
      var rest := Side(depth, entries[1..], at, bit);
      assert forall e :: e in entries <==> e == entries[0] || e in entries[1..];
      if entries[0].key[at] == bit then [entries[0]] + rest else rest
  }

  function SmtNode(depth: nat, entries: seq<Entry>, at: nat): Hash
    requires at <= depth && FullEntries(depth, entries)
    decreases depth - at
  {
    if entries == [] then Empty(depth - at)
    else if at == depth then entries[0].leaf
    else NodeHash(SmtNode(depth, Side(depth, entries, at, false), at + 1),
                  SmtNode(depth, Side(depth, entries, at, true), at + 1))
  }

  /** The list holds exactly the map's pairs below a path. */
  ghost predicate Lists(depth: nat, entries: seq<Entry>, m: map<Key, Hash>, path: Key) {
    && FullEntries(depth, entries)
    && (forall e <- entries :: path <= e.key && e.key in m && m[e.key] == e.leaf)
    && (forall k <- m :: |k| == depth && path <= k ==> Entry(k, m[k]) in entries)
  }

  lemma SideLists(depth: nat, entries: seq<Entry>, m: map<Key, Hash>, path: Key, bit: bool)
    requires |path| < depth && Lists(depth, entries, m, path)
    ensures Lists(depth, Side(depth, entries, |path|, bit), m, path + [bit])
  {
    var side := Side(depth, entries, |path|, bit);
    forall e <- side
      ensures path + [bit] <= e.key
    {
      PrefixSplits(path, e.key);
    }
    assert path <= path + [bit];
    forall k | k in m && |k| == depth && path + [bit] <= k
      ensures Entry(k, m[k]) in side
    {
      assert path <= k;
      assert Entry(k, m[k]) in entries;
      assert k[|path|] == (path + [bit])[|path|];
    }
  }

  lemma LeafListed(depth: nat, entries: seq<Entry>, m: map<Key, Hash>, path: Key)
    requires |path| == depth && Lists(depth, entries, m, path) && entries != []
    ensures entries[0].leaf == LeafAt(m, path)
  {
    assert entries[0] in entries;
    assert entries[0].key == path;
  }

  /** `smtNode`, with its empty-subtree cache, computes the dense tree of the listed map. */
  lemma {:induction false} SmtNodeIsTree(depth: nat, entries: seq<Entry>, m: map<Key, Hash>, path: Key)
    requires |path| <= depth && Lists(depth, entries, m, path)
    ensures SmtNode(depth, entries, |path|) == Tree(depth, m, path)
    decreases depth - |path|
  {
    if entries == [] {
      EmptyTree(depth, m, path);
    } else if |path| == depth {
      LeafListed(depth, entries, m, path);
    } else {
      SideLists(depth, entries, m, path, false);
      SideLists(depth, entries, m, path, true);
      SmtNodeIsTree(depth, Side(depth, entries, |path|, false), m, path + [false]);
      SmtNodeIsTree(depth, Side(depth, entries, |path|, true), m, path + [true]);
    }
  }

  // ---------------------------------------------------------------------------
  // The insertion-ordered leaf table and its histories
  // ---------------------------------------------------------------------------

  ghost predicate DistinctKeys(entries: seq<Entry>) {
    forall i, j :: 0 <= i < j < |entries| ==> entries[i].key != entries[j].key
  }

  ghost function Contents(entries: seq<Entry>): (m: map<Key, Hash>)
    ensures forall k :: k in m <==> exists e <- entries :: e.key == k
  {
    if entries == [] then map[]
    else
      var last := entries[|entries| - 1];
      var m := Contents(entries[..|entries| - 1]);
      assert entries == entries[..|entries| - 1] + [last];
      m[last.key := last.leaf]
  }

  /** A JavaScript Map keeps a re-set key where it was first inserted. */
  function SetEntry(entries: seq<Entry>, key: Key, leaf: Hash): seq<Entry> {
    if entries == [] then [Entry(key, leaf)]
    else if entries[0].key == key then [Entry(key, leaf)] + entries[1..]
    else [entries[0]] + SetEntry(entries[1..], key, leaf)
  }

  function DeleteEntry(entries: seq<Entry>, key: Key): seq<Entry> {
    if entries == [] then []
    else if entries[0].key == key then entries[1..]
    else [entries[0]] + DeleteEntry(entries[1..], key)
  }

  lemma ContentsAt(entries: seq<Entry>, e: Entry)
    requires DistinctKeys(entries) && e in entries
    ensures e.key in Contents(entries) && Contents(entries)[e.key] == e.leaf
  {
    var n := |entries| - 1;
    assert entries == entries[..n] + [entries[n]];
    if e != entries[n] {
      assert e in entries[..n];
      ContentsAt(entries[..n], e);
    }
  }

  lemma ContentsList(depth: nat, entries: seq<Entry>)
    requires FullEntries(depth, entries) && DistinctKeys(entries)
    ensures Lists(depth, entries, Contents(entries), [])
    ensures FullKeys(depth, Contents(entries))
  {
    var m := Contents(entries);
    forall e <- entries
      ensures e.key in m && m[e.key] == e.leaf
    {
      ContentsAt(entries, e);
    }
    forall k <- m
      ensures Entry(k, m[k]) in entries
    {
      var e :| e in entries && e.key == k;
      ContentsAt(entries, e);
    }
  }

  lemma ContentsUnique(entries: seq<Entry>, m: map<Key, Hash>)
    requires DistinctKeys(entries)
    requires forall e <- entries :: e.key in m && m[e.key] == e.leaf
    requires forall k <- m :: exists e <- entries :: e.key == k
    ensures Contents(entries) == m
  {
    var c := Contents(entries);
    forall k | k in c
      ensures k in m && c[k] == m[k]
    {
      var e :| e in entries && e.key == k;
      ContentsAt(entries, e);
    }
    forall k | k in m
      ensures k in c
    {
      var e :| e in entries && e.key == k;
      ContentsAt(entries, e);
    }
    assert c.Keys == m.Keys;
  }

  lemma {:induction false} SetEntryMembers(entries: seq<Entry>, key: Key, leaf: Hash)
    requires DistinctKeys(entries)
    ensures DistinctKeys(SetEntry(entries, key, leaf))
    ensures forall e :: e in SetEntry(entries, key, leaf) <==>
              e == Entry(key, leaf) || (e in entries && e.key != key)
  {
    if entries != [] {
      var rest := entries[1..];
      assert entries == [entries[0]] + rest;
      if entries[0].key == key {
        forall e <- rest
          ensures e.key != key
        {
        }
      } else {
        SetEntryMembers(rest, key, leaf);
        var tail := SetEntry(rest, key, leaf);
        forall e <- tail
          ensures e.key != entries[0].key
        {
        }
      }
    }
  }

  lemma {:induction false} DeleteEntryMembers(entries: seq<Entry>, key: Key)
    requires DistinctKeys(entries)
    ensures DistinctKeys(DeleteEntry(entries, key))
    ensures forall e :: e in DeleteEntry(entries, key) <==> e in entries && e.key != key
  {
    if entries != [] {
      var rest := entries[1..];
      assert entries == [entries[0]] + rest;
      if entries[0].key != key {
        DeleteEntryMembers(rest, key);
      } else {
        forall e <- rest
          ensures e.key != key
        {
        }
      }
    }
  }

  lemma SetEntryContents(entries: seq<Entry>, key: Key, leaf: Hash)
    requires DistinctKeys(entries)
    ensures DistinctKeys(SetEntry(entries, key, leaf))
    ensures Contents(SetEntry(entries, key, leaf)) == Contents(entries)[key := leaf]
  {
    SetEntryMembers(entries, key, leaf);
    var m := Contents(entries)[key := leaf];
    var after := SetEntry(entries, key, leaf);
    forall e <- after
      ensures e.key in m && m[e.key] == e.leaf
    {
      if e.key != key {
        ContentsAt(entries, e);
      }
    }
    forall k <- m
      ensures exists e <- after :: e.key == k
    {
      if k == key {
        assert Entry(key, leaf) in after;
      } else {
        var e :| e in entries && e.key == k;
        assert e in after;
      }
    }
    ContentsUnique(after, m);
  }

  lemma DeleteEntryContents(entries: seq<Entry>, key: Key)
    requires DistinctKeys(entries)
    ensures DistinctKeys(DeleteEntry(entries, key))
    ensures Contents(DeleteEntry(entries, key)) == Contents(entries) - {key}
  {
    DeleteEntryMembers(entries, key);
    var m := Contents(entries) - {key};
    var after := DeleteEntry(entries, key);
    forall e <- after
      ensures e.key in m && m[e.key] == e.leaf
    {
      ContentsAt(entries, e);
    }
    forall k <- m
      ensures exists e <- after :: e.key == k
    {
      var e :| e in entries && e.key == k;
      assert e in after;
    }
    ContentsUnique(after, m);
  }

  /** One call of `set` (None deletes) on the key-to-leaf map. */
  function Put(m: map<Key, Hash>, key: Key, leaf: Option<Hash>): map<Key, Hash> {
    if leaf.Some? then m[key := leaf.value] else m - {key}
  }

  datatype Op = Op(key: Key, leaf: Option<Hash>)

  function Step(entries: seq<Entry>, op: Op): seq<Entry> {
    if op.leaf.Some? then SetEntry(entries, op.key, op.leaf.value) else DeleteEntry(entries, op.key)
  }

  function History(ops: seq<Op>): seq<Entry> {
    if ops == [] then [] else Step(History(ops[..|ops| - 1]), ops[|ops| - 1])
  }

  ghost function Outcome(ops: seq<Op>): map<Key, Hash> {
    if ops == [] then map[] else Put(Outcome(ops[..|ops| - 1]), ops[|ops| - 1].key, ops[|ops| - 1].leaf)
  }

  ghost predicate FullOps(depth: nat, ops: seq<Op>) {
    forall op <- ops :: |op.key| == depth
  }

  lemma StepContents(depth: nat, entries: seq<Entry>, op: Op)
    requires DistinctKeys(entries) && FullEntries(depth, entries) && |op.key| == depth
    ensures DistinctKeys(Step(entries, op)) && FullEntries(depth, Step(entries, op))
    ensures Contents(Step(entries, op)) == Put(Contents(entries), op.key, op.leaf)
  {
    if op.leaf.Some? {
      SetEntryMembers(entries, op.key, op.leaf.value);
      SetEntryContents(entries, op.key, op.leaf.value);
    } else {
      DeleteEntryMembers(entries, op.key);
      DeleteEntryContents(entries, op.key);
    }
  }

  lemma {:induction false} HistoryContents(depth: nat, ops: seq<Op>)
    requires FullOps(depth, ops)
    ensures DistinctKeys(History(ops)) && FullEntries(depth, History(ops))
    ensures Contents(History(ops)) == Outcome(ops)
  {
    if ops != [] {
      HistoryContents(depth, ops[..|ops| - 1]);
      StepContents(depth, History(ops[..|ops| - 1]), ops[|ops| - 1]);
    }
  }

  /** The root computed after any history is the dense root of the map it ends in, so two
      histories of sets and deletes agree on the root exactly when they end in maps with the
      same leaves. */
  lemma HistoriesAgree(depth: nat, one: seq<Op>, two: seq<Op>)
    requires FullOps(depth, one) && FullOps(depth, two)
    ensures FullEntries(depth, History(one)) && FullEntries(depth, History(two))
    ensures SmtNode(depth, History(one), 0) == Root(depth, Outcome(one))
    ensures SmtNode(depth, History(one), 0) == SmtNode(depth, History(two), 0)
            <==> SameBelow(depth, Outcome(one), Outcome(two), [])
  {
    HistoryContents(depth, one);
    HistoryContents(depth, two);
    ContentsList(depth, History(one));
    ContentsList(depth, History(two));
    SmtNodeIsTree(depth, History(one), Outcome(one), []);
    SmtNodeIsTree(depth, History(two), Outcome(two), []);
    TreeDeterminesLeaves(depth, Outcome(one), Outcome(two), []);
  }

  // ---------------------------------------------------------------------------
  // Proofs
  // ---------------------------------------------------------------------------

  ghost function SiblingAt(depth: nat, m: map<Key, Hash>, key: Key, at: nat): Hash
    requires |key| == depth && at < depth
  {
    Tree(depth, m, key[..at] + [!key[at]])
  }

  lemma SideIsTree(depth: nat, level: seq<Entry>, m: map<Key, Hash>, path: Key, bit: bool)
    requires |path| < depth && Lists(depth, level, m, path)
    ensures SmtNode(depth, Side(depth, level, |path|, bit), |path| + 1) == Tree(depth, m, path + [bit])
  {
    SideLists(depth, level, m, path, bit);
    SmtNodeIsTree(depth, Side(depth, level, |path|, bit), m, path + [bit]);
  }

  lemma NearSide(depth: nat, level: seq<Entry>, m: map<Key, Hash>, key: Key, at: nat)
    requires |key| == depth && at < depth && Lists(depth, level, m, key[..at])
    ensures Lists(depth, Side(depth, level, at, key[at]), m, key[..at + 1])
  {
    var path := key[..at];
    assert key[..at + 1] == path + [key[at]] && |path| == at;
    SideLists(depth, level, m, path, key[at]);
  }

  lemma FarSide(depth: nat, level: seq<Entry>, m: map<Key, Hash>, key: Key, at: nat)
    requires |key| == depth && at < depth && Lists(depth, level, m, key[..at])
    ensures SmtNode(depth, Side(depth, level, at, !key[at]), at + 1) == SiblingAt(depth, m, key, at)
  {
    var path := key[..at];
    assert |path| == at;
    SideIsTree(depth, level, m, path, !key[at]);
  }

  ghost function Siblings(depth: nat, m: map<Key, Hash>, key: Key): (s: seq<Hash>)
    requires |key| == depth
    ensures |s| == depth
  {
    seq(depth, at requires 0 <= at < depth => SiblingAt(depth, m, key, at))
  }

  /** The node a verifier reaches at one depth, climbing from a leaf through the siblings. */
  function Climb(key: Key, leaf: Hash, siblings: seq<Hash>, at: nat): Hash
    requires |siblings| == |key| && at <= |key|
    decreases |key| - at
  {
    if at == |key| then leaf
    else
      var below := Climb(key, leaf, siblings, at + 1);
      if key[at] then NodeHash(siblings[at], below) else NodeHash(below, siblings[at])
  }

  /** A climb meets the tree exactly when it starts from the held leaf and uses the tree's
      own siblings: proofs are complete, sound and unique. */
  lemma {:induction false} ClimbMeetsTree(depth: nat, m: map<Key, Hash>, key: Key, leaf: Hash,
                                          siblings: seq<Hash>, at: nat)
    requires |key| == |siblings| == depth && at <= depth
    ensures Climb(key, leaf, siblings, at) == Tree(depth, m, key[..at]) <==>
              leaf == LeafAt(m, key) &&
              forall d :: at <= d < depth ==> siblings[d] == SiblingAt(depth, m, key, d)
    decreases depth - at
  {
    if at == depth {
      assert key[..at] == key;
    } else {
      ClimbMeetsTree(depth, m, key, leaf, siblings, at + 1);
      assert key[..at + 1] == key[..at] + [key[at]];
      if key[at] {
        assert Tree(depth, m, key[..at]) == NodeHash(SiblingAt(depth, m, key, at), Tree(depth, m, key[..at + 1]));
      } else {
        assert Tree(depth, m, key[..at]) == NodeHash(Tree(depth, m, key[..at + 1]), SiblingAt(depth, m, key, at));
      }
    }
  }

  ghost predicate Accepts(depth: nat, root: Hash, key: Key, leaf: Option<Hash>, siblings: seq<Hash>)
    requires |key| == depth
  {
    |siblings| == depth && Climb(key, LeafOrEmpty(leaf), siblings, 0) == root
  }

  /** A verifier accepts exactly the held leaf with the one sibling vector of the tree. */
  lemma AcceptedExactly(depth: nat, m: map<Key, Hash>, key: Key, leaf: Option<Hash>, siblings: seq<Hash>)
    requires |key| == depth
    ensures Accepts(depth, Root(depth, m), key, leaf, siblings) <==>
              LeafOrEmpty(leaf) == LeafAt(m, key) && siblings == Siblings(depth, m, key)
  {
    if |siblings| == depth {
      ClimbMeetsTree(depth, m, key, LeafOrEmpty(leaf), siblings, 0);
      assert key[..0] == [];
    }
  }

  /** With no empty-leaf value stored or claimed, acceptance states membership (Some) or
      absence (None) exactly. */
  lemma AcceptedMeansHeld(depth: nat, m: map<Key, Hash>, key: Key, leaf: Option<Hash>, siblings: seq<Hash>)
    requires |key| == depth && NoEmptyLeaf(m) && leaf != Some(EmptyLeaf)
    ensures Accepts(depth, Root(depth, m), key, leaf, siblings) <==>
              leaf == Lookup(m, key) && siblings == Siblings(depth, m, key)
  {
    AcceptedExactly(depth, m, key, leaf, siblings);
  }

  /** The excluded claim is accepted: a membership proof of the empty leaf for an absent key. */
  lemma EmptyLeafClaimIsAccepted(depth: nat, m: map<Key, Hash>, key: Key)
    requires |key| == depth && key !in m
    ensures Accepts(depth, Root(depth, m), key, Some(EmptyLeaf), Siblings(depth, m, key))
    ensures Lookup(m, key) == None
  {
    AcceptedExactly(depth, m, key, Some(EmptyLeaf), Siblings(depth, m, key));
  }

  /** `verifySmtProof`: the loop climbs from the leaf to the root. */
  method VerifySmtProof(depth: nat, root: Hash, key: Key, leaf: Option<Hash>, siblings: seq<Hash>)
    returns (accepted: bool)
    requires |key| == depth
    ensures accepted <==> Accepts(depth, root, key, leaf, siblings)
  {
    if |siblings| != depth {
      return false;
    }
    var node := LeafOrEmpty(leaf);
    var d := depth;
    while d > 0
      invariant 0 <= d <= depth
      invariant node == Climb(key, LeafOrEmpty(leaf), siblings, d)
    {
      d := d - 1;
      node := if key[d] then NodeHash(siblings[d], node) else NodeHash(node, siblings[d]);
    }
    accepted := node == root;
  }

  /** One level of the split `smtNode` and `prove` perform. */
  method Partition(depth: nat, entries: seq<Entry>, at: nat) returns (left: seq<Entry>, right: seq<Entry>)
    requires at < depth && FullEntries(depth, entries)
    ensures left == Side(depth, entries, at, false) && right == Side(depth, entries, at, true)
  {
    left, right := [], [];
    var i := |entries|;
    while i > 0
      invariant 0 <= i <= |entries|
      invariant left == Side(depth, entries[i..], at, false)
      invariant right == Side(depth, entries[i..], at, true)
    {
      i := i - 1;
      assert entries[i..][1..] == entries[i + 1..];
      if entries[i].key[at] {
        right := [entries[i]] + right;
      } else {
        left := [entries[i]] + left;
      }
    }
    assert entries[0..] == entries;
  }

  /** The loop of `prove`: walk down the key's path, hashing the subtree left aside at each depth. */
  method ProveSiblings(depth: nat, entries: seq<Entry>, ghost m: map<Key, Hash>, key: Key)
    returns (siblings: seq<Hash>)
    requires |key| == depth && Lists(depth, entries, m, [])
    ensures siblings == Siblings(depth, m, key)
  {
    siblings := [];
    var level := entries;
    assert key[..0] == [];
    for d := 0 to depth
      invariant siblings == Siblings(depth, m, key)[..d]
      invariant Lists(depth, level, m, key[..d])
    {
      var sibling;
      level, sibling := ProveLevel(depth, level, m, key, d);
      siblings := siblings + [sibling];
    }
  }

  /** One level of a proof: the key's side of the partition, and the root of the other. */
  method ProveLevel(depth: nat, level: seq<Entry>, ghost m: map<Key, Hash>, key: Key, d: nat)
    returns (next: seq<Entry>, sibling: Hash)
    requires |key| == depth && d < depth && Lists(depth, level, m, key[..d])
    ensures Lists(depth, next, m, key[..d + 1])
    ensures sibling == SiblingAt(depth, m, key, d)
  {
    var left, right := Partition(depth, level, d);
    NearSide(depth, level, m, key, d);
    FarSide(depth, level, m, key, d);
    next := if key[d] then right else left;
    sibling := SmtNode(depth, if key[d] then left else right, d + 1);
  }

  class SparseMerkleTree {
    const depth: nat
    var leaves: seq<Entry>

    ghost predicate Valid()
      reads this
    {
      FullEntries(depth, leaves) && DistinctKeys(leaves)
    }

    ghost function Map(): map<Key, Hash>
      reads this
    {
      Contents(leaves)
    }

    constructor (depth: nat)
      ensures Valid() && this.depth == depth && Map() == map[]
    {
      this.depth := depth;
      leaves := [];
    }

    method Set(key: Key, leaf: Option<Hash>)
      requires Valid() && |key| == depth
      modifies this
      ensures Valid() && Map() == Put(old(Map()), key, leaf)
    {
      StepContents(depth, leaves, Op(key, leaf));
      leaves := Step(leaves, Op(key, leaf));
    }

    /** The root depends on the key-to-leaf map alone. */
    method RootHash() returns (root: Hash)
      requires Valid()
      ensures root == Root(depth, Map())
    {
      ContentsList(depth, leaves);
      SmtNodeIsTree(depth, leaves, Map(), []);
      root := SmtNode(depth, leaves, 0);
    }

    method Find(key: Key) returns (leaf: Option<Hash>)
      requires Valid()
      ensures leaf == Lookup(Map(), key)
    {
      var i := 0;
      while i < |leaves|
        invariant 0 <= i <= |leaves|
        invariant forall j :: 0 <= j < i ==> leaves[j].key != key
      {
        if leaves[i].key == key {
          ContentsAt(leaves, leaves[i]);
          return Some(leaves[i].leaf);
        }
        i := i + 1;
      }
      leaf := None;
    }

    method Prove(key: Key) returns (proof: Proof)
      requires Valid() && |key| == depth
      ensures proof.leaf == Lookup(Map(), key)
      ensures proof.siblings == Siblings(depth, Map(), key)
      ensures Accepts(depth, Root(depth, Map()), key, proof.leaf, proof.siblings)
    {
      ContentsList(depth, leaves);
      var siblings := ProveSiblings(depth, leaves, Map(), key);
      var leaf := Find(key);
      proof := Proof(leaf, siblings);
      AcceptedExactly(depth, Map(), key, leaf, siblings);
    }
  }
}
