/** The padded fixed binary Merkle tree and the top-level state root: `fixedMerkleRoot`,
    `fixedMerkleProof`, `verifyFixedMerkleProof`, `stateRoot` and `stateRootProof`. */
module FixedMerkle {
  import opened Hashing
  import opened SparseMerkle

  function Pow2(height: nat): (p: nat)
    ensures p >= 1
  {
    if height == 0 then 1 else 2 * Pow2(height - 1)
  }

  /** The height of the padded tree over n leaves: the least h with 2^h >= n. */
  ghost predicate PadHeight(n: nat, height: nat) {
    n <= Pow2(height) && (height > 0 ==> Pow2(height - 1) < n)
  }

  /** Reference: the root of a perfect tree, split in halves from the top. */
  ghost function Perfect(height: nat, leaves: seq<Hash>): Hash
    requires |leaves| == Pow2(height)
  {
    if height == 0 then leaves[0]
    else
      var half := Pow2(height - 1);
      NodeHash(Perfect(height - 1, leaves[..half]), Perfect(height - 1, leaves[half..]))
  }

  /** One bottom-up layer step. */
  function Pair(layer: seq<Hash>): (next: seq<Hash>)
    requires |layer| % 2 == 0
    ensures |next| == |layer| / 2
    ensures forall i :: 0 <= i < |next| ==> next[i] == NodeHash(layer[2 * i], layer[2 * i + 1])
  {
    seq(|layer| / 2, i requires 0 <= i < |layer| / 2 => NodeHash(layer[2 * i], layer[2 * i + 1]))
  }

  method PairLayer(layer: seq<Hash>) returns (next: seq<Hash>)
    requires |layer| % 2 == 0
    ensures next == Pair(layer)
  {
    next := [];
    var i := 0;
    while i < |layer|
      invariant 0 <= i <= |layer| && i % 2 == 0 && |next| == i / 2
      invariant next == Pair(layer)[..i / 2]
    {
      next := next + [NodeHash(layer[i], layer[i + 1])];
      i := i + 2;
    }
  }

  /** Pairing from the bottom builds the same perfect tree as splitting from the top. */
  lemma PairSplits(layer: seq<Hash>, quarter: nat)
    requires |layer| == 4 * quarter
    ensures Pair(layer)[..quarter] == Pair(layer[..2 * quarter])
    ensures Pair(layer)[quarter..] == Pair(layer[2 * quarter..])
  {
  }

  lemma {:induction false} PerfectPairs(height: nat, layer: seq<Hash>)
    requires height > 0 && |layer| == Pow2(height)
    ensures Perfect(height, layer) == Perfect(height - 1, Pair(layer))
  {
    var half := Pow2(height - 1);
    if height > 1 {
      var quarter := Pow2(height - 2);
      assert half == 2 * quarter;
      PerfectPairs(height - 1, layer[..half]);
      PerfectPairs(height - 1, layer[half..]);
      PairSplits(layer, quarter);
    } else {
      assert Pow2(1) == 2;
      assert Perfect(0, layer[..1]) == layer[0] && Perfect(0, layer[1..]) == layer[1];
    }
  }

  /** The leaf vector padded to a power of two with the empty leaf. */
  function Padded(leaves: seq<Hash>, width: nat): (p: seq<Hash>)
    requires |leaves| <= width
    ensures |p| == width
    ensures forall i :: 0 <= i < width ==> p[i] == if i < |leaves| then leaves[i] else EmptyLeaf
  {
    leaves + seq(width - |leaves|, _ => EmptyLeaf)
  }

  /** The root the source commits; the empty vector commits the empty leaf. */
  ghost function FixedRoot(leaves: seq<Hash>, height: nat): Hash
    requires PadHeight(|leaves|, height)
  {
    Perfect(height, Padded(leaves, Pow2(height)))
  }

  /** The least power of two at or above n. */
  method NextPow2(n: nat) returns (p: nat, ghost height: nat)
    ensures p == Pow2(height) && PadHeight(n, height)
    ensures n <= p && (p == 1 || p < 2 * n)
    ensures exists h :: p == Pow2(h)
  {
    p, height := 1, 0;
    while p < n
      invariant p == Pow2(height)
      invariant height > 0 ==> Pow2(height - 1) < n
      decreases n - p
    {
      p, height := p * 2, height + 1;
    }
  }

  lemma {:induction false} Pow2Grows(a: nat, b: nat)
    requires a <= b
    ensures Pow2(a) <= Pow2(b)
    decreases b
  {
    if a < b {
      Pow2Grows(a, b - 1);
    }
  }

  lemma PadHeightUnique(n: nat, a: nat, b: nat)
    requires PadHeight(n, a) && PadHeight(n, b)
    ensures a == b
  {
    if a < b {
      Pow2Grows(a, b - 1);
    } else if b < a {
      Pow2Grows(b, a - 1);
    }
  }

  method FixedMerkleRoot(leaves: seq<Hash>) returns (root: Hash)
    ensures forall height :: PadHeight(|leaves|, height) ==> root == FixedRoot(leaves, height)
  {
    var width, h := NextPow2(|leaves|);
    forall height | PadHeight(|leaves|, height)
      ensures height == h
    {
      PadHeightUnique(|leaves|, height, h);
    }
    if |leaves| == 0 {
      assert h == 0;
      return EmptyLeaf;
    }
    var layer := Padded(leaves, width);
    ghost var left := h;
    while |layer| > 1
      invariant |layer| == Pow2(left)
      invariant Perfect(left, layer) == FixedRoot(leaves, h)
      decreases |layer|
    {
      PerfectPairs(left, layer);
      layer := PairLayer(layer);
      left := left - 1;
    }
    root := layer[0];
  }

  // ---------------------------------------------------------------------------
  // Inclusion proofs
  // ---------------------------------------------------------------------------

  function Buddy(i: nat): nat {
    if i % 2 == 0 then i + 1 else i - 1
  }

  /** The bottom-up siblings of one index in a perfect layer. */
  ghost function Path(height: nat, layer: seq<Hash>, index: nat): (s: seq<Hash>)
    requires |layer| == Pow2(height) && index < |layer|
    ensures |s| == height
  {
    if height == 0 then []
    else [layer[Buddy(index)]] + Path(height - 1, Pair(layer), index / 2)
  }

  /** One step of a fixed-tree verifier. */
  function Up(node: Hash, index: nat, sibling: Hash): Hash {
    if index % 2 == 0 then NodeHash(node, sibling) else NodeHash(sibling, node)
  }

  lemma UpMeetsPair(layer: seq<Hash>, index: nat, leaf: Hash, sibling: Hash)
    requires |layer| % 2 == 0 && index < |layer|
    ensures Up(leaf, index, sibling) == Pair(layer)[index / 2] <==>
              leaf == layer[index] && sibling == layer[Buddy(index)]
  {
    assert Pair(layer)[index / 2] == NodeHash(layer[2 * (index / 2)], layer[2 * (index / 2) + 1]);
  }

  lemma ConsEqual(s: seq<Hash>, head: Hash, tail: seq<Hash>)
    requires s != []
    ensures s == [head] + tail <==> s[0] == head && s[1..] == tail
  {
    assert s == [s[0]] + s[1..];
    assert ([head] + tail)[1..] == tail;
  }

  /** The node a fixed-tree verifier ends on. */
  function Fold(node: Hash, index: nat, siblings: seq<Hash>): Hash
    decreases |siblings|
  {
    if siblings == [] then node
    else Fold(Up(node, index, siblings[0]), index / 2, siblings[1..])
  }

  /** A full-height proof at an in-range index is accepted exactly for the padded leaf there,
      with exactly the siblings of that index. */
  lemma {:induction false} FoldMeetsPerfect(height: nat, layer: seq<Hash>, index: nat, leaf: Hash, siblings: seq<Hash>)
    requires |layer| == Pow2(height) && index < |layer| && |siblings| == height
    ensures Fold(leaf, index, siblings) == Perfect(height, layer) <==>
              leaf == layer[index] && siblings == Path(height, layer, index)
  {
    if height > 0 {
      PerfectPairs(height, layer);
      var up := Up(leaf, index, siblings[0]);
      var rest := Path(height - 1, Pair(layer), index / 2);
      FoldMeetsPerfect(height - 1, Pair(layer), index / 2, up, siblings[1..]);
      UpMeetsPair(layer, index, leaf, siblings[0]);
      ConsEqual(siblings, layer[Buddy(index)], rest);
    }
  }

  /** Indices above the width alias: only the index modulo the width reaches the fold. */
  lemma {:induction false} FoldIgnoresHighBits(height: nat, leaf: Hash, index: nat, siblings: seq<Hash>)
    requires |siblings| == height
    ensures Fold(leaf, index + Pow2(height), siblings) == Fold(leaf, index, siblings)
  {
    if height > 0 {
      var up := Up(leaf, index, siblings[0]);
      assert (index + Pow2(height)) / 2 == index / 2 + Pow2(height - 1);
      FoldIgnoresHighBits(height - 1, up, index / 2, siblings[1..]);
    }
  }

  /** The layer some levels above the leaves. */
  ghost function Layer(height: nat, leaves: seq<Hash>, level: nat): (layer: seq<Hash>)
    requires |leaves| == Pow2(height) && level <= height
    ensures |layer| == Pow2(height - level)
  {
    if level == 0 then leaves else Pair(Layer(height, leaves, level - 1))
  }

  lemma {:induction false} LayerHasRoot(height: nat, leaves: seq<Hash>, level: nat)
    requires |leaves| == Pow2(height) && level <= height
    ensures Perfect(height - level, Layer(height, leaves, level)) == Perfect(height, leaves)
  {
    if level > 0 {
      LayerHasRoot(height, leaves, level - 1);
      PerfectPairs(height - level + 1, Layer(height, leaves, level - 1));
    }
  }

  /** A proof some levels short is accepted exactly for the inner node of that level and index, which is no
      leaf of the vector: the length is the caller's to check. */
  lemma ShortProofAcceptsNode(height: nat, leaves: seq<Hash>, level: nat, index: nat, node: Hash, siblings: seq<Hash>)
    requires |leaves| == Pow2(height) && level <= height && index < Pow2(height - level) && |siblings| == height - level
    ensures Fold(node, index, siblings) == Perfect(height, leaves) <==>
              && node == Layer(height, leaves, level)[index]
              && siblings == Path(height - level, Layer(height, leaves, level), index)
    ensures level > 0 ==> Layer(height, leaves, level)[index].NodeHash?
  {
    LayerHasRoot(height, leaves, level);
    FoldMeetsPerfect(height - level, Layer(height, leaves, level), index, node, siblings);
  }

  method FixedMerkleProof(leaves: seq<Hash>, index: int) returns (proof: Result<seq<Hash>>)
    ensures proof.Ok? <==> 0 <= index < |leaves|
    ensures proof.Ok? ==> forall height :: PadHeight(|leaves|, height) ==>
      proof.value == Path(height, Padded(leaves, Pow2(height)), index)
  {
    if index < 0 || index >= |leaves| {
      return Err("merkle: index out of range");
    }
    var width, h := NextPow2(|leaves|);
    forall height | PadHeight(|leaves|, height)
      ensures height == h
    {
      PadHeightUnique(|leaves|, height, h);
    }
    var siblings := PathOf(Padded(leaves, width), index, h);
    proof := Ok(siblings);
  }

  /** The sibling of each layer, folding the layer in half until one node is left. */
  method PathOf(leaves: seq<Hash>, index: nat, ghost height: nat) returns (siblings: seq<Hash>)
    requires |leaves| == Pow2(height) && index < |leaves|
    ensures siblings == Path(height, leaves, index)
  {
    siblings := [];
    var layer, idx: nat := leaves, index;
    ghost var left := height;
    while |layer| > 1
      invariant |layer| == Pow2(left) && idx < |layer|
      invariant siblings + Path(left, layer, idx) == Path(height, leaves, index)
      decreases |layer|
    {
      assert Path(left, layer, idx) == [layer[Buddy(idx)]] + Path(left - 1, Pair(layer), idx / 2);
      siblings := siblings + [layer[Buddy(idx)]];
      layer := PairLayer(layer);
      idx, left := idx / 2, left - 1;
    }
  }

  method VerifyFixedMerkleProof(root: Hash, leaf: Hash, index: nat, siblings: seq<Hash>) returns (accepted: bool)
    ensures accepted <==> Fold(leaf, index, siblings) == root
  {
    var node, idx := leaf, index;
    for i := 0 to |siblings|
      invariant Fold(node, idx, siblings[i..]) == Fold(leaf, index, siblings)
    {
      assert siblings[i..][1..] == siblings[i + 1..];
      node := Up(node, idx, siblings[i]);
      idx := idx / 2;
    }
    accepted := node == root;
  }

  /** Completeness and soundness of fixed-tree proofs, for every vector and in-range index. */
  lemma FixedProofExact(leaves: seq<Hash>, height: nat, index: nat, leaf: Hash, siblings: seq<Hash>)
    requires PadHeight(|leaves|, height) && index < Pow2(height) && |siblings| == height
    ensures Fold(leaf, index, siblings) == FixedRoot(leaves, height) <==>
              leaf == Padded(leaves, Pow2(height))[index] &&
              siblings == Path(height, Padded(leaves, Pow2(height)), index)
  {
    FoldMeetsPerfect(height, Padded(leaves, Pow2(height)), index, leaf, siblings);
  }

  lemma {:induction false} PerfectInjective(height: nat, one: seq<Hash>, two: seq<Hash>)
    requires |one| == |two| == Pow2(height)
    ensures Perfect(height, one) == Perfect(height, two) <==> one == two
  {
    if height > 0 {
      var half := Pow2(height - 1);
      PerfectInjective(height - 1, one[..half], two[..half]);
      PerfectInjective(height - 1, one[half..], two[half..]);
      assert one == one[..half] + one[half..] && two == two[..half] + two[half..];
    }
  }

  // ---------------------------------------------------------------------------
  // The state root
  // ---------------------------------------------------------------------------

  const SMT_DEPTH: nat := 256

  const STATE_SUBTREES: seq<string> :=
    ["balances_root", "stakes_root", "ownership_root", "tokens_root", "contract_state_root"]

  /** The leaf of one named slot: an absent sub-tree commits the empty-SMT root. */
  function Slot(subRoots: map<string, Hash>, name: string): Hash {
    if name in subRoots then subRoots[name] else Empty(SMT_DEPTH)
  }

  function StateLeaves(subRoots: map<string, Hash>): (leaves: seq<Hash>)
    ensures |leaves| == 5
    ensures forall i :: 0 <= i < 5 ==> leaves[i] == Slot(subRoots, STATE_SUBTREES[i])
  {
    seq(5, i requires 0 <= i < 5 => Slot(subRoots, STATE_SUBTREES[i]))
  }

  lemma StateHeight()
    ensures PadHeight(5, 3)
  {
    assert Pow2(0) == 1 && Pow2(1) == 2 && Pow2(2) == 4 && Pow2(3) == 8;
  }

  ghost function StateRootOf(subRoots: map<string, Hash>): Hash {
    StateHeight();
    FixedRoot(StateLeaves(subRoots), 3)
  }

  method StateRoot(subRoots: map<string, Hash>) returns (root: Hash)
    ensures root == StateRootOf(subRoots)
  {
    StateHeight();
    root := FixedMerkleRoot(StateLeaves(subRoots));
  }

  /** A sub-root as given, or that of a 256-level tree over no key. */
  ghost function SubRoot(subRoots: map<string, Hash>, name: string): Hash {
    if name in subRoots then subRoots[name] else Root(256, map[])
  }

  /** The state root as a term: the five sub-roots in their fixed order, padded with three empty leaves. */
  lemma StateRootIsTerm(subRoots: map<string, Hash>)
    ensures StateRootOf(subRoots) ==
            NodeHash(NodeHash(NodeHash(SubRoot(subRoots, "balances_root"), SubRoot(subRoots, "stakes_root")),
                              NodeHash(SubRoot(subRoots, "ownership_root"), SubRoot(subRoots, "tokens_root"))),
                     NodeHash(NodeHash(SubRoot(subRoots, "contract_state_root"), EmptyLeaf),
                              NodeHash(EmptyLeaf, EmptyLeaf)))
  {
    StateHeight();
    EmptyTree(256, map[], []);
    assert Pow2(0) == 1 && Pow2(1) == 2 && Pow2(2) == 4 && Pow2(3) == 8;
    var p := Padded(StateLeaves(subRoots), 8);
    EightLeaves(p);
  }

  lemma FourLeaves(p: seq<Hash>)
    requires |p| == 4
    ensures Pow2(2) == 4 && Perfect(2, p) == NodeHash(NodeHash(p[0], p[1]), NodeHash(p[2], p[3]))
  {
    assert Pow2(0) == 1 && Pow2(1) == 2 && Pow2(2) == 4;
    TwoLeaves(p[..2]);
    TwoLeaves(p[2..]);
  }

  lemma TwoLeaves(p: seq<Hash>)
    requires |p| == 2
    ensures Pow2(1) == 2 && Perfect(1, p) == NodeHash(p[0], p[1])
  {
    assert Pow2(0) == 1 && Pow2(1) == 2;
    assert Perfect(0, p[..1]) == p[0] && Perfect(0, p[1..]) == p[1];
  }

  lemma EightLeaves(p: seq<Hash>)
    requires |p| == 8
    ensures Pow2(3) == 8
    ensures Perfect(3, p) == NodeHash(NodeHash(NodeHash(p[0], p[1]), NodeHash(p[2], p[3])),
                                      NodeHash(NodeHash(p[4], p[5]), NodeHash(p[6], p[7])))
  {
    assert Pow2(0) == 1 && Pow2(1) == 2 && Pow2(2) == 4 && Pow2(3) == 8;
    FourLeaves(p[..4]);
    FourLeaves(p[4..]);
  }

  /** Equal state roots force equal sub-roots under every named slot, and only that. */
  lemma StateRootDeterminesSlots(one: map<string, Hash>, two: map<string, Hash>)
    ensures StateRootOf(one) == StateRootOf(two) <==>
              forall name <- STATE_SUBTREES :: Slot(one, name) == Slot(two, name)
  {
    StateHeight();
    var a, b := Padded(StateLeaves(one), Pow2(3)), Padded(StateLeaves(two), Pow2(3));
    PerfectInjective(3, a, b);
    if a == b {
      forall i | 0 <= i < 5
        ensures Slot(one, STATE_SUBTREES[i]) == Slot(two, STATE_SUBTREES[i])
      {
        assert a[i] == b[i];
      }
    }
    if forall name <- STATE_SUBTREES :: Slot(one, name) == Slot(two, name) {
      assert forall i :: 0 <= i < 5 ==> STATE_SUBTREES[i] in STATE_SUBTREES;
      assert StateLeaves(one) == StateLeaves(two);
    }
  }

  method IndexOf(name: string) returns (index: int)
    ensures index == -1 <==> name !in STATE_SUBTREES
    ensures index != -1 ==> 0 <= index < 5 && STATE_SUBTREES[index] == name
  {
    for i := 0 to |STATE_SUBTREES|
      invariant name !in STATE_SUBTREES[..i]
    {
      if STATE_SUBTREES[i] == name {
        return i;
      }
    }
    return -1;
  }

  /** A named sub-root's proof: full height, accepted against the state root, for that slot only. */
  method StateRootProof(subRoots: map<string, Hash>, name: string) returns (index: int, proof: Result<seq<Hash>>)
    ensures proof.Ok? <==> name in STATE_SUBTREES
    ensures proof.Ok? ==> 0 <= index < 5 && STATE_SUBTREES[index] == name && |proof.value| == 3
    ensures proof.Ok? ==> forall leaf ::
      Fold(leaf, index, proof.value) == StateRootOf(subRoots) <==> leaf == Slot(subRoots, name)
  {
    StateHeight();
    index := IndexOf(name);
    if index < 0 {
      return index, Err("merkle: unknown state sub-tree");
    }
    proof := FixedMerkleProof(StateLeaves(subRoots), index);
    forall leaf
      ensures Fold(leaf, index, proof.value) == StateRootOf(subRoots) <==> leaf == Slot(subRoots, name)
    {
      assert Pow2(3) == 8;
      FixedProofExact(StateLeaves(subRoots), 3, index, leaf, proof.value);
    }
  }
}
