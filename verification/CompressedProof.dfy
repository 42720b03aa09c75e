/** The bitmap-compressed sparse Merkle proof: `compressSmtProof`, `decompressSmtProof` and
    `verifyCompressedSmtProof`. The bitmap is one bit per depth, nearest the root first. */
module CompressedProof {
  import opened Hashing
  import opened SparseMerkle

  datatype Compressed = Compressed(bitmap: seq<bool>, siblings: seq<Hash>)

  /** The constant a clear bit stands for: the sibling at depth d roots a subtree of height depth-1-d. */
  function EmptySibling(depth: nat, d: nat): Hash
    requires d < depth
  {
    Empty(depth - 1 - d)
  }

  function SetBits(bitmap: seq<bool>): nat {
    if bitmap == [] then 0 else SetBits(bitmap[..|bitmap| - 1]) + (if bitmap[|bitmap| - 1] then 1 else 0)
  }

  /** What a full-length sibling vector keeps: the siblings that differ from their constant. */
  ghost function Kept(depth: nat, siblings: seq<Hash>, upto: nat): seq<Hash>
    requires upto <= depth && upto <= |siblings|
  {
    if upto == 0 then []
    else
      var d := upto - 1;
      Kept(depth, siblings, d) + (if siblings[d] != EmptySibling(depth, d) then [siblings[d]] else [])
  }

  ghost predicate Marks(depth: nat, bitmap: seq<bool>, siblings: seq<Hash>)
    requires |siblings| >= depth
  {
    |bitmap| == depth && forall d :: 0 <= d < depth ==> (bitmap[d] <==> siblings[d] != EmptySibling(depth, d))
  }

  /** The compressed form of a sibling vector. */
  ghost function Compression(depth: nat, siblings: seq<Hash>): (c: Compressed)
    requires |siblings| == depth
    ensures Marks(depth, c.bitmap, siblings)
  {
    Compressed(seq(depth, d requires 0 <= d < depth => siblings[d] != EmptySibling(depth, d)),
               Kept(depth, siblings, depth))
  }

  /** The i-th sibling a compressed form expands to, given enough carried siblings. */
  ghost predicate Expands(depth: nat, c: Compressed, full: seq<Hash>) {
    && |full| == |c.bitmap| == depth
    && SetBits(c.bitmap) == |c.siblings|
    && forall d :: 0 <= d < depth ==>
         full[d] == if c.bitmap[d] then c.siblings[Rank(c, d)] else EmptySibling(depth, d)
  }

  /** The position of depth d's sibling among the carried ones. */
  ghost function Rank(c: Compressed, d: nat): (r: nat)
    requires d < |c.bitmap| && c.bitmap[d] && SetBits(c.bitmap) == |c.siblings|
    ensures r < |c.siblings|
  {
    SetBitsSplit(c.bitmap, d + 1);
    assert c.bitmap[..d + 1][..d] == c.bitmap[..d];
    SetBits(c.bitmap[..d])
  }

  lemma {:induction false} SetBitsSplit(bitmap: seq<bool>, d: nat)
    requires d <= |bitmap|
    ensures SetBits(bitmap[..d]) <= SetBits(bitmap)
    decreases |bitmap|
  {
    if d == |bitmap| {
      assert bitmap[..d] == bitmap;
    } else {
      var short := bitmap[..|bitmap| - 1];
      SetBitsSplit(short, d);
      assert short[..d] == bitmap[..d];
    }
  }

  method CompressSmtProof(depth: nat, siblings: seq<Hash>) returns (c: Compressed)
    requires |siblings| >= depth
    ensures c == Compression(depth, siblings[..depth])
  {
    var bitmap, kept := [], [];
    for d := 0 to depth
      invariant |bitmap| == d
      invariant forall i :: 0 <= i < d ==> (bitmap[i] <==> siblings[i] != EmptySibling(depth, i))
      invariant kept == Kept(depth, siblings[..depth], d)
    {
      if siblings[d] != EmptySibling(depth, d) {
        bitmap, kept := bitmap + [true], kept + [siblings[d]];
      } else {
        bitmap := bitmap + [false];
      }
    }
    c := Compressed(bitmap, kept);
    assert bitmap == Compression(depth, siblings[..depth]).bitmap;
  }

  /** Decompression succeeds exactly when the carried siblings match the set bits in number. */
  method DecompressSmtProof(depth: nat, c: Compressed) returns (full: Result<seq<Hash>>)
    requires |c.bitmap| == depth
    ensures full.Ok? <==> SetBits(c.bitmap) == |c.siblings|
    ensures full.Ok? ==> Expands(depth, c, full.value)
  {
    var out: seq<Hash> := [];
    var ri := 0;
    for d := 0 to depth
      invariant |out| == d && ri == SetBits(c.bitmap[..d])
      invariant SetBits(c.bitmap) == |c.siblings| ==>
        forall i :: 0 <= i < d ==> out[i] == if c.bitmap[i] then c.siblings[Rank(c, i)] else EmptySibling(depth, i)
    {
      assert c.bitmap[..d + 1][..d] == c.bitmap[..d];
      if c.bitmap[d] {
        // A read past the carried siblings is undefined in the source; the count check below refuses it.
        out := out + [if ri < |c.siblings| then c.siblings[ri] else EmptyLeaf];
        ri := ri + 1;
      } else {
        out := out + [EmptySibling(depth, d)];
      }
    }
    assert c.bitmap[..depth] == c.bitmap;
    if ri != |c.siblings| {
      return Err("merkle: surplus siblings in compressed proof");
    }
    full := Ok(out);
  }

  lemma {:induction false} KeptIsRanked(depth: nat, siblings: seq<Hash>, bitmap: seq<bool>, upto: nat)
    requires |siblings| == depth && upto <= depth && Marks(depth, bitmap, siblings)
    ensures |Kept(depth, siblings, upto)| == SetBits(bitmap[..upto])
    ensures forall d :: 0 <= d < upto && bitmap[d] ==>
              SetBits(bitmap[..d]) < |Kept(depth, siblings, upto)| &&
              Kept(depth, siblings, upto)[SetBits(bitmap[..d])] == siblings[d]
  {
    if upto > 0 {
      KeptIsRanked(depth, siblings, bitmap, upto - 1);
      assert bitmap[..upto][..upto - 1] == bitmap[..upto - 1];
    }
  }

  /** Round trip: decompressing the compressed form gives every full-length vector back. */
  lemma DecompressCompress(depth: nat, siblings: seq<Hash>, full: seq<Hash>)
    requires |siblings| == depth
    ensures SetBits(Compression(depth, siblings).bitmap) == |Compression(depth, siblings).siblings|
    ensures Expands(depth, Compression(depth, siblings), full) <==> full == siblings
  {
    var c := Compression(depth, siblings);
    KeptIsRanked(depth, siblings, c.bitmap, depth);
    assert c.bitmap[..depth] == c.bitmap;
    forall d | 0 <= d < depth
      ensures siblings[d] == if c.bitmap[d] then c.siblings[Rank(c, d)] else EmptySibling(depth, d)
    {
    }
  }

  /** Compressing a tree's own proof: bit d is clear exactly when the map holds no leaf on the other side at
      depth d, and there is one carried sibling per side that holds one. */
  lemma ClearBitsAreEmptySides(depth: nat, m: map<Key, Hash>, key: Key, d: nat)
    requires |key| == depth && d < depth && NoEmptyLeaf(m) && FullKeys(depth, m)
    ensures Compression(depth, Siblings(depth, m, key)).bitmap[d] <==> exists k <- m :: key[..d] + [!key[d]] <= k
  {
    var side := key[..d] + [!key[d]];
    var none: map<Key, Hash> := map[];
    EmptyTree(depth, none, side);
    TreeDeterminesLeaves(depth, m, none, side);
    assert Siblings(depth, m, key)[d] == Tree(depth, m, side);
    if k :| k in m && side <= k {
      assert LeafAt(m, k) != LeafAt(none, k);
    }
  }

  /** A compressed form is canonical when no carried sibling is the constant its bit denies. */
  ghost predicate Canonical(depth: nat, c: Compressed)
    requires |c.bitmap| == depth && SetBits(c.bitmap) == |c.siblings|
  {
    forall d :: 0 <= d < depth && c.bitmap[d] ==> c.siblings[Rank(c, d)] != EmptySibling(depth, d)
  }

  lemma {:induction false} KeptOfExpansion(depth: nat, c: Compressed, full: seq<Hash>, upto: nat)
    requires Expands(depth, c, full) && Canonical(depth, c) && upto <= depth
    ensures SetBits(c.bitmap[..upto]) <= |c.siblings|
    ensures Kept(depth, full, upto) == c.siblings[..SetBits(c.bitmap[..upto])]
  {
    SetBitsSplit(c.bitmap, upto);
    if upto > 0 {
      var d := upto - 1;
      KeptOfExpansion(depth, c, full, d);
      assert c.bitmap[..upto][..d] == c.bitmap[..d];
      if c.bitmap[d] {
        var r := Rank(c, d);
        assert c.siblings[..r + 1] == c.siblings[..r] + [c.siblings[r]];
      }
    }
  }

  /** Compressing a decompressed form gives it back exactly when it was canonical. */
  lemma CompressDecompress(depth: nat, c: Compressed, full: seq<Hash>)
    requires Expands(depth, c, full)
    ensures Compression(depth, full) == c <==> Canonical(depth, c)
  {
    var again := Compression(depth, full);
    if Canonical(depth, c) {
      KeptOfExpansion(depth, c, full, depth);
      assert c.bitmap[..depth] == c.bitmap;
      assert c.siblings[..|c.siblings|] == c.siblings;
      assert again.bitmap == c.bitmap;
    }
    if again == c {
      forall d | 0 <= d < depth && c.bitmap[d]
        ensures c.siblings[Rank(c, d)] != EmptySibling(depth, d)
      {
        assert again.bitmap[d];
      }
    }
  }

  /** Verifying a compressed proof is verifying its expansion; a miscounted form is refused. */
  method VerifyCompressedSmtProof(depth: nat, root: Hash, key: Key, leaf: Option<Hash>, c: Compressed)
    returns (verdict: Result<bool>)
    requires |key| == depth && |c.bitmap| == depth
    ensures verdict.Ok? <==> SetBits(c.bitmap) == |c.siblings|
    ensures verdict.Ok? ==>
      forall full :: Expands(depth, c, full) ==> (verdict.value <==> Accepts(depth, root, key, leaf, full))
    ensures forall s: seq<Hash> :: |s| == depth && c == Compression(depth, s) ==>
      verdict == Ok(Accepts(depth, root, key, leaf, s))
  {
    var full := DecompressSmtProof(depth, c);
    if full.Err? {
      verdict := Err(full.error);
    } else {
      var accepted := VerifySmtProof(depth, root, key, leaf, full.value);
      verdict := Ok(accepted);
      forall other | Expands(depth, c, other)
        ensures other == full.value
      {
      }
    }
    forall s: seq<Hash> | |s| == depth && c == Compression(depth, s)
      ensures verdict == Ok(Accepts(depth, root, key, leaf, s))
    {
      DecompressCompress(depth, s, s);
    }
  }
}
