/** Hash values of the light-client commitments, taken as free constructors.

    SHA-256 with the domain prefixes 0x00 (leaf), 0x01 (node) and 0x02 (empty leaf) is
    modelled as an injective, domain-separated term algebra.
 */
module Hashing {

  datatype Option<+T> = None | Some(value: T)

  datatype Result<+T> = Ok(value: T) | Err(error: string)

  datatype Hash =
    | EmptyLeaf
    | LeafHash(text: string)
    | NodeHash(left: Hash, right: Hash)

  /** The frozen EMPTY table: the root of an all-empty subtree of the given height. */
  function Empty(height: nat): Hash {
    if height == 0 then EmptyLeaf else NodeHash(Empty(height - 1), Empty(height - 1))
  }

  /** The value leaf a proof climbs from: an absent key stands for the empty leaf. */
  function LeafOrEmpty(leaf: Option<Hash>): Hash {
    if leaf.Some? then leaf.value else EmptyLeaf
  }
}
