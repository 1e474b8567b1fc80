/** Block hashes and store indexes, as the blob store's clients see them.

    A store index is the set of block hashes it lists; merging two indexes
    (the C library's MergeStoreIndex) is set union by block hash. */
module StoreIndexes {

  const HASH_LIMIT: int := 0x1_0000_0000_0000_0000

  /** An unsigned 64-bit block hash. */
  type BlockHash = h: int | 0 <= h < HASH_LIMIT

  type Index = set<BlockHash>

  /** Everything listed by some index of a sequence: the result of merging it. */
  function MergeAll(parts: seq<Index>): Index {
    set i, h | 0 <= i < |parts| && h in parts[i] :: h
  }

  lemma MergeAllContains(parts: seq<Index>, i: nat)
    requires i < |parts|
    ensures parts[i] <= MergeAll(parts)
  {}

  lemma MergeAllSnoc(parts: seq<Index>, part: Index)
    ensures MergeAll(parts + [part]) == MergeAll(parts) + part
  {
    var all := parts + [part];
    forall h | h in MergeAll(parts) + part
      ensures h in MergeAll(all)
    {
      if h in part {
        assert all[|parts|] == part;
      } else {
        var i :| 0 <= i < |parts| && h in parts[i];
        assert all[i] == parts[i];
      }
    }
  }
}
