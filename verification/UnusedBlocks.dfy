/** Which objects the block-deletion command deletes: the maps of found and
    used blocks, and the list of unused ones. */
module UnusedBlocks {
  import opened StoreIndexes
  import opened Options

  /** The object recorded for a hash: the last listed object whose name carries
      that hash. `hashOf`: the hash in an object's name, if there is one. */
  function Recorded(listing: seq<string>, hashOf: string -> Option<BlockHash>): map<BlockHash, string> {
    if listing == [] then map[]
    else
      var rest := Recorded(listing[..|listing| - 1], hashOf);
      var name := listing[|listing| - 1];
      if hashOf(name).Some? then rest[hashOf(name).value := name] else rest
  }

  /** The name at index k is the last that carries hash h. */
  predicate LastWith(listing: seq<string>, hashOf: string -> Option<BlockHash>, h: BlockHash, k: nat)
    requires k < |listing|
  {
    hashOf(listing[k]) == Some(h) && forall l :: k < l < |listing| ==> hashOf(listing[l]) != Some(h)
  }

  lemma {:induction false} RecordedIsLast(listing: seq<string>, hashOf: string -> Option<BlockHash>, h: BlockHash)
    ensures h in Recorded(listing, hashOf) <==> exists k :: 0 <= k < |listing| && hashOf(listing[k]) == Some(h)
    ensures h in Recorded(listing, hashOf) ==>
              exists k :: 0 <= k < |listing| && LastWith(listing, hashOf, h, k)
                          && listing[k] == Recorded(listing, hashOf)[h]
  {
    if listing != [] {
      var n := |listing| - 1;
      var rest := listing[..n];
      RecordedIsLast(rest, hashOf, h);
      if hashOf(listing[n]) == Some(h) {
        assert LastWith(listing, hashOf, h, n) && listing[n] == Recorded(listing, hashOf)[h];
      } else if h in Recorded(rest, hashOf) {
        var k :| 0 <= k < |rest| && LastWith(rest, hashOf, h, k) && rest[k] == Recorded(rest, hashOf)[h];
        assert listing[k] == rest[k];
        assert forall l :: k < l < n ==> listing[l] == rest[l];
        assert LastWith(listing, hashOf, h, k);
      } else {
        assert forall k :: 0 <= k < n ==> rest[k] == listing[k];
      }
    }
  }

  /** The names of the listed objects whose hash the index does not use. */
  function UnusedObjects(listing: seq<string>, hashOf: string -> Option<BlockHash>, index: Index): set<string> {
    set name | name in listing && hashOf(name).Some? && hashOf(name).value !in index
  }

  /** Those of them that are recorded under their hash. */
  function RecordedUnused(listing: seq<string>, hashOf: string -> Option<BlockHash>, index: Index): set<string> {
    set h | h in Recorded(listing, hashOf) && h !in index :: Recorded(listing, hashOf)[h]
  }

  lemma RecordedName(listing: seq<string>, hashOf: string -> Option<BlockHash>, h: BlockHash)
    requires h in Recorded(listing, hashOf)
    ensures Recorded(listing, hashOf)[h] in listing && hashOf(Recorded(listing, hashOf)[h]) == Some(h)
  {
    RecordedIsLast(listing, hashOf, h);
  }

  lemma ListedIsRecorded(listing: seq<string>, hashOf: string -> Option<BlockHash>, name: string)
    requires name in listing && hashOf(name).Some?
    ensures hashOf(name).value in Recorded(listing, hashOf)
  {
    RecordedIsLast(listing, hashOf, hashOf(name).value);
    var k :| 0 <= k < |listing| && listing[k] == name;
  }

  lemma RecordedUnusedAreUnused(listing: seq<string>, hashOf: string -> Option<BlockHash>, index: Index)
    ensures RecordedUnused(listing, hashOf, index) <= UnusedObjects(listing, hashOf, index)
  {
    forall h | h in Recorded(listing, hashOf) && h !in index
      ensures Recorded(listing, hashOf)[h] in UnusedObjects(listing, hashOf, index)
    {
      RecordedName(listing, hashOf, h);
    }
  }

  predicate HashesDiffer(names: set<string>, hashOf: string -> Option<BlockHash>) {
    forall a, b :: a in names && b in names && a != b ==> hashOf(a) != hashOf(b)
  }

  /** Every unused object is recorded for deletion exactly if no two of them
      carry the same hash; of several, only the last listed one is. */
  lemma AllUnusedAreRecordedExactly(listing: seq<string>, hashOf: string -> Option<BlockHash>, index: Index)
    ensures RecordedUnused(listing, hashOf, index) == UnusedObjects(listing, hashOf, index)
            <==> HashesDiffer(UnusedObjects(listing, hashOf, index), hashOf)
  {
    RecordedUnusedAreUnused(listing, hashOf, index);
    forall a | a in UnusedObjects(listing, hashOf, index)
      ensures hashOf(a).value in Recorded(listing, hashOf)
      ensures hashOf(Recorded(listing, hashOf)[hashOf(a).value]) == hashOf(a)
      ensures Recorded(listing, hashOf)[hashOf(a).value] in UnusedObjects(listing, hashOf, index)
      ensures a in RecordedUnused(listing, hashOf, index) <==> a == Recorded(listing, hashOf)[hashOf(a).value]
    {
      ListedIsRecorded(listing, hashOf, a);
      RecordedName(listing, hashOf, hashOf(a).value);
      forall h | h in Recorded(listing, hashOf) && Recorded(listing, hashOf)[h] == a
        ensures h == hashOf(a).value
      {
        RecordedName(listing, hashOf, h);
      }
    }
  }

  /** The last listed object with its hash, which the index does not use. */
  ghost predicate LastUnused(
      listing: seq<string>, hashOf: string -> Option<BlockHash>, blockHashes: seq<BlockHash>, name: string)
  {
    && hashOf(name).Some? && hashOf(name).value !in blockHashes
    && exists k :: 0 <= k < |listing| && listing[k] == name && LastWith(listing, hashOf, hashOf(name).value, k)
  }

  lemma RecordedUnusedExactly(
      listing: seq<string>, hashOf: string -> Option<BlockHash>, blockHashes: seq<BlockHash>, name: string)
    ensures name in RecordedUnused(listing, hashOf, set h | h in blockHashes)
            <==> LastUnused(listing, hashOf, blockHashes, name)
  {
    var recorded := Recorded(listing, hashOf);
    forall h | h in recorded
      ensures hashOf(recorded[h]) == Some(h)
    {
      RecordedName(listing, hashOf, h);
    }
    if hashOf(name).Some? {
      RecordedIsLast(listing, hashOf, hashOf(name).value);
    }
  }

  predicate DistinctNames(names: seq<string>) {
    forall x, y :: 0 <= x < y < |names| ==> names[x] != names[y]
  }

  /** The two maps and the list, filled by the code's loops; the found blocks
      are visited in no particular order. */
  method FindUnused(listing: seq<string>, hashOf: string -> Option<BlockHash>, blockHashes: seq<BlockHash>)
    returns (unusedBlocks: seq<string>)
    ensures DistinctNames(unusedBlocks)
    ensures forall name :: name in unusedBlocks <==>
              name in RecordedUnused(listing, hashOf, set h | h in blockHashes)
    ensures forall name :: name in unusedBlocks <==> LastUnused(listing, hashOf, blockHashes, name)
  {
    forall name
      ensures name in RecordedUnused(listing, hashOf, set h | h in blockHashes)
              <==> LastUnused(listing, hashOf, blockHashes, name)
    {
      RecordedUnusedExactly(listing, hashOf, blockHashes, name);
    }
    var blocksFound: map<BlockHash, string> := map[];
    for i := 0 to |listing|
      invariant blocksFound == Recorded(listing[..i], hashOf)
    {
      assert listing[..i + 1][..i] == listing[..i];
      var hash := hashOf(listing[i]);
      if hash.None? {
        continue;
      }
      blocksFound := blocksFound[hash.value := listing[i]];
    }
    assert listing[..|listing|] == listing;
    var blocksUsed: set<BlockHash> := {};
    for i := 0 to |blockHashes|
      invariant blocksUsed == set h | h in blockHashes[..i]
    {
      assert blockHashes[..i + 1] == blockHashes[..i] + [blockHashes[i]];
      blocksUsed := blocksUsed + {blockHashes[i]};
    }
    assert blockHashes[..|blockHashes|] == blockHashes;
    unusedBlocks := [];
    var rest := blocksFound.Keys;
    while rest != {}
      invariant rest <= blocksFound.Keys && DistinctNames(unusedBlocks)
      invariant forall name :: name in unusedBlocks <==>
                  exists h :: h in blocksFound.Keys - rest && h !in blocksUsed && blocksFound[h] == name
    {
      var blockHash :| blockHash in rest;
      forall h | h in blocksFound && blocksFound[h] == blocksFound[blockHash]
        ensures h == blockHash
      {
        RecordedName(listing, hashOf, h);
        RecordedName(listing, hashOf, blockHash);
      }
      assert blocksFound[blockHash] !in unusedBlocks;
      rest := rest - {blockHash};
      if blockHash in blocksUsed {
        continue;
      }
      unusedBlocks := unusedBlocks + [blocksFound[blockHash]];
    }
  }
}
