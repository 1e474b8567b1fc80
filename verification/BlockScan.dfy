/** Rebuilding a store index by scanning the block objects: keys are handled in
    batches, one client and one goroutine per key of a batch; the valid block
    indexes of a batch are compacted in place and merged into the result. */
module BlockScan {
  import opened StoreIndexes
  import opened Options
  import opened BlockPaths

  /** `content(key)`: the hash in the block index stored under the key, if the
      object can be read and decoded. It counts only at its own path. */
  function Indexed(key: string, content: string -> Option<BlockHash>): Option<BlockHash> {
    if content(key).Some? && BlockPath(content(key).value) == Normalize(key) then content(key) else None
  }

  /** All blocks that are stored at their own path. */
  function IndexOf(keys: seq<string>, content: string -> Option<BlockHash>): Index {
    set key | key in keys && Indexed(key, content).Some? :: Indexed(key, content).value
  }

  /** Block h is stored under one of the keys, at its own path. */
  ghost predicate Stored(keys: seq<string>, content: string -> Option<BlockHash>, h: BlockHash) {
    exists key :: key in keys && content(key) == Some(h) && BlockPath(h) == Normalize(key)
  }

  lemma IndexedIsStored(keys: seq<string>, content: string -> Option<BlockHash>)
    ensures forall h :: h in IndexOf(keys, content) <==> Stored(keys, content, h)
  {
    forall h | Stored(keys, content, h)
      ensures h in IndexOf(keys, content)
    {
      var key :| key in keys && content(key) == Some(h) && BlockPath(h) == Normalize(key);
      assert Indexed(key, content) == Some(h);
    }
  }

  // ------------------------------------------------------------- compaction

  /** The entries that are there, in order. */
  function Present(slots: seq<Option<BlockHash>>): seq<Option<BlockHash>> {
    if slots == [] then []
    else
      var n := |slots| - 1;
      Present(slots[..n]) + if slots[n].Some? then [slots[n]] else []
  }

  /** One by one, the entries that are there stay and the others go. */
  lemma {:induction false} PresentConcat(a: seq<Option<BlockHash>>, b: seq<Option<BlockHash>>)
    ensures Present(a + b) == Present(a) + Present(b)
  {
    if b == [] {
      assert a + b == a;
    } else {
      var n := |b| - 1;
      PresentConcat(a, b[..n]);
      assert (a + b)[..|a| + n] == a + b[..n];
    }
  }

  lemma PresentOne(entry: Option<BlockHash>)
    ensures Present([entry]) == if entry.Some? then [entry] else []
  {
    assert [entry][..0] == [];
  }

  lemma {:induction false} PresentElements(slots: seq<Option<BlockHash>>, h: BlockHash)
    ensures |Present(slots)| <= |slots|
    ensures Some(h) in Present(slots) <==> Some(h) in slots
    ensures None !in Present(slots)
  {
    if slots != [] {
      var n := |slots| - 1;
      PresentElements(slots[..n], h);
      assert slots == slots[..n] + [slots[n]];
    }
  }

  method Compact(slots: array<Option<BlockHash>>) returns (writeIndex: nat)
    modifies slots
    ensures writeIndex <= slots.Length
    ensures slots[..writeIndex] == Present(old(slots[..]))
    ensures slots[writeIndex..] == old(slots[..])[writeIndex..]
  {
    writeIndex := 0;
    assert slots[..0] == [];
    for i := 0 to slots.Length
      invariant writeIndex <= i
      invariant slots[..writeIndex] == Present(old(slots[..])[..i])
      invariant forall k :: writeIndex <= k < slots.Length ==> slots[k] == old(slots[k])
    {
      assert old(slots[..])[..i + 1][..i] == old(slots[..])[..i];
      var blockIndex := slots[i];
      if blockIndex.None? {
        continue;
      }
      if i > writeIndex {
        slots[writeIndex] := blockIndex;
      }
      writeIndex := writeIndex + 1;
    }
    assert old(slots[..])[..slots.Length] == old(slots[..]);
  }

  // ------------------------------------------------------------------ batches

  function Positions(n: nat): (ps: set<nat>)
    ensures forall p: nat :: p in ps <==> p < n
  {
    if n == 0 then {} else Positions(n - 1) + {n - 1}
  }

  /** One batch: the goroutines fill their own slots in any order. */
  method ScanBatch(keys: seq<string>, content: string -> Option<BlockHash>) returns (hashes: Index)
    ensures hashes == IndexOf(keys, content)
    ensures forall h :: h in hashes <==> Stored(keys, content, h)
  {
    IndexedIsStored(keys, content);
    var slots := new Option<BlockHash>[|keys|](_ => None);
    var pending := Positions(|keys|);
    while pending != {}
      invariant pending <= Positions(|keys|)
      invariant forall p :: 0 <= p < |keys| ==> slots[p] == if p in pending then None else Indexed(keys[p], content)
    {
      var p :| p in pending;
      pending := pending - {p};
      var blockIndex := content(keys[p]);
      if blockIndex.Some? {
        var blockPath := BlockPath(blockIndex.value);
        if blockPath == Normalize(keys[p]) {
          slots[p] := blockIndex;
        }
      }
    }
    ghost var filled := slots[..];
    var writeIndex := Compact(slots);
    var compacted := slots[..writeIndex];
    hashes := set b | b in compacted && b.Some? :: b.value;
    BatchHashes(keys, content, filled, compacted, hashes);
  }

  lemma BatchHashes(
      keys: seq<string>, content: string -> Option<BlockHash>, filled: seq<Option<BlockHash>>,
      compacted: seq<Option<BlockHash>>, hashes: Index)
    requires |filled| == |keys| && forall p :: 0 <= p < |keys| ==> filled[p] == Indexed(keys[p], content)
    requires compacted == Present(filled)
    requires hashes == set b | b in compacted && b.Some? :: b.value
    ensures hashes == IndexOf(keys, content)
  {
    forall h: BlockHash
      ensures h in hashes <==> h in IndexOf(keys, content)
    {
      PresentElements(filled, h);
      assert h in hashes <==> Some(h) in compacted;
      if Some(h) in filled {
        var p :| 0 <= p < |filled| && filled[p] == Some(h);
        assert keys[p] in keys;
      }
      if h in IndexOf(keys, content) {
        var key :| key in keys && Indexed(key, content) == Some(h);
        var p :| 0 <= p < |keys| && keys[p] == key;
        assert filled[p] == Some(h);
      }
    }
  }

  lemma IndexOfConcat(a: seq<string>, b: seq<string>, content: string -> Option<BlockHash>)
    ensures IndexOf(a + b, content) == IndexOf(a, content) + IndexOf(b, content)
  {
    assert forall key :: key in a + b <==> key in a || key in b;
  }

  predicate IsMultiple(b: nat, size: nat)
    requires size >= 1
  {
    b == 0 || (b >= size && IsMultiple(b - size, size))
  }

  /** The first key of some batch is at index b. */
  predicate StartsBatch(b: nat, keys: seq<string>, workerCount: nat)
    requires workerCount >= 1
  {
    b < |keys| && IsMultiple(b, if workerCount > |keys| then |keys| else workerCount)
  }

  /** `setupWorks`: the empty index and the clients can be made;
      `mergeable(b)`: the index of the batch starting at b can be made and
      merged. With a worker count of 0 and any key the loop would not advance. */
  method GetStoreIndexFromBlocks(
      keys: seq<string>, workerCount: nat, content: string -> Option<BlockHash>, setupWorks: bool,
      mergeable: nat -> bool)
    returns (storeIndex: Option<Index>)
    requires workerCount >= 1
    ensures storeIndex.Some? <==> setupWorks && forall b: nat :: StartsBatch(b, keys, workerCount) ==> mergeable(b)
    ensures storeIndex.Some? ==> storeIndex.value == IndexOf(keys, content)
    ensures storeIndex.Some? ==> forall h :: h in storeIndex.value <==> Stored(keys, content, h)
  {
    IndexedIsStored(keys, content);
    if !setupWorks {
      return None;
    }
    var batchCount := workerCount;
    if batchCount > |keys| {
      batchCount := |keys|;
    }
    var merged: Index := {};
    var batchStart: nat := 0;
    while batchStart < |keys|
      invariant ScannedTo(keys, batchCount, batchStart, mergeable)
      invariant merged == IndexOf(keys[..batchStart], content)
    {
      var batchLength := batchCount;
      if batchStart + batchLength > |keys| {
        batchLength := |keys| - batchStart;
      }
      var batch := ScanBatch(keys[batchStart..batchStart + batchLength], content);
      if !mergeable(batchStart) {
        assert StartsBatch(batchStart, keys, workerCount);
        return None;
      }
      NextBatch(keys, batchCount, batchStart, batchLength, mergeable);
      IndexOfNext(keys, batchStart, batchLength, content);
      merged := merged + batch;
      batchStart := batchStart + batchLength;
    }
    assert keys[..batchStart] == keys;
    return Some(merged);
  }

  /** All batches before index `start` could be merged; a batch starts there,
      unless the keys are used up. */
  predicate ScannedTo(keys: seq<string>, size: nat, start: nat, mergeable: nat -> bool) {
    && start <= |keys| && (start < |keys| ==> size >= 1 && IsMultiple(start, size))
    && forall b: nat :: b < start && size >= 1 && IsMultiple(b, size) ==> mergeable(b)
  }

  lemma NextBatch(keys: seq<string>, size: nat, start: nat, length: nat, mergeable: nat -> bool)
    requires ScannedTo(keys, size, start, mergeable) && start < |keys| && mergeable(start)
    requires length == if start + size > |keys| then |keys| - start else size
    ensures ScannedTo(keys, size, start + length, mergeable)
  {
    NoBatchWithin(start, size);
  }

  lemma IndexOfNext(keys: seq<string>, start: nat, length: nat, content: string -> Option<BlockHash>)
    requires start + length <= |keys|
    ensures IndexOf(keys[..start + length], content) ==
            IndexOf(keys[..start], content) + IndexOf(keys[start..start + length], content)
  {
    assert keys[..start + length] == keys[..start] + keys[start..start + length];
    IndexOfConcat(keys[..start], keys[start..start + length], content);
  }

  lemma {:induction false} NoBatchWithin(start: nat, size: nat)
    requires size >= 1 && IsMultiple(start, size)
    ensures IsMultiple(start + size, size)
    ensures forall b: nat :: start < b < start + size ==> !IsMultiple(b, size)
  {
    if start > 0 {
      NoBatchWithin(start - size, size);
      forall b: nat | start < b < start + size
        ensures !IsMultiple(b, size)
      {
        assert !IsMultiple(b - size, size);
      }
    }
  }

  // ------------------------------------------------------------------- theorem

  /** Scanning a store whose keys are normal finds exactly the blocks stored at
      their own path, each under one key; a block stored under another name is
      not indexed. */
  lemma ScanRecoversBlocks(keys: seq<string>, content: string -> Option<BlockHash>, h: BlockHash)
    requires forall key :: key in keys ==> Normalize(key) == key
    ensures h in IndexOf(keys, content) <==> BlockPath(h) in keys && content(BlockPath(h)) == Some(h)
    ensures forall key :: key in keys && Indexed(key, content) == Some(h) ==> key == BlockPath(h)
    ensures forall g: BlockHash :: g != h ==> BlockPath(g) != BlockPath(h)
  {
    forall g: BlockHash | BlockPath(g) == BlockPath(h)
      ensures g == h
    {
      BlockPathIsInjective(g, h);
    }
    BlockPathIsNormal(h);
    if BlockPath(h) in keys && content(BlockPath(h)) == Some(h) {
      assert Indexed(BlockPath(h), content) == Some(h);
    }
  }
}
