/** The critical sections of fetchBlock, prefetchBlock and flushPrefetch, as the
    code runs them on the shared map. */
module PrefetchCacheCode {
  import opened StoreIndexes
  import opened Options
  import opened PrefetchCache

  predicate PendingIn(entries: map<BlockHash, Entry>, h: BlockHash) {
    h in entries && entries[h].Pending?
  }

  class RemoteStore {
    var prefetchBlocks: map<BlockHash, Entry>
    var prefetchMemory: int
    /** Every call of OnComplete, in order. */
    var callbacks: seq<Completion>

    function View(): Cache
      reads this
    {
      Cache(prefetchBlocks, prefetchMemory, callbacks)
    }

    constructor ()
      ensures View() == Cache(map[], 0, [])
    {
      prefetchBlocks, prefetchMemory, callbacks := map[], 0, [];
    }

    method OnComplete(request: Request, outcome: Outcome)
      modifies this`callbacks
      ensures callbacks == old(callbacks) + [Completion(request, outcome)]
    {
      callbacks := callbacks + [Completion(request, outcome)];
    }

    /** Up to the download, which the caller makes if `download`. */
    method FetchBlockBegin(request: Request, blockHash: BlockHash) returns (download: bool)
      modifies this
      ensures (View(), download) == FetchBegun(old(View()), request, blockHash)
      ensures download <==> blockHash !in old(prefetchBlocks) || old(prefetchBlocks)[blockHash].Taken?
      ensures blockHash in old(prefetchBlocks) && old(prefetchBlocks)[blockHash].Ready? ==>
                callbacks == old(callbacks) + [Completion(request, old(prefetchBlocks)[blockHash].outcome)]
      ensures download || PendingIn(old(prefetchBlocks), blockHash) ==> callbacks == old(callbacks)
      ensures PendingIn(old(prefetchBlocks), blockHash) ==>
                WaitersAt(prefetchBlocks, blockHash) == WaitersAt(old(prefetchBlocks), blockHash) + [request]
    {
      if blockHash in prefetchBlocks && !prefetchBlocks[blockHash].Taken? {
        var prefetchedBlock := prefetchBlocks[blockHash];
        if prefetchedBlock.Ready? {
          if prefetchedBlock.outcome.Block? {
            prefetchMemory := prefetchMemory - prefetchedBlock.outcome.size;
          }
          prefetchBlocks := prefetchBlocks[blockHash := Taken];
          OnComplete(request, prefetchedBlock.outcome);
          return false;
        }
        prefetchBlocks := prefetchBlocks[blockHash := Pending(prefetchedBlock.waiters + [request])];
        return false;
      }
      prefetchBlocks := prefetchBlocks[blockHash := Pending([])];
      return true;
    }

    /** From the end of the download on; !ok: the entry is gone. */
    method FetchBlockEnd(request: Request, blockHash: BlockHash, outcome: Outcome) returns (ok: bool)
      modifies this
      ensures ok <==> FetchEnded(old(View()), request, blockHash, outcome).Some?
      ensures ok ==> FetchEnded(old(View()), request, blockHash, outcome) == Some(View())
      ensures !ok ==> View() == old(View())
    {
      if blockHash !in prefetchBlocks {
        return false;
      }
      if prefetchBlocks[blockHash].Taken? {
        return true;
      }
      var completeCallbacks := WaitersAt(prefetchBlocks, blockHash);
      prefetchBlocks := prefetchBlocks[blockHash := Taken];
      for i := 0 to |completeCallbacks|
        invariant prefetchMemory == old(prefetchMemory)
        invariant prefetchBlocks == old(prefetchBlocks)[blockHash := Taken]
        invariant callbacks == old(callbacks) + Complete(completeCallbacks[..i], outcome)
      {
        OnComplete(completeCallbacks[i], outcome);
      }
      assert completeCallbacks[..|completeCallbacks|] == completeCallbacks;
      assert callbacks == old(callbacks) + Complete(completeCallbacks, outcome);
      OnComplete(request, outcome);
      assert Complete(completeCallbacks + [request], outcome) ==
             Complete(completeCallbacks, outcome) + [Completion(request, outcome)];
      assert callbacks == old(callbacks) + Complete(completeCallbacks + [request], outcome);
      return true;
    }

    method PrefetchBlockBegin(blockHash: BlockHash) returns (download: bool)
      modifies this
      ensures (View(), download) == PrefetchBegun(old(View()), blockHash)
    {
      if blockHash in prefetchBlocks {
        return false;
      }
      prefetchBlocks := prefetchBlocks[blockHash := Pending([])];
      return true;
    }

    /** The loop runs over callbacks 1 to the last but one; callback 0 comes last. */
    method PrefetchBlockEnd(blockHash: BlockHash, outcome: Outcome)
      modifies this
      ensures View() == PrefetchEnded(old(View()), blockHash, outcome)
    {
      if blockHash !in prefetchBlocks || prefetchBlocks[blockHash].Taken? {
        return;
      }
      var completeCallbacks := WaitersAt(prefetchBlocks, blockHash);
      if |completeCallbacks| == 0 {
        if outcome.Block? {
          prefetchMemory := prefetchMemory + outcome.size;
        }
        prefetchBlocks := prefetchBlocks[blockHash := Ready(outcome)];
        return;
      }
      prefetchBlocks := prefetchBlocks[blockHash := Taken];
      var i := 1;
      while i < |completeCallbacks| - 1
        invariant 1 <= i <= |completeCallbacks|
        invariant |completeCallbacks| >= 2 ==> i <= |completeCallbacks| - 1
        invariant |completeCallbacks| == 1 ==> i == 1
        invariant prefetchMemory == old(prefetchMemory)
        invariant prefetchBlocks == old(prefetchBlocks)[blockHash := Taken]
        invariant callbacks == old(callbacks) + Complete(completeCallbacks[1..i], outcome)
      {
        OnComplete(completeCallbacks[i], outcome);
        i := i + 1;
      }
      OnComplete(completeCallbacks[0], outcome);
    }

    /** Collect what nobody waits for, visiting the entries in any order, then
        remove it. */
    method FlushPrefetch()
      modifies this
      ensures View() == Flushed(old(View()))
      ensures callbacks == old(callbacks)
      ensures forall h :: h in prefetchBlocks <==> h in old(prefetchBlocks) && WaitersAt(old(prefetchBlocks), h) != []
      ensures forall h :: h in prefetchBlocks ==> prefetchBlocks[h] == old(prefetchBlocks)[h]
    {
      ghost var entries := prefetchBlocks;
      var flushBlocks: seq<BlockHash> := [];
      var rest := prefetchBlocks.Keys;
      while rest != {}
        invariant rest <= entries.Keys && unchanged(this)
        invariant forall h :: h in flushBlocks <==> h in entries.Keys - rest && !HasWaiters(entries[h])
        invariant forall i, j :: 0 <= i < j < |flushBlocks| ==> flushBlocks[i] != flushBlocks[j]
      {
        var k :| k in rest;
        rest := rest - {k};
        if !HasWaiters(prefetchBlocks[k]) {
          flushBlocks := flushBlocks + [k];
        }
      }
      RemoveEntries(flushBlocks);
      assert prefetchBlocks == Waited(entries);
      HeldNothing(prefetchBlocks);
    }

    method RemoveEntries(flushBlocks: seq<BlockHash>)
      requires forall h :: h in flushBlocks ==> h in prefetchBlocks
      requires forall i, j :: 0 <= i < j < |flushBlocks| ==> flushBlocks[i] != flushBlocks[j]
      modifies this
      ensures callbacks == old(callbacks)
      ensures prefetchBlocks == map h | h in old(prefetchBlocks) && h !in flushBlocks :: old(prefetchBlocks)[h]
      ensures prefetchMemory == old(prefetchMemory) - Held(old(prefetchBlocks)) + Held(prefetchBlocks)
    {
      ghost var entries := prefetchBlocks;
      for i := 0 to |flushBlocks|
        invariant callbacks == old(callbacks)
        invariant prefetchBlocks == map h | h in entries && h !in flushBlocks[..i] :: entries[h]
        invariant prefetchMemory == old(prefetchMemory) - Held(entries) + Held(prefetchBlocks)
      {
        var h := flushBlocks[i];
        assert h in flushBlocks && h !in flushBlocks[..i];
        HeldWithout(prefetchBlocks, h);
        var b := prefetchBlocks[h];
        if b.Ready? && b.outcome.Block? {
          prefetchMemory := prefetchMemory - b.outcome.size;
        }
        prefetchBlocks := prefetchBlocks - {h};
        assert flushBlocks[..i + 1] == flushBlocks[..i] + [h];
      }
      assert flushBlocks[..|flushBlocks|] == flushBlocks;
    }
  }
}
