/** putStoredBlock and the message handlers of the index worker, as the code
    runs them on its local variables. What the store answers is a parameter. */
module IndexPipelineCode {
  import opened StoreIndexes
  import opened Options
  import opened IndexPipeline

  class Remote {
    var objects: Index
    var channel: seq<BlockHash>

    constructor (objects: Index)
      ensures this.objects == objects && channel == []
    {
      this.objects, channel := objects, [];
    }

    /** `handleWorks`, `blobWorks`, `copyWorks`: the object's handle can be made,
        the block serialised, and its block index copied. `probeError`: the
        existence check fails. `outcome(n)`: how the n-th write attempt ends. A
        block is announced exactly if the put succeeds, and after a put that
        succeeds its object is there unless the existence check failed. */
    method PutStoredBlock(
        h: BlockHash, handleWorks: bool, probeError: bool, blobWorks: bool, outcome: nat -> WriteResult,
        copyWorks: bool)
      returns (ok: bool)
      modifies this
      ensures var writes := handleWorks && !probeError && h !in old(objects);
              var written := writes && blobWorks && PutFinally(Writing(h, 0), outcome) == Some(Announcing(h));
              && (ok <==> handleWorks && (writes ==> written) && copyWorks)
              && objects == (if written then old(objects) + {h} else old(objects))
      ensures channel == if ok then old(channel) + [h] else old(channel)
      ensures ok && !probeError ==> h in objects
    {
      if !handleWorks {
        return false;
      }
      if !probeError && h !in objects {
        if !blobWorks {
          return false;
        }
        var written := WriteObject(h, outcome);
        if !written {
          return false;
        }
      }
      if !copyWorks {
        return false;
      }
      channel := channel + [h];
      return true;
    }

    /** The first attempt and up to three retries. */
    method WriteObject(h: BlockHash, outcome: nat -> WriteResult) returns (ok: bool)
      modifies this`objects
      ensures ok <==> PutFinally(Writing(h, 0), outcome) == Some(Announcing(h))
      ensures ok <==> AcceptedIn(outcome, 0)
      ensures objects == if ok then old(objects) + {h} else old(objects)
    {
      PutEndsWellExactly(Writing(h, 0), outcome);
      var result := outcome(0);
      if result == WriteError {
        return false;
      }
      var refused := 0;
      while result == Refused && refused < 3
        invariant 0 <= refused <= 3 && result == outcome(refused) && result != WriteError
        invariant PutFinally(Writing(h, 0), outcome) == PutFinally(Writing(h, refused), outcome)
        decreases 3 - refused
      {
        refused := refused + 1;
        result := outcome(refused);
        if result == WriteError {
          return false;
        }
      }
      if result == Refused {
        return false;
      }
      objects := objects + {h};
      return true;
    }

    /** After a deletion that worked the object is gone, and whatever happens no
        other object is touched. */
    method DeleteBlock(h: BlockHash, works: bool) returns (ok: bool)
      modifies this`objects
      ensures ok <==> works
      ensures h in objects <==> h in old(objects) && !ok
      ensures forall k :: k != h ==> (k in objects <==> k in old(objects))
    {
      ok := works;
      if works {
        objects := objects - {h};
      }
    }
  }

  /** What addBlocksToRemoteStoreIndex reports: an error, or success with an
      index or (after the first write of `store.lsi`) without one. */
  datatype AddResult = AddFailed | AddDone(returned: Option<Index>)

  class ContentIndexWorker {
    const accessType: Access
    var storeIndex: Option<Index>
    var addedBlockIndexes: seq<BlockHash>
    var err: IndexError

    /** The worker's variables are those of session x. */
    ghost predicate Shows(x: Session)
      reads this
    {
      && x.access == accessType && x.cached == storeIndex
      && x.added == Elements(addedBlockIndexes) && x.err == err
    }

    constructor (accessType: Access)
      ensures Shows(New(accessType))
    {
      this.accessType := accessType;
      storeIndex, addedBlockIndexes, err := None, [], NoError;
    }

    method OnBlockIndex(h: BlockHash, ghost x: Session)
      requires Shows(x) && x.queue != [] && x.queue[0] == h
      modifies this
      ensures Shows(Received(x))
      ensures addedBlockIndexes == old(addedBlockIndexes) + [h] && storeIndex == old(storeIndex) && err == old(err)
    {
      addedBlockIndexes := addedBlockIndexes + [h];
    }

    /** `readErr` and `remoteIndex`: how reading the remote index ends, if it is
        not cached; `mergeErr`: how merging the pending blocks in ends. The answer
        is the session's view, or none after an error. */
    method GetCurrentStoreIndex(readErr: IndexError, remoteIndex: Index, mergeErr: IndexError, ghost x: Session)
      returns (current: Option<Index>)
      requires Shows(x)
      modifies this
      ensures var e := if x.cached.None? && !readErr.NoError? then readErr
                       else if x.added != {} then mergeErr
                       else NoError;
              && Shows(Loaded(x, e, remoteIndex))
              && current == if e.NoError? then Some(View(Loaded(x, NoError, remoteIndex))) else None
      ensures addedBlockIndexes == old(addedBlockIndexes)
      ensures current.Some? ==>
                && storeIndex == (if old(storeIndex).Some? then old(storeIndex) else Some(remoteIndex))
                && current.value == storeIndex.value + Elements(addedBlockIndexes)
      ensures current.None? <==>
              || (old(storeIndex).None? && !readErr.NoError?)
              || (addedBlockIndexes != [] && !mergeErr.NoError?)
      ensures current.None? <==> !err.NoError?
      ensures current.None? ==> storeIndex == None
    {
      if storeIndex.None? {
        if !readErr.NoError? {
          err := readErr;
          return None;
        }
        storeIndex := Some(remoteIndex);
      }
      if |addedBlockIndexes| == 0 {
        assert x.added == {} && storeIndex.value + x.added == storeIndex.value;
        err := NoError;
        return storeIndex;
      }
      assert addedBlockIndexes[0] in x.added;
      if !mergeErr.NoError? {
        storeIndex, err := None, mergeErr;
        return None;
      }
      err := NoError;
      return Some(storeIndex.value + Elements(addedBlockIndexes));
    }

    /** `add`: what adding the pending blocks to the remote index would report;
        `given`: the blocks that were given to it. The flush replies with an error
        (!ok) or without, and then nothing is pending in a writing session. */
    method OnFlush(add: AddResult, ghost x: Session) returns (ok: bool, given: Option<Index>)
      requires Shows(x) && x.phase.Idle?
      modifies this
      ensures var begun := FlushBegun(x, {});
              if !begun.phase.Flushing? then Shows(begun) && ok == x.err.NoError?
              else Shows(if add.AddDone? then FlushDone(begun, add.returned) else x) && ok == add.AddDone?
      ensures given == if old(err).NoError? && old(addedBlockIndexes) != [] && accessType != ReadOnly
                       then Some(Elements(old(addedBlockIndexes))) else None
      ensures ok <==> old(err).NoError? && (given.Some? ==> add.AddDone?)
      ensures ok && accessType != ReadOnly ==> addedBlockIndexes == []
      ensures err == NoError
      ensures addedBlockIndexes == if given.Some? && ok then [] else old(addedBlockIndexes)
      ensures storeIndex == if given.Some? && ok && add.returned.Some? then add.returned else old(storeIndex)
    {
      if !err.NoError? {
        err := NoError;
        return false, None;
      }
      if |addedBlockIndexes| > 0 && accessType != ReadOnly {
        assert addedBlockIndexes[0] in x.added;
        given := Some(Elements(addedBlockIndexes));
        if add.AddFailed? {
          return false, given;
        }
        addedBlockIndexes := [];
        if add.returned.Some? {
          storeIndex := add.returned;
        }
        return true, given;
      }
      return true, None;
    }

    /** The final add, if there is one to make; `published`: its blocks. */
    method OnClose(addWorks: bool, ghost x: Session) returns (ok: bool, published: Option<Index>)
      requires Shows(x) && x.phase.Idle?
      ensures var y := Finished(x, {});
              && (y.phase.LastAdd? ==> ok == addWorks && published == if addWorks then Some(x.added) else None)
              && (y.phase.Closed? ==> y.phase == Closed(ok) && published == None)
      ensures var adds := accessType != ReadOnly && (accessType == Init || addedBlockIndexes != []);
              && (ok <==> !err.OtherError? && (adds ==> addWorks))
              && published == if ok && adds then Some(Elements(addedBlockIndexes)) else None
    {
      if err.OtherError? {
        return false, None;
      }
      if accessType == ReadOnly {
        return true, None;
      }
      if accessType == Init || |addedBlockIndexes| > 0 {
        assert addedBlockIndexes != [] ==> addedBlockIndexes[0] in x.added;
        return addWorks, if addWorks then Some(Elements(addedBlockIndexes)) else None;
      }
      return true, None;
    }

    /** Prune `current`, the session's view. If the overwrite of the remote index
        works, every object that is not kept is deleted (as far as `deletable`
        says), and the pruned index stays cached; pending blocks stay pending. */
    method OnPruneBlocks(
        remote: Remote, current: Index, keep: Index, overwriteErr: IndexError, deletable: BlockHash -> bool,
        ghost x: Session)
      returns (prunedCount: nat, ok: bool)
      requires Shows(x) && x.cached.Some? && current == View(x)
      modifies this, remote`objects
      ensures ok == overwriteErr.NoError?
      ensures ok ==>
                && Shows(x.(cached := Some(current * keep), err := NoError))
                && remote.objects == old(remote.objects) - Gone(current, keep, deletable)
                && prunedCount == |Gone(current, keep, deletable)|
      ensures !ok ==> Shows(x.(err := overwriteErr)) && remote.objects == old(remote.objects) && prunedCount == 0
    {
      var prunedIndex := current * keep;
      if !overwriteErr.NoError? {
        err := overwriteErr;
        return 0, false;
      }
      prunedCount := DeleteUnkept(remote, current, keep, prunedIndex, deletable);
      storeIndex, err := Some(prunedIndex), NoError;
      return prunedCount, true;
    }
  }

  /** The blocks among `visited` whose objects a prune gets rid of. */
  function Gone(visited: Index, keep: Index, deletable: BlockHash -> bool): Index {
    set h | h in visited && h !in keep && deletable(h)
  }

  /** Block h is looked at next; it goes or stays. */
  lemma GoneNext(
      start: Index, visited: Index, h: BlockHash, keep: Index, deletable: BlockHash -> bool, goes: bool,
      objects: Index)
    requires h !in visited && goes == (h !in keep && deletable(h))
    requires objects == start - Gone(visited, keep, deletable)
    ensures (if goes then objects - {h} else objects) == start - Gone(visited + {h}, keep, deletable)
    ensures |Gone(visited + {h}, keep, deletable)| == |Gone(visited, keep, deletable)| + if goes then 1 else 0
  {
    var more: Index := if goes then {h} else {};
    assert Gone(visited + {h}, keep, deletable) == Gone(visited, keep, deletable) + more;
    assert h !in Gone(visited, keep, deletable);
  }

  /** The loop over the blocks of the index, in any order. */
  method DeleteUnkept(
      remote: Remote, current: Index, ghost keep: Index, prunedIndex: Index, deletable: BlockHash -> bool)
    returns (prunedCount: nat)
    requires prunedIndex == current * keep
    modifies remote`objects
    ensures remote.objects == old(remote.objects) - Gone(current, keep, deletable)
    ensures prunedCount == |Gone(current, keep, deletable)|
  {
    prunedCount := 0;
    var rest := current;
    ghost var visited: Index := {};
    assert Gone({}, keep, deletable) == {};
    while rest != {}
      invariant visited !! rest && visited + rest == current
      invariant remote.objects == old(remote.objects) - Gone(visited, keep, deletable)
      invariant prunedCount == |Gone(visited, keep, deletable)|
      decreases rest
    {
      var h :| h in rest;
      rest := rest - {h};
      ghost var objects := remote.objects;
      var done := false;
      if h !in prunedIndex {
        done := remote.DeleteBlock(h, deletable(h));
      }
      if done {
        prunedCount := prunedCount + 1;
      }
      assert remote.objects == if done then objects - {h} else objects;
      GoneNext(old(remote.objects), visited, h, keep, deletable, done, objects);
      visited := visited + {h};
    }
    assert visited == current;
  }
}
