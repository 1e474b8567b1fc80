/** How a prune overwrites the remote index, in a store with and in a store
    without write conditions. What it leaves, and every step on the way, is what
    the prune steps of IndexPipeline allow. */
module IndexOverwrite {
  import opened StoreIndexes
  import opened Options
  import opened LockFreeIndex
  import Cells = BlobCells
  import Locked = LockedIndex
  import Mem = MemBlobStore
  import Client = LockedIndexClient
  import Pipeline = IndexPipeline

  /** The index files; `past` lists the states they have been in. */
  class IndexFiles {
    var files: map<Key, Index>
    ghost var past: seq<map<Key, Index>>

    ghost predicate Valid()
      reads this
    {
      past != [] && past[|past| - 1] == files
    }

    constructor (files: map<Key, Index>)
      ensures Valid() && this.files == files && past == [files]
    {
      this.files, past := files, [files];
    }

    method Write(key: Key, index: Index)
      modifies this
      ensures Valid() && files == old(files)[key := index] && past == old(past) + [files]
    {
      files := files[key := index];
      past := past + [files];
    }

    method Delete(key: Key)
      modifies this
      ensures Valid() && files == old(files) - {key} && past == old(past) + [files]
    {
      files := files - {key};
      past := past + [files];
    }
  }

  /** One step of an overwrite: the files list everything kept, and nothing that
      was not listed before. */
  ghost predicate PruneStep(before: map<Key, Index>, after: map<Key, Index>, pruned: Index) {
    pruned <= Union(after) <= Union(before) + pruned
  }

  /** The history went on from `past` by such steps. */
  ghost predicate PrunesOn(past: seq<map<Key, Index>>, longer: seq<map<Key, Index>>, pruned: Index) {
    && 0 < |past| <= |longer| && longer[..|past|] == past
    && forall n :: |past| <= n < |longer| ==> PruneStep(longer[n - 1], longer[n], pruned)
  }

  lemma PrunesOnNext(
      past: seq<map<Key, Index>>, longer: seq<map<Key, Index>>, files: map<Key, Index>, pruned: Index)
    requires PrunesOn(past, longer, pruned) && PruneStep(longer[|longer| - 1], files, pruned)
    ensures PrunesOn(past, longer + [files], pruned)
  {
    assert (longer + [files])[..|past|] == longer[..|past|];
  }

  lemma WritingIsAPruneStep(files: map<Key, Index>, key: Key, pruned: Index)
    ensures PruneStep(files, files[key := pruned], pruned)
  {
    var after := files[key := pruned];
    assert after[key] == pruned;
    assert forall k :: k in after && k != key ==> after[k] == files[k];
  }

  lemma DeletingIsAPruneStep(files: map<Key, Index>, key: Key, pruned: Index, k: Key)
    requires key in files && files[key] == pruned && k != key
    ensures PruneStep(files, files - {k}, pruned)
  {
    var after := files - {k};
    assert after[key] == pruned;
    assert forall l :: l in after ==> after[l] == files[l];
  }

  /** The files once those in `gone` are deleted. */
  function Remaining(before: map<Key, Index>, key: Key, pruned: Index, gone: set<Key>): map<Key, Index> {
    (before - (gone - {key}))[key := pruned]
  }

  /** The files that are left when all deletable ones are gone. */
  function Left(before: map<Key, Index>, key: Key, pruned: Index, deletable: Key -> bool): map<Key, Index> {
    Remaining(before, key, pruned, set k | k in before && deletable(k))
  }

  lemma RemainingNext(before: map<Key, Index>, key: Key, pruned: Index, gone: set<Key>, k: Key)
    requires k != key
    ensures Remaining(before, key, pruned, gone) - {k} == Remaining(before, key, pruned, gone + {k})
  {}

  /** `deletable`: which files can be deleted; failed deletes are ignored. The
      new file is written first, unless it is there already. */
  method TryOverwriteWithoutLocking(
      store: IndexFiles, pruned: Index, sha: Naming, items: seq<Key>, deletable: Key -> bool, writeWorks: bool)
    returns (ok: bool)
    requires store.Valid() && Injective(sha) && Named(sha, store.files) && Lists(items, store.files)
    modifies store
    ensures store.Valid() && PrunesOn(old(store.past), store.past, pruned)
    ensures ok <==> writeWorks || sha(pruned) in old(store.files)
    ensures !ok ==> store.past == old(store.past)
    ensures store.files == if ok then Left(old(store.files), sha(pruned), pruned, deletable) else old(store.files)
    ensures ok ==> forall k :: k in store.files <==> k == sha(pruned) || (k in old(store.files) && !deletable(k))
    ensures ok ==> forall k :: k in store.files ==>
              store.files[k] == if k == sha(pruned) then pruned else old(store.files)[k]
  {
    ghost var before := store.files;
    var key := sha(pruned);
    if key !in store.files {
      if !writeWorks {
        return false;
      }
      WritingIsAPruneStep(store.files, key, pruned);
      PrunesOnNext(store.past, store.past, store.files[key := pruned], pruned);
      store.Write(key, pruned);
    }
    assert store.files == Remaining(before, key, pruned, {});
    DeleteOthers(store, old(store.past), before, key, pruned, items, deletable);
    assert (set k | k in items && k != key && deletable(k)) == (set k | k in before && deletable(k)) - {key};
    return true;
  }

  /** Delete every listed file but the one just written. */
  method DeleteOthers(
      store: IndexFiles, ghost past: seq<map<Key, Index>>, ghost before: map<Key, Index>, key: Key,
      ghost pruned: Index, items: seq<Key>, deletable: Key -> bool)
    requires store.Valid() && PrunesOn(past, store.past, pruned)
    requires store.files == Remaining(before, key, pruned, {})
    modifies store
    ensures store.Valid() && PrunesOn(past, store.past, pruned)
    ensures store.files == Remaining(before, key, pruned, set k | k in items && k != key && deletable(k))
  {
    ghost var gone: set<Key> := {};
    for n := 0 to |items|
      invariant store.Valid() && PrunesOn(past, store.past, pruned)
      invariant store.files == Remaining(before, key, pruned, gone)
      invariant gone == set k | k in items[..n] && k != key && deletable(k)
    {
      assert items[..n + 1] == items[..n] + [items[n]];
      if items[n] != key && deletable(items[n]) {
        RemainingNext(before, key, pruned, gone, items[n]);
        gone := gone + {items[n]};
        DeletingIsAPruneStep(store.files, key, pruned, items[n]);
        PrunesOnNext(past, store.past, store.files - {items[n]}, pruned);
        store.Delete(items[n]);
      }
    }
    assert items[..|items|] == items;
  }

  /** The retry loop around it. `refusals` bounds how often the write is refused
      without an error, and `fails(n)` says that an operation of attempt n fails;
      refused and failed attempts change nothing. Only the third failed one gives
      up. */
  method TryOverwriteUnlockedWithRetry(
      store: IndexFiles, pruned: Index, sha: Naming, items: seq<Key>, deletable: Key -> bool, refusals: nat,
      fails: nat -> bool)
    returns (done: bool, attempts: nat, ghost failures: seq<nat>)
    requires store.Valid() && Injective(sha) && Named(sha, store.files) && Lists(items, store.files)
    modifies store
    ensures store.Valid() && PrunesOn(old(store.past), store.past, pruned)
    ensures store.files == if done then Left(old(store.files), sha(pruned), pruned, deletable) else old(store.files)
    ensures Client.Failures(fails, attempts, failures) && (done <==> |failures| < 3)
    ensures attempts <= refusals + |failures| + 1
  {
    var left := refusals;
    var errorRetries := 0;
    attempts, failures := 0, [];
    while true
      invariant store.files == old(store.files) && store.past == old(store.past)
      invariant 0 <= left <= refusals && attempts <= refusals - left + errorRetries
      invariant Client.Failures(fails, attempts, failures) && errorRetries == |failures| < 3
      decreases left + 3 - errorRetries
    {
      Client.OneMoreAttempt(fails, attempts, failures);
      attempts := attempts + 1;
      if fails(attempts - 1) {
        failures := failures + [attempts - 1];
        errorRetries := errorRetries + 1;
        if errorRetries == 3 {
          return false, attempts, failures;
        }
      } else {
        var refused: bool := *;
        done := TryOverwriteWithoutLocking(store, pruned, sha, items, deletable, !refused || left == 0);
        if done {
          return;
        }
        left := left - 1;
      }
    }
  }

  /** The states of an overwrite as steps of the pipeline, in a session that is
      overwriting: each is a PruneIndex step, and after them the deletion of
      objects may begin. */
  lemma {:induction false} OverwriteIsPruneSteps(
      s: Pipeline.State, i: Pipeline.SessionId, past: seq<map<Key, Index>>, longer: seq<map<Key, Index>>, pruned: Index)
    returns (tr: seq<Pipeline.State>, acts: seq<Pipeline.Action>)
    requires PrunesOn(past, longer, pruned) && s.remote == Union(past[|past| - 1])
    requires i in s.sessions && s.sessions[i].phase.Overwriting? && s.sessions[i].phase.pruned == pruned
    ensures |tr| == |acts| + 1 && tr[0] == s && |acts| == |longer| - |past|
    ensures forall n :: 0 <= n < |acts| ==>
              && acts[n] == Pipeline.PruneIndex(i, Union(longer[|past| + n]))
              && Pipeline.Enabled(tr[n], acts[n]) && tr[n + 1] == Pipeline.Apply(tr[n], acts[n])
    ensures tr[|acts|].remote == Union(longer[|longer| - 1]) && tr[|acts|].sessions == s.sessions
    ensures |longer| > |past| ==> Pipeline.Enabled(tr[|acts|], Pipeline.PruneIndexed(i, Pipeline.NoError))
    decreases |longer|
  {
    if |longer| == |past| {
      assert longer == past;
      tr, acts := [s], [];
    } else {
      var m := |longer| - 1;
      var shorter := longer[..m];
      assert shorter[..|past|] == past;
      tr, acts := OverwriteIsPruneSteps(s, i, past, shorter, pruned);
      var a := Pipeline.PruneIndex(i, Union(longer[m]));
      assert PruneStep(longer[m - 1], longer[m], pruned);
      assert Pipeline.Enabled(tr[|acts|], a);
      tr, acts := tr + [Pipeline.Apply(tr[|acts|], a)], acts + [a];
    }
  }

  /** The objects of blocks not kept are deleted next. No file that is left
      lists one of them exactly if every file that listed one was deletable. */
  lemma NoDoomedBlockIsListedExactly(
      before: map<Key, Index>, key: Key, pruned: Index, deletable: Key -> bool, doomed: Index)
    requires doomed !! pruned && (key in before ==> before[key] == pruned)
    ensures Union(Left(before, key, pruned, deletable)) !! doomed
            <==> forall k :: k in before && !deletable(k) ==> before[k] !! doomed
  {
    var left := Left(before, key, pruned, deletable);
    forall k | k in before && !deletable(k)
      ensures before[k] <= Union(left)
    {
      assert left[k] == before[k];
    }
    forall h | h in Union(left)
      ensures h in pruned || exists k :: k in before && !deletable(k) && h in before[k]
    {
      var k :| k in left && h in left[k];
      assert k != key ==> k in before && !deletable(k) && left[k] == before[k];
    }
  }

  /** With write conditions one conditional write replaces `store.lsi`; it is
      refused exactly if a rival wrote since the lock. */
  method TryOverwriteWithLocking(store: Mem.Store, pruned: Index, rivals: nat)
    returns (ok: bool, left: nat, ghost before: Cells.Cell)
    requires store.Valid()
    modifies store, store.blobs.Values
    ensures store.Valid() && fresh(store.blobs.Values - old(store.blobs.Values))
    ensures left <= rivals && (ok <==> left == rivals)
    ensures Client.Rivalry(old(store.CellAt(Client.KEY)), before, rivals - left)
    ensures if ok then Cells.Content(store.CellAt(Client.KEY)) == Some(pruned) else store.CellAt(Client.KEY) == before
  {
    ghost var locked := store.CellAt(Client.KEY);
    var objHandle := new Mem.Object(store, Client.KEY);
    var present := objHandle.LockWriteVersion();
    ok, left, before := Client.ContendedWrite(objHandle, pruned, rivals);
    Client.RefusedOnlyByRivals(locked, locked, before, 0, rivals - left);
  }

  /** One round of the retry loop, after the rivals have run; in a round that
      fails an operation fails, and it has no effect. */
  method AttemptOverwrite(store: Mem.Store, pruned: Index, rivals: nat, fails: bool) returns (done: bool, left: nat)
    requires store.Valid()
    modifies store, store.blobs.Values
    ensures store.Valid() && fresh(store.blobs.Values - old(store.blobs.Values))
    ensures left <= rivals && (!done && !fails ==> left < rivals) && (fails ==> !done)
    ensures if done then Cells.Content(store.CellAt(Client.KEY)) == Some(pruned)
            else Client.Rivalry(old(store.CellAt(Client.KEY)), store.CellAt(Client.KEY), rivals - left)
  {
    left := Client.Interference(store, rivals);
    if fails {
      return false, left;
    }
    ghost var start, used, before := store.CellAt(Client.KEY), left, store.CellAt(Client.KEY);
    done, left, before := TryOverwriteWithLocking(store, pruned, left);
    Client.RivalsGoOn(old(store.CellAt(Client.KEY)), start, before, rivals - used, used - left);
  }

  /** The retry loop around it: refused attempts are repeated, and only the third
      failed one gives up. At the end the index is exactly the pruned one, unless
      the overwrite was given up; then only rivals have changed it. */
  method TryOverwriteWithRetry(store: Mem.Store, pruned: Index, rivals: nat, fails: nat -> bool)
    returns (done: bool, attempts: nat, left: nat, ghost failures: seq<nat>)
    requires store.Valid()
    modifies store, store.blobs.Values
    ensures store.Valid() && left <= rivals
    ensures done ==> Cells.Content(store.CellAt(Client.KEY)) == Some(pruned)
    ensures !done ==> Client.Rivalry(old(store.CellAt(Client.KEY)), store.CellAt(Client.KEY), rivals - left)
    ensures Client.Failures(fails, attempts, failures) && (done <==> |failures| < 3)
    ensures attempts <= rivals + |failures| + 1
  {
    left := rivals;
    var errorRetries := 0;
    attempts, failures := 0, [];
    while true
      invariant store.Valid() && fresh(store.blobs.Values - old(store.blobs.Values))
      invariant left <= rivals && attempts <= rivals - left + errorRetries
      invariant Client.Rivalry(old(store.CellAt(Client.KEY)), store.CellAt(Client.KEY), rivals - left)
      invariant Client.Failures(fails, attempts, failures) && errorRetries == |failures| < 3
      decreases left + 3 - errorRetries
    {
      ghost var start, used := store.CellAt(Client.KEY), left;
      done, left := AttemptOverwrite(store, pruned, left, fails(attempts));
      Client.OneMoreAttempt(fails, attempts, failures);
      attempts := attempts + 1;
      if done {
        return;
      }
      Client.RivalsGoOn(old(store.CellAt(Client.KEY)), start, store.CellAt(Client.KEY), rivals - used, used - left);
      if fails(attempts - 1) {
        failures := failures + [attempts - 1];
        errorRetries := errorRetries + 1;
        if errorRetries == 3 {
          return;
        }
      }
    }
  }
}
