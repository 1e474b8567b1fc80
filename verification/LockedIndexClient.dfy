/** The code that adds blocks to `store.lsi`, with its retry loop, run against
    rivals that write the same object between any two of its operations. */
module LockedIndexClient {
  import opened StoreIndexes
  import opened Options
  import opened BlobCells
  import opened MemBlobStore
  import opened LockedIndex

  const KEY := "store.lsi"

  /** What rival adders can do to the object while `writes` of their writes
      succeed. */
  ghost predicate Rivalry(before: Cell, after: Cell, writes: int) {
    && writes >= 0
    && Version(after) == Version(before) + writes
    && (writes == 0 ==> after == before)
    && (Content(before).Some? ==> Content(after).Some?)
    && Stored(before) <= Stored(after)
  }

  /** Rivals get to run: each adds some blocks under a lock of its own. `left`
      of their `rivals` adds remain. */
  method Interference(store: Store, rivals: nat) returns (left: nat)
    requires store.Valid()
    modifies store, store.blobs.Values
    ensures store.Valid() && fresh(store.blobs.Values - old(store.blobs.Values))
    ensures left <= rivals
    ensures Rivalry(old(store.CellAt(KEY)), store.CellAt(KEY), rivals - left)
  {
    left := rivals;
    while left > 0
      invariant store.Valid() && fresh(store.blobs.Values - old(store.blobs.Values))
      invariant left <= rivals
      invariant Rivalry(old(store.CellAt(KEY)), store.CellAt(KEY), rivals - left)
    {
      var more: bool := *;
      if !more {
        return;
      }
      var rival := new Object(store, KEY);
      var present := rival.LockWriteVersion();
      var data := rival.Read();
      var add: Index := *;
      var ok := rival.Write(if data.Some? then data.value + add else add);
      left := left - 1;
    }
  }

  /** Read the object after the rivals have run. */
  method ContendedRead(objHandle: Object, rivals: nat) returns (blob: Option<Data>, left: nat)
    requires objHandle.store.Valid() && objHandle.path == KEY
    modifies objHandle.store, objHandle.store.blobs.Values
    ensures objHandle.store.Valid()
    ensures fresh(objHandle.store.blobs.Values - old(objHandle.store.blobs.Values))
    ensures left <= rivals
    ensures Rivalry(old(objHandle.store.CellAt(KEY)), objHandle.store.CellAt(KEY), rivals - left)
    ensures blob == Content(objHandle.store.CellAt(KEY))
  {
    left := Interference(objHandle.store, rivals);
    blob := objHandle.Read();
  }

  /** Write the object under the lock held, after the rivals have run. */
  method ContendedWrite(objHandle: Object, data: Data, rivals: nat) returns (ok: bool, left: nat, ghost before: Cell)
    requires objHandle.store.Valid() && objHandle.path == KEY
    modifies objHandle.store, objHandle.store.blobs.Values
    ensures objHandle.store.Valid()
    ensures fresh(objHandle.store.blobs.Values - old(objHandle.store.blobs.Values))
    ensures left <= rivals
    ensures Rivalry(old(objHandle.store.CellAt(KEY)), before, rivals - left) && before.Mem? && WellFormed(before)
    ensures (objHandle.store.CellAt(KEY), ok) == WriteCell(before, objHandle.lockedGeneration, data)
  {
    left := Interference(objHandle.store, rivals);
    before := objHandle.store.CellAt(KEY);
    ok := objHandle.Write(data);
  }

  lemma RefusedOnlyByRivals(locked: Cell, read: Cell, now: Cell, first: int, second: int)
    requires WellFormed(locked) && WellFormed(now) && locked.Mem? && now.Mem?
    requires Rivalry(locked, read, first) && Rivalry(read, now, second)
    ensures Rivalry(locked, now, first + second)
    ensures Matches(now, LockGeneration(locked)) <==> first + second == 0
    ensures first + second == 0 ==> read == locked == now
  {
    LockRefines(locked);
    LockRefines(now);
  }

  /** One attempt. It fails only if a rival's write succeeded meanwhile. When
      it succeeds the object held `before` just before the write and holds
      `before` plus the added blocks now. */
  method TryAddRemoteStoreIndexWithLocking(store: Store, add: Index, rivals: nat)
    returns (ok: bool, newStoreIndex: Option<Index>, left: nat, ghost before: Cell)
    requires store.Valid()
    modifies store, store.blobs.Values
    ensures store.Valid() && fresh(store.blobs.Values - old(store.blobs.Values))
    ensures left <= rivals && (!ok ==> left < rivals)
    ensures Rivalry(old(store.CellAt(KEY)), before, rivals - left)
    ensures !ok ==> store.CellAt(KEY) == before
    ensures ok ==>
              && Content(store.CellAt(KEY)) == Some(Stored(before) + add)
              && newStoreIndex == if before == Mem(None) then None else Content(store.CellAt(KEY))
  {
    left := rivals;
    ghost var locked := store.CellAt(KEY);
    var objHandle := new Object(store, KEY);
    var present := objHandle.LockWriteVersion();
    ghost var read := locked;
    newStoreIndex := None;
    var target := add;
    if present {
      var blob;
      blob, left := ContendedRead(objHandle, left);
      read := store.CellAt(KEY);
      target := blob.value + add;
      newStoreIndex := Some(target);
    }
    assert target == Stored(read) + add || read != locked;
    ghost var later := left;
    ok, left, before := ContendedWrite(objHandle, target, left);
    RefusedOnlyByRivals(locked, read, before, rivals - later, later - left);
  }

  /** `failures` lists the first n attempts that `fails` lets fail. */
  ghost predicate Failures(fails: nat -> bool, n: nat, failures: seq<nat>) {
    && (forall k :: k in failures <==> 0 <= k < n && fails(k))
    && forall i, j :: 0 <= i < j < |failures| ==> failures[i] != failures[j]
  }

  lemma OneMoreAttempt(fails: nat -> bool, n: nat, failures: seq<nat>)
    requires Failures(fails, n, failures)
    ensures Failures(fails, n + 1, if fails(n) then failures + [n] else failures)
  {
  }

  lemma RivalsGoOn(first: Cell, second: Cell, third: Cell, writes: int, more: int)
    requires Rivalry(first, second, writes) && Rivalry(second, third, more)
    ensures Rivalry(first, third, writes + more)
  {
  }

  /** One round of the retry loop, after the rivals have run; in a round that
      fails an operation fails, and it has no effect. */
  method Attempt(store: Store, add: Index, rivals: nat, fails: bool)
    returns (done: bool, newStoreIndex: Option<Index>, left: nat, ghost before: Cell)
    requires store.Valid()
    modifies store, store.blobs.Values
    ensures store.Valid() && fresh(store.blobs.Values - old(store.blobs.Values))
    ensures left <= rivals && (!done && !fails ==> left < rivals)
    ensures Rivalry(old(store.CellAt(KEY)), before, rivals - left)
    ensures fails ==> !done
    ensures !done ==> store.CellAt(KEY) == before
    ensures done ==> Added(before, store.CellAt(KEY), add, newStoreIndex)
  {
    left := Interference(store, rivals);
    before := store.CellAt(KEY);
    if fails {
      return false, None, left, before;
    }
    ghost var start, used := before, left;
    done, newStoreIndex, left, before := TryAddRemoteStoreIndexWithLocking(store, add, left);
    RivalsGoOn(old(store.CellAt(KEY)), start, before, rivals - used, used - left);
  }

  /** The object held `before`, the added blocks joined it, and the index that
      was written is given back, unless it is the first. */
  ghost predicate Added(before: Cell, after: Cell, add: Index, newStoreIndex: Option<Index>) {
    && Content(after) == Some(Stored(before) + add)
    && newStoreIndex == if before == Mem(None) then None else Content(after)
  }

  /** The retry loop. `fails(n)`: an operation of attempt n fails; the third such
      attempt gives up, and nothing else does. A refusal uses up one rival, so
      the loop ends. When it is done the object held `before` just before its
      write, and holds the added blocks as well now. */
  method AddToRemoteStoreIndex(store: Store, add: Index, rivals: nat, fails: nat -> bool)
    returns (
      done: bool, newStoreIndex: Option<Index>, attempts: nat, left: nat, ghost before: Cell, ghost failures: seq<nat>)
    requires store.Valid()
    modifies store, store.blobs.Values
    ensures store.Valid()
    ensures left <= rivals && Rivalry(old(store.CellAt(KEY)), before, rivals - left)
    ensures done ==> Added(before, store.CellAt(KEY), add, newStoreIndex)
    ensures !done ==> store.CellAt(KEY) == before
    ensures Failures(fails, attempts, failures) && (done <==> |failures| < 3)
    ensures |failures| <= 3 && attempts <= rivals - left + |failures| + 1
  {
    left := rivals;
    attempts, failures := 0, [];
    var errorRetries := 0;
    while true
      invariant store.Valid() && fresh(store.blobs.Values - old(store.blobs.Values))
      invariant left <= rivals && Rivalry(old(store.CellAt(KEY)), store.CellAt(KEY), rivals - left)
      invariant Failures(fails, attempts, failures) && errorRetries == |failures| < 3
      invariant attempts <= rivals - left + errorRetries
      decreases left + 3 - errorRetries
    {
      ghost var start, used := store.CellAt(KEY), left;
      done, newStoreIndex, left, before := Attempt(store, add, left, fails(attempts));
      RivalsGoOn(old(store.CellAt(KEY)), start, before, rivals - used, used - left);
      OneMoreAttempt(fails, attempts, failures);
      attempts := attempts + 1;
      if done {
        return;
      }
      if fails(attempts - 1) {
        failures := failures + [attempts - 1];
        errorRetries := errorRetries + 1;
        if errorRetries == 3 {
          return;
        }
      }
    }
  }
}
