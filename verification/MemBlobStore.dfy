/** The in-memory blob store. Every operation runs under the store's mutex, so
    each method is one atomic step. */
module MemBlobStore {
  import opened StoreIndexes
  import opened Options
  import opened BlobCells

  class Blob {
    var generation: int
    const path: string
    var data: Data

    constructor (path: string, data: Data)
      ensures this.path == path && this.data == data && generation == 0
    {
      this.path, this.data, generation := path, data, 0;
    }
  }

  class Store {
    var blobs: map<string, Blob>
    const supportsLocking: bool

    /** No two paths share a blob. */
    ghost predicate Valid()
      reads this, blobs.Values
    {
      && (forall p, q :: p in blobs && q in blobs && p != q ==> blobs[p] != blobs[q])
      && (forall p :: p in blobs ==> blobs[p].generation >= 0)
    }

    ghost function CellAt(path: string): (cell: Cell)
      reads this, blobs.Values
      ensures Valid() ==> WellFormed(cell)
    {
      if path in blobs then Mem(Some(MemBlob(blobs[path].generation, blobs[path].data))) else Mem(None)
    }

    constructor (supportsLocking: bool)
      ensures Valid() && forall p :: CellAt(p) == Mem(None)
    {
      this.supportsLocking := supportsLocking;
      blobs := map[];
    }
  }

  class Object {
    const store: Store
    const path: string
    var lockedGeneration: Option<int>

    constructor (store: Store, path: string)
      ensures this.store == store && this.path == path && lockedGeneration == None
    {
      this.store, this.path, lockedGeneration := store, path, None;
    }

    method Exists() returns (present: bool)
      ensures present <==> Content(store.CellAt(path)).Some?
    {
      present := path in store.blobs;
    }

    /** None: the object does not exist. */
    method Read() returns (data: Option<Data>)
      ensures data == Content(store.CellAt(path))
    {
      data := if path in store.blobs then Some(store.blobs[path].data) else None;
    }

    method LockWriteVersion() returns (present: bool)
      modifies this
      ensures present <==> Content(store.CellAt(path)).Some?
      ensures lockedGeneration == Some(LockGeneration(store.CellAt(path)))
    {
      if path !in store.blobs {
        lockedGeneration := Some(-1);
        return false;
      }
      lockedGeneration := Some(store.blobs[path].generation);
      return true;
    }

    /** If it succeeds, a Read gives the data back; without a lock it does. The
        object changes as WriteCell says and no other object changes. */
    method Write(data: Data) returns (ok: bool)
      requires store.Valid()
      modifies store, store.blobs.Values
      ensures store.Valid() && fresh(store.blobs.Values - old(store.blobs.Values))
      ensures (store.CellAt(path), ok) == WriteCell(old(store.CellAt(path)), lockedGeneration, data)
      ensures ok ==> Content(store.CellAt(path)) == Some(data)
      ensures lockedGeneration.None? ==> ok
      ensures !ok ==> store.CellAt(path) == old(store.CellAt(path))
      ensures forall p :: p != path ==> store.CellAt(p) == old(store.CellAt(p))
    {
      var present := path in store.blobs;
      if lockedGeneration.Some? {
        if present {
          if store.blobs[path].generation != lockedGeneration.value {
            return false;
          }
        } else if lockedGeneration.value != -1 {
          return false;
        }
      }
      if !present {
        var blob := new Blob(path, data);
        store.blobs := store.blobs[path := blob];
        return true;
      }
      var blob := store.blobs[path];
      blob.data := data;
      blob.generation := blob.generation + 1;
      return true;
    }

    /** A lock only guards an object that is still there. */
    method Delete() returns (ok: bool)
      requires store.Valid()
      modifies store
      ensures store.Valid()
      ensures ok <==> lockedGeneration.None? || old(store.CellAt(path)) == Mem(None)
                      || Matches(old(store.CellAt(path)), lockedGeneration.value)
      ensures store.CellAt(path) ==
              if ok then DeletedCell(old(store.CellAt(path))) else old(store.CellAt(path))
      ensures ok ==> Content(store.CellAt(path)) == None
      ensures forall p :: p != path ==> store.CellAt(p) == old(store.CellAt(p))
    {
      if lockedGeneration.Some? {
        if path !in store.blobs {
          return true;
        }
        if store.blobs[path].generation != lockedGeneration.value {
          return false;
        }
      }
      store.blobs := store.blobs - {path};
      return true;
    }
  }
}
