/** The file system blob store. With locking enabled every operation holds the
    object's file lock, so each method is one atomic step; the generation of
    an object lives in a second file beside it. */
module FsBlobStore {
  import opened StoreIndexes
  import opened Options
  import opened BlobCells

  class Disk {
    var files: map<string, Data>
    var gens: map<string, int>

    ghost function CellAt(path: string): Cell
      reads this
    {
      Fs(if path in files then Some(files[path]) else None,
         if path in gens then Some(gens[path]) else None)
    }

    constructor ()
      ensures forall p :: CellAt(p) == Fs(None, None)
    {
      files, gens := map[], map[];
    }
  }

  class Object {
    const disk: Disk
    const path: string
    const enableLocking: bool
    var metageneration: int

    constructor (disk: Disk, path: string, enableLocking: bool)
      ensures this.disk == disk && this.path == path && this.enableLocking == enableLocking
      ensures metageneration == -1
    {
      this.disk, this.path, this.enableLocking, metageneration := disk, path, enableLocking, -1;
    }

    /** The lock this object holds: -1 stands for none. */
    ghost function Locked(): Option<int>
      reads this
    {
      if !enableLocking || metageneration == -1 then None else Some(metageneration)
    }

    method Exists() returns (present: bool)
      ensures present <==> Content(disk.CellAt(path)).Some?
    {
      present := path in disk.files;
    }

    method Read() returns (data: Option<Data>)
      ensures data == Content(disk.CellAt(path))
    {
      data := if path in disk.files then Some(disk.files[path]) else None;
    }

    method GetMetaGeneration() returns (generation: int)
      ensures generation == MetaGeneration(disk.CellAt(path).gen)
    {
      generation := if path in disk.gens then disk.gens[path] else 0;
    }

    /** A later GetMetaGeneration gives the generation back; the object's own
        file and all other objects stay as they are. */
    method SetMetaGeneration(generation: int)
      modifies disk`gens
      ensures MetaGeneration(disk.CellAt(path).gen) == generation
      ensures disk.CellAt(path) == Fs(Content(old(disk.CellAt(path))), Some(generation))
      ensures forall p :: p != path ==> disk.CellAt(p) == old(disk.CellAt(p))
    {
      disk.gens := disk.gens[path := generation];
    }

    /** None: locking is not supported. */
    method LockWriteVersion() returns (present: Option<bool>)
      modifies this
      ensures present.None? <==> !enableLocking
      ensures enableLocking ==>
                && (present.value <==> Content(disk.CellAt(path)).Some?)
                && metageneration == LockGeneration(disk.CellAt(path))
      ensures !enableLocking ==> metageneration == old(metageneration)
    {
      if !enableLocking {
        return None;
      }
      var found := Exists();
      if found {
        metageneration := GetMetaGeneration();
      } else {
        metageneration := 0;
      }
      return Some(found);
    }

    /** If it succeeds, a Read gives the data back; without a lock it does. The
        object changes as WriteCell says and no other object changes. */
    method Write(data: Data) returns (ok: bool)
      modifies disk
      ensures (disk.CellAt(path), ok) == WriteCell(old(disk.CellAt(path)), Locked(), data)
      ensures ok ==> Content(disk.CellAt(path)) == Some(data)
      ensures Locked().None? ==> ok
      ensures !ok ==> disk.CellAt(path) == old(disk.CellAt(path))
      ensures forall p :: p != path ==> disk.CellAt(p) == old(disk.CellAt(p))
    {
      if enableLocking && metageneration != -1 {
        var current := GetMetaGeneration();
        if current != metageneration {
          return false;
        }
      }
      disk.files := disk.files[path := data];
      if enableLocking && metageneration != -1 {
        SetMetaGeneration(metageneration + 1);
      }
      return true;
    }

    /** Deleting fails under a stale lock and for an absent file. */
    method Delete() returns (ok: bool)
      modifies disk
      ensures ok <==> && (Locked().Some? ==> Matches(old(disk.CellAt(path)), metageneration))
                      && Content(old(disk.CellAt(path))).Some?
      ensures disk.CellAt(path) ==
              if ok then DeletedCell(old(disk.CellAt(path))) else old(disk.CellAt(path))
      ensures ok ==> Content(disk.CellAt(path)) == None
      ensures forall p :: p != path ==> disk.CellAt(p) == old(disk.CellAt(p))
    {
      if enableLocking && metageneration != -1 {
        var current := GetMetaGeneration();
        if current != metageneration {
          return false;
        }
      }
      if path !in disk.files {
        return false;
      }
      disk.files := disk.files - {path};
      disk.gens := disk.gens - {path};
      return true;
    }
  }
}
