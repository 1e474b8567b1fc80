/** What the in-memory store and the file system store keep for one object,
    their two ways of counting generations, and the one versioned register
    that both of them implement.

    A blob's bytes stand for the store index that they serialise. */
module BlobCells {
  import opened StoreIndexes
  import opened Options

  type Data = Index
  type ClientId = nat

  datatype MemBlob = MemBlob(generation: int, data: Data)

  /** One object: in memory a blob that carries its generation; on disk a file
      and, beside it, a `.gen` file with the generation. */
  datatype Cell =
    | Mem(blob: Option<MemBlob>)
    | Fs(file: Option<Data>, gen: Option<int>)

  function Content(cell: Cell): Option<Data> {
    match cell
    case Mem(None) => None
    case Mem(Some(blob)) => Some(blob.data)
    case Fs(file, _) => file
  }

  /** What LockWriteVersion remembers: -1 or 0 for an absent object. */
  function LockGeneration(cell: Cell): int {
    match cell
    case Mem(None) => -1
    case Mem(Some(blob)) => blob.generation
    case Fs(None, _) => 0
    case Fs(Some(_), gen) => MetaGeneration(gen)
  }

  function MetaGeneration(gen: Option<int>): int {
    if gen.None? then 0 else gen.value
  }

  /** The comparison that a conditional Write makes. */
  predicate Matches(cell: Cell, locked: int) {
    match cell
    case Mem(None) => locked == -1
    case Mem(Some(blob)) => blob.generation == locked
    case Fs(_, gen) => MetaGeneration(gen) == locked
  }

  /** Write under a lock (Some) or without one (None). */
  function WriteCell(cell: Cell, locked: Option<int>, data: Data): (Cell, bool) {
    if locked.Some? && !Matches(cell, locked.value) then
      (cell, false)
    else
      match cell
      case Mem(None) => (Mem(Some(MemBlob(0, data))), true)
      case Mem(Some(blob)) => (Mem(Some(MemBlob(blob.generation + 1, data))), true)
      case Fs(_, gen) => (Fs(Some(data), if locked.Some? then Some(locked.value + 1) else gen), true)
  }

  function DeletedCell(cell: Cell): Cell {
    if cell.Mem? then Mem(None) else Fs(None, None)
  }

  /** No `.gen` file without its file; generations count up from zero. */
  ghost predicate WellFormed(cell: Cell) {
    match cell
    case Mem(blob) => blob.Some? ==> blob.value.generation >= 0
    case Fs(file, gen) => gen.Some? ==> file.Some? && gen.value >= 0
  }

  // ------------------------------------------------- the abstract register

  /** A value and the number of writes that produced it. */
  datatype Register = Register(content: Option<Data>, version: int)

  function RegisterWrite(r: Register, token: int, data: Data): (Register, bool) {
    if token == r.version then (Register(Some(data), r.version + 1), true) else (r, false)
  }

  function Version(cell: Cell): int {
    match cell
    case Mem(None) => 0
    case Mem(Some(blob)) => blob.generation + 1
    case Fs(_, gen) => MetaGeneration(gen)
  }

  function Abs(cell: Cell): Register {
    Register(Content(cell), Version(cell))
  }

  /** The version that a remembered generation stands for. */
  function Token(cell: Cell, locked: int): int {
    if cell.Mem? then locked + 1 else locked
  }

  lemma LockRefines(cell: Cell)
    requires WellFormed(cell)
    ensures Token(cell, LockGeneration(cell)) == Abs(cell).version >= 0
  {
  }

  lemma WriteRefines(cell: Cell, locked: int, data: Data)
    requires WellFormed(cell) && Token(cell, locked) >= 0
    ensures var (after, ok) := WriteCell(cell, Some(locked), data);
            && (Abs(after), ok) == RegisterWrite(Abs(cell), Token(cell, locked), data)
            && WellFormed(after) && (after.Mem? <==> cell.Mem?)
  {
  }

  /** A write that succeeds leaves its data in the object, a write without a lock
      always succeeds, and a write that is refused changes nothing. A success
      advances the version by one, except without a lock on disk. */
  lemma WriteStores(cell: Cell, locked: Option<int>, data: Data)
    ensures var (after, ok) := WriteCell(cell, locked, data);
            && (ok ==> Content(after) == Some(data))
            && (locked.None? ==> ok)
            && (!ok ==> after == cell)
            && Version(after) == Version(cell) + (if ok && (locked.Some? || cell.Mem?) then 1 else 0)
            && (after.Mem? <==> cell.Mem?)
  {
  }

  /** A write with a lock or without one, or a delete that goes through. */
  datatype Change = Put(locked: Option<int>, data: Data) | Remove

  predicate Accepted(cell: Cell, change: Change) {
    change.Put? ==> change.locked.None? || Matches(cell, change.locked.value)
  }

  ghost predicate ChangeRun(cells: seq<Cell>, changes: seq<Change>) {
    && |cells| == |changes| + 1
    && forall i :: 0 <= i < |changes| ==>
         cells[i + 1] == match changes[i]
                         case Put(locked, data) => WriteCell(cells[i], locked, data).0
                         case Remove => DeletedCell(cells[i])
  }

  /** Whatever is written with or without locks and deleted, a Read gives what
      the last accepted write gave, or nothing after a delete. */
  lemma {:induction false} LastAcceptedIsRead(cells: seq<Cell>, changes: seq<Change>, m: nat, n: nat)
    requires ChangeRun(cells, changes) && m < n < |cells|
    requires Accepted(cells[m], changes[m]) && forall k :: m < k < n ==> !Accepted(cells[k], changes[k])
    ensures Content(cells[n]) == if changes[m].Put? then Some(changes[m].data) else None
    decreases n
  {
    if changes[n - 1].Put? {
      WriteStores(cells[n - 1], changes[n - 1].locked, changes[n - 1].data);
    }
    if m + 1 < n {
      LastAcceptedIsRead(cells, changes, m, n - 1);
    }
  }

  // ------------------------------- runs of clients that lock before writing

  datatype Op = Lock(c: ClientId) | Write(c: ClientId, data: Data)

  datatype System = System(cell: Cell, locks: map<ClientId, int>)

  ghost predicate OpEnabled(s: System, op: Op) {
    op.Write? ==> op.c in s.locks
  }

  ghost predicate Succeeds(s: System, op: Op) {
    op.Write? && op.c in s.locks && Matches(s.cell, s.locks[op.c])
  }

  ghost function OpApply(s: System, op: Op): System
    requires OpEnabled(s, op)
  {
    match op
    case Lock(c) => s.(locks := s.locks[c := LockGeneration(s.cell)])
    case Write(c, data) => s.(cell := WriteCell(s.cell, Some(s.locks[c]), data).0)
  }

  ghost predicate OpRun(tr: seq<System>, ops: seq<Op>) {
    && |tr| == |ops| + 1
    && WellFormed(tr[0].cell) && tr[0].locks == map[]
    && (forall i :: 0 <= i < |ops| ==> OpEnabled(tr[i], ops[i]) && tr[i + 1] == OpApply(tr[i], ops[i]))
  }

  /** The same system over the abstract register. */
  datatype RegisterSystem = RegisterSystem(register: Register, tokens: map<ClientId, int>)

  ghost function RegisterApply(s: RegisterSystem, op: Op): RegisterSystem
    requires op.Write? ==> op.c in s.tokens
  {
    match op
    case Lock(c) => s.(tokens := s.tokens[c := s.register.version])
    case Write(c, data) => s.(register := RegisterWrite(s.register, s.tokens[c], data).0)
  }

  ghost function AbsSystem(s: System): RegisterSystem {
    RegisterSystem(Abs(s.cell), map c | c in s.locks :: Token(s.cell, s.locks[c]))
  }

  ghost predicate OpInv(s: System) {
    && WellFormed(s.cell)
    && (forall c :: c in s.locks ==> 0 <= Token(s.cell, s.locks[c]) <= Version(s.cell))
  }

  /** Either store takes the step that the register takes, with its outcome. */
  lemma StepRefinesRegister(s: System, op: Op)
    requires OpInv(s) && OpEnabled(s, op)
    ensures OpInv(OpApply(s, op))
    ensures AbsSystem(OpApply(s, op)) == RegisterApply(AbsSystem(s), op)
    ensures op.Write? ==> (Succeeds(s, op) <==> AbsSystem(s).tokens[op.c] == AbsSystem(s).register.version)
    ensures Version(OpApply(s, op).cell) == Version(s.cell) + (if Succeeds(s, op) then 1 else 0)
  {
    LockRefines(s.cell);
    if op.Write? {
      WriteRefines(s.cell, s.locks[op.c], op.data);
    }
  }

  lemma {:induction false} RunKeepsOpInv(tr: seq<System>, ops: seq<Op>, n: nat)
    requires OpRun(tr, ops) && n < |tr|
    ensures OpInv(tr[n])
  {
    if n > 0 {
      RunKeepsOpInv(tr, ops, n - 1);
      StepRefinesRegister(tr[n - 1], ops[n - 1]);
    }
  }

  /** A run of either store, seen through the abstraction, is a run of the
      register. */
  lemma StoresRefineRegister(tr: seq<System>, ops: seq<Op>, i: nat)
    requires OpRun(tr, ops) && i < |ops|
    ensures ops[i].Write? ==> ops[i].c in AbsSystem(tr[i]).tokens
    ensures AbsSystem(tr[i + 1]) == RegisterApply(AbsSystem(tr[i]), ops[i])
  {
    RunKeepsOpInv(tr, ops, i);
    StepRefinesRegister(tr[i], ops[i]);
  }

  /** The number of writes that succeed in steps i..j. */
  ghost function Successes(tr: seq<System>, ops: seq<Op>, i: nat, j: nat): nat
    requires i <= j <= |ops| < |tr|
    decreases j - i
  {
    if i == j then 0
    else Successes(tr, ops, i, j - 1) + (if Succeeds(tr[j - 1], ops[j - 1]) then 1 else 0)
  }

  lemma {:induction false} VersionCountsSuccesses(tr: seq<System>, ops: seq<Op>, i: nat, j: nat)
    requires OpRun(tr, ops) && i <= j < |tr|
    ensures Version(tr[j].cell) == Version(tr[i].cell) + Successes(tr, ops, i, j)
    decreases j - i
  {
    if i < j {
      VersionCountsSuccesses(tr, ops, i, j - 1);
      RunKeepsOpInv(tr, ops, j - 1);
      StepRefinesRegister(tr[j - 1], ops[j - 1]);
    }
  }

  lemma {:induction false} NoSuccesses(tr: seq<System>, ops: seq<Op>, i: nat, j: nat)
    requires i <= j <= |ops| < |tr|
    ensures Successes(tr, ops, i, j) == 0 <==> forall k :: i <= k < j ==> !Succeeds(tr[k], ops[k])
    decreases j - i
  {
    if i < j {
      NoSuccesses(tr, ops, i, j - 1);
    }
  }

  lemma {:induction false} LockIsKept(tr: seq<System>, ops: seq<Op>, c: ClientId, i: nat, j: nat)
    requires OpRun(tr, ops) && i < j < |tr| && ops[i] == Lock(c)
    requires forall k :: i < k < j ==> ops[k] != Lock(c)
    ensures c in tr[j].locks && tr[j].locks[c] == LockGeneration(tr[i].cell)
    ensures tr[j].cell.Mem? <==> tr[i].cell.Mem?
  {
    assert tr[j] == OpApply(tr[j - 1], ops[j - 1]);
    if i < j - 1 {
      LockIsKept(tr, ops, c, i, j - 1);
    }
  }

  /** Over both stores a write succeeds exactly when no write of any client has
      succeeded since the writer's lock, and each success advances the
      generation by one. */
  lemma CompareAndSwap(tr: seq<System>, ops: seq<Op>, c: ClientId, i: nat, j: nat)
    requires OpRun(tr, ops) && i < j < |ops|
    requires ops[i] == Lock(c) && ops[j].Write? && ops[j].c == c
    requires forall k :: i < k < j ==> ops[k] != Lock(c)
    ensures Succeeds(tr[j], ops[j]) <==> forall k :: i <= k < j ==> !Succeeds(tr[k], ops[k])
    ensures Version(tr[j + 1].cell) == Version(tr[j].cell) + (if Succeeds(tr[j], ops[j]) then 1 else 0)
    ensures Succeeds(tr[j], ops[j]) ==> Content(tr[j + 1].cell) == Some(ops[j].data)
    ensures !Succeeds(tr[j], ops[j]) ==> tr[j + 1].cell == tr[j].cell
  {
    RunKeepsOpInv(tr, ops, i);
    RunKeepsOpInv(tr, ops, j);
    LockIsKept(tr, ops, c, i, j);
    LockRefines(tr[i].cell);
    VersionCountsSuccesses(tr, ops, i, j);
    NoSuccesses(tr, ops, i, j);
    StepRefinesRegister(tr[j], ops[j]);
  }

  // ------------------------------------------------------- where it ends

  /** A write without a lock is noticed by a lock holder in memory, but not on
      disk, where it leaves the `.gen` file alone. */
  lemma UnlockedWriteIsNoticed(cell: Cell, data: Data)
    requires WellFormed(cell)
    ensures !Matches(WriteCell(cell, None, data).0, LockGeneration(cell)) <==> cell.Mem?
  {
  }

  /** The cell after n writes, each made under a fresh lock. */
  ghost function Rewritten(cell: Cell, data: Data, n: nat): Cell {
    if n == 0 then cell
    else var before := Rewritten(cell, data, n - 1);
         WriteCell(before, Some(LockGeneration(before)), data).0
  }

  lemma {:induction false} RewrittenVersion(cell: Cell, data: Data, n: nat)
    requires WellFormed(cell)
    ensures WellFormed(Rewritten(cell, data, n))
    ensures (Rewritten(cell, data, n).Mem? <==> cell.Mem?) && Version(Rewritten(cell, data, n)) == Version(cell) + n
  {
    if n > 0 {
      RewrittenVersion(cell, data, n - 1);
      var before := Rewritten(cell, data, n - 1);
      LockRefines(before);
      WriteRefines(before, LockGeneration(before), data);
    }
  }

  /** Deleting starts the count again, so a lock taken before the delete is
      taken for current exactly when as many writes followed the delete as had
      preceded the lock. */
  lemma DeleteForgetsVersions(cell: Cell, data: Data, n: nat)
    requires WellFormed(cell)
    ensures Content(DeletedCell(cell)) == None && Version(DeletedCell(cell)) == 0
    ensures Matches(Rewritten(DeletedCell(cell), data, n), LockGeneration(cell)) <==> n == Version(cell)
  {
    RewrittenVersion(DeletedCell(cell), data, n);
    LockRefines(cell);
    LockRefines(Rewritten(DeletedCell(cell), data, n));
  }
}
