/** Index synchronisation over a blob store with write conditions: any number
    of adders lock `store.lsi`, read it, merge their own blocks in and write it
    back, and start over whenever the conditional write is refused.

    The object is a Cell of either store, so every theorem here holds over the
    in-memory store and over the file system store. */
module LockedIndex {
  import opened StoreIndexes
  import opened Options
  import opened BlobCells

  /** Where an adder is. The first write of an absent object merges nothing
      and reports no index back: it is `first`. */
  datatype Phase =
    | Ready
    | Locked(generation: int)
    | Merged(generation: int, target: Index, first: bool)
    | Done(returned: Option<Index>)
    | Failed

  /** `charges` records, for every refused write, which successful write (by
      its number) it is blamed on; `steps` counts the adder's own steps. */
  datatype Adder = Adder(add: Index, phase: Phase, charges: seq<nat>, errors: nat, steps: nat)

  /** `log` lists the adders in the order of their successful writes. */
  datatype State = State(cell: Cell, adders: map<ClientId, Adder>, log: seq<ClientId>)

  datatype Action = TakeLock(c: ClientId) | ReadStored(c: ClientId) | WriteBack(c: ClientId) | Fail(c: ClientId)

  function Stored(cell: Cell): Index {
    match Content(cell)
    case None => {}
    case Some(index) => index
  }

  predicate Enabled(s: State, a: Action) {
    && a.c in s.adders
    && var p := s.adders[a.c].phase;
       match a
       case TakeLock(_) => p.Ready?
       case ReadStored(_) => p.Locked?
       case WriteBack(_) => p.Merged?
       case Fail(_) => p.Ready? || p.Locked? || p.Merged?
  }

  function Errored(d: Adder): Adder {
    d.(phase := if d.errors + 1 == 3 then Failed else Ready, errors := d.errors + 1)
  }

  /** The adder after one step; `number` is how many writes had succeeded when
      it took its lock. */
  function AdderStep(cell: Cell, d: Adder, a: Action, number: nat): Adder {
    match a
    case TakeLock(_) =>
      if Content(cell).Some? then d.(phase := Locked(LockGeneration(cell)))
      else d.(phase := Merged(LockGeneration(cell), d.add, true))
    case ReadStored(_) =>
      if Content(cell).None? || !d.phase.Locked? then Errored(d)
      else d.(phase := Merged(d.phase.generation, Content(cell).value + d.add, false))
    case WriteBack(_) =>
      if !d.phase.Merged? then d
      else if Matches(cell, d.phase.generation) then
        d.(phase := Done(if d.phase.first then None else Some(d.phase.target)))
      else
        d.(phase := Ready, charges := d.charges + [number])
    case Fail(_) => Errored(d)
  }

  predicate Wins(s: State, a: Action)
    requires Enabled(s, a)
  {
    a.WriteBack? && Matches(s.cell, s.adders[a.c].phase.generation)
  }

  /** The number of successful writes before the adder's lock. */
  ghost function LockNumber(s: State, v0: int, d: Adder): int {
    if d.phase.Locked? || d.phase.Merged? then Token(s.cell, d.phase.generation) - v0 else |s.log|
  }

  ghost function Apply(s: State, v0: int, a: Action): State
    requires Enabled(s, a)
  {
    var d := s.adders[a.c];
    var number := LockNumber(s, v0, d);
    var after := AdderStep(s.cell, d, a, if number >= 0 then number else 0);
    State(
      if a.WriteBack? then WriteCell(s.cell, Some(d.phase.generation), d.phase.target).0 else s.cell,
      s.adders[a.c := after.(steps := d.steps + 1)],
      if Wins(s, a) then s.log + [a.c] else s.log)
  }

  // ---------------------------------------------------------------- invariant

  /** All blocks added by the adders in the log. */
  function AddedBy(adders: map<ClientId, Adder>, log: seq<ClientId>): Index {
    set i, h | 0 <= i < |log| && log[i] in adders && h in adders[log[i]].add :: h
  }

  ghost predicate Charged(d: Adder, c: ClientId, log: seq<ClientId>, below: int) {
    && (forall i :: 0 <= i < |d.charges| ==> d.charges[i] < below && d.charges[i] < |log| && log[d.charges[i]] != c)
    && (forall i, j :: 0 <= i < j < |d.charges| ==> d.charges[i] < d.charges[j])
  }

  function Progress(p: Phase): nat {
    match p
    case Ready => 0
    case Locked(_) => 1
    case Merged(_, _, _) => 2
    case Done(_) => 3
    case Failed => 0
  }

  ghost predicate AdderInv(s: State, v0: int, c: ClientId, d: Adder) {
    && Charged(d, c, s.log, LockNumber(s, v0, d))
    && d.errors <= 3 && (d.errors == 3 <==> d.phase.Failed?)
    && d.steps <= 3 * (|d.charges| + d.errors) + Progress(d.phase)
    && (d.phase.Done? <==> c in s.log)
    && (d.phase.Locked? || d.phase.Merged? ==> v0 <= Token(s.cell, d.phase.generation) <= Version(s.cell))
    && (d.phase.Locked? ==> Content(s.cell).Some?)
    && (d.phase.Merged? ==> TargetInv(s, d))
    && (d.phase.Done? && d.phase.returned.Some? ==> d.add <= d.phase.returned.value <= Stored(s.cell))
  }

  /** If nobody has written since the lock, the target is what is stored now
      plus the adder's own blocks, even if the read came after the lock. */
  ghost predicate TargetInv(s: State, d: Adder)
    requires d.phase.Merged?
  {
    && (!d.phase.first ==> Content(s.cell).Some?)
    && (Token(s.cell, d.phase.generation) == Version(s.cell) ==>
          && d.phase.target == Stored(s.cell) + d.add
          && (d.phase.first <==> Content(s.cell).None?))
  }

  ghost predicate Inv(s: State, base: Index, v0: int) {
    && WellFormed(s.cell) && v0 >= 0
    && Version(s.cell) == v0 + |s.log|
    && (forall i :: 0 <= i < |s.log| ==> s.log[i] in s.adders)
    && (forall i, j :: 0 <= i < j < |s.log| ==> s.log[i] != s.log[j])
    && Stored(s.cell) == base + AddedBy(s.adders, s.log)
    && (forall c :: c in s.adders ==> AdderInv(s, v0, c, s.adders[c]))
  }

  ghost predicate Initial(s: State) {
    && WellFormed(s.cell) && s.log == []
    && (forall c :: c in s.adders ==> s.adders[c] == Adder(s.adders[c].add, Ready, [], 0, 0))
  }

  lemma InitialInv(s: State)
    requires Initial(s)
    ensures Inv(s, Stored(s.cell), Version(s.cell))
  {
    LockRefines(s.cell);
  }

  lemma AddedByGrows(before: map<ClientId, Adder>, after: map<ClientId, Adder>, log: seq<ClientId>, c: ClientId)
    requires forall k :: k in before ==> k in after && after[k].add == before[k].add
    requires forall k :: k in after ==> k in before
    requires c in before
    ensures AddedBy(after, log) == AddedBy(before, log)
    ensures AddedBy(after, log + [c]) == AddedBy(before, log) + before[c].add
  {
    var longer := log + [c];
    forall h | h in AddedBy(before, log) + before[c].add
      ensures h in AddedBy(after, longer)
    {
      if h in before[c].add {
        assert longer[|log|] == c;
      } else {
        var i :| 0 <= i < |log| && log[i] in before && h in before[log[i]].add;
        assert longer[i] == log[i];
      }
    }
  }

  /** A successful write of adder c, as other adders see it. */
  ghost predicate Overwritten(s: State, t: State, c: ClientId) {
    && (t.cell.Mem? <==> s.cell.Mem?)
    && Version(t.cell) == Version(s.cell) + 1
    && Content(t.cell).Some? && Stored(s.cell) <= Stored(t.cell)
    && t.log == s.log + [c]
  }

  lemma OthersKeep(s: State, t: State, v0: int, c: ClientId, k: ClientId, d: Adder)
    requires AdderInv(s, v0, k, d) && Version(s.cell) == v0 + |s.log|
    requires k != c
    requires (t.cell == s.cell && t.log == s.log) || Overwritten(s, t, c)
    ensures AdderInv(t, v0, k, d)
  {
    if t.log != s.log {
      assert k in t.log <==> k in s.log;
      assert forall i :: 0 <= i < |s.log| ==> t.log[i] == s.log[i];
      assert Charged(d, k, t.log, LockNumber(t, v0, d));
    }
  }

  lemma OwnLock(s: State, base: Index, v0: int, c: ClientId)
    requires Inv(s, base, v0) && Enabled(s, TakeLock(c))
    ensures AdderInv(Apply(s, v0, TakeLock(c)), v0, c, Apply(s, v0, TakeLock(c)).adders[c])
  {
    var t := Apply(s, v0, TakeLock(c));
    LockRefines(s.cell);
    assert AdderInv(s, v0, c, s.adders[c]);
    assert Charged(t.adders[c], c, t.log, LockNumber(t, v0, t.adders[c]));
  }

  lemma OwnRead(s: State, base: Index, v0: int, c: ClientId)
    requires Inv(s, base, v0) && Enabled(s, ReadStored(c))
    ensures AdderInv(Apply(s, v0, ReadStored(c)), v0, c, Apply(s, v0, ReadStored(c)).adders[c])
  {
    var t := Apply(s, v0, ReadStored(c));
    assert AdderInv(s, v0, c, s.adders[c]);
    assert Charged(t.adders[c], c, t.log, LockNumber(t, v0, t.adders[c]));
  }

  lemma OwnFailure(s: State, base: Index, v0: int, c: ClientId)
    requires Inv(s, base, v0) && Enabled(s, Fail(c))
    ensures AdderInv(Apply(s, v0, Fail(c)), v0, c, Apply(s, v0, Fail(c)).adders[c])
  {
    var t := Apply(s, v0, Fail(c));
    assert AdderInv(s, v0, c, s.adders[c]);
    assert Charged(t.adders[c], c, t.log, LockNumber(t, v0, t.adders[c]));
  }

  /** A refused write is charged to the first write that succeeded after the
      adder's lock: another adder's, and later than all its earlier charges. */
  lemma OwnRefusal(s: State, base: Index, v0: int, c: ClientId)
    requires Inv(s, base, v0) && Enabled(s, WriteBack(c)) && !Wins(s, WriteBack(c))
    ensures var t := Apply(s, v0, WriteBack(c));
            t.cell == s.cell && t.log == s.log && AdderInv(t, v0, c, t.adders[c])
  {
    var t := Apply(s, v0, WriteBack(c));
    var d := s.adders[c];
    assert AdderInv(s, v0, c, d);
    WriteRefines(s.cell, d.phase.generation, d.phase.target);
    var number := LockNumber(s, v0, d);
    assert 0 <= number < |s.log|;
    assert s.log[number] in s.log && s.log[number] != c;
    assert Charged(t.adders[c], c, t.log, |t.log|);
  }

  lemma OwnWin(s: State, base: Index, v0: int, c: ClientId)
    requires Inv(s, base, v0) && Enabled(s, WriteBack(c)) && Wins(s, WriteBack(c))
    ensures var t := Apply(s, v0, WriteBack(c));
            && Overwritten(s, t, c) && WellFormed(t.cell)
            && Stored(t.cell) == Stored(s.cell) + s.adders[c].add
            && AdderInv(t, v0, c, t.adders[c])
            && t.adders[c].phase ==
               Done(if Content(s.cell).None? then None else Some(Stored(t.cell)))
  {
    var t := Apply(s, v0, WriteBack(c));
    var d := s.adders[c];
    assert AdderInv(s, v0, c, d);
    WriteRefines(s.cell, d.phase.generation, d.phase.target);
    assert forall i :: 0 <= i < |s.log| ==> t.log[i] == s.log[i];
    assert t.log[|s.log|] == c;
    assert Charged(t.adders[c], c, t.log, |t.log|);
  }

  /** What a step does to the cell, the log and the adder that takes it. */
  lemma OwnStep(s: State, base: Index, v0: int, a: Action)
    requires Inv(s, base, v0) && Enabled(s, a)
    ensures var t := Apply(s, v0, a);
            && AdderInv(t, v0, a.c, t.adders[a.c]) && t.adders[a.c].add == s.adders[a.c].add
            && (if Wins(s, a) then
                  Overwritten(s, t, a.c) && WellFormed(t.cell) && Stored(t.cell) == Stored(s.cell) + s.adders[a.c].add
                else t.cell == s.cell && t.log == s.log)
  {
    match a {
      case TakeLock(c) => OwnLock(s, base, v0, c);
      case ReadStored(c) => OwnRead(s, base, v0, c);
      case Fail(c) => OwnFailure(s, base, v0, c);
      case WriteBack(c) =>
        if Wins(s, a) {
          OwnWin(s, base, v0, c);
        } else {
          OwnRefusal(s, base, v0, c);
        }
    }
  }

  /** What a step does, as far as the invariant goes. */
  ghost predicate Stepped(s: State, v0: int, a: Action, t: State) {
    && a.c in s.adders && t.adders.Keys == s.adders.Keys
    && (forall k :: k in s.adders && k != a.c ==> t.adders[k] == s.adders[k])
    && t.adders[a.c].add == s.adders[a.c].add && AdderInv(t, v0, a.c, t.adders[a.c])
    && (if t.log == s.log then t.cell == s.cell
        else Overwritten(s, t, a.c) && WellFormed(t.cell) && Stored(t.cell) == Stored(s.cell) + s.adders[a.c].add)
    && (t.log != s.log ==> a.c !in s.log)
  }

  lemma StepIsStepped(s: State, base: Index, v0: int, a: Action)
    requires Inv(s, base, v0) && Enabled(s, a)
    ensures Stepped(s, v0, a, Apply(s, v0, a))
  {
    OwnStep(s, base, v0, a);
    assert AdderInv(s, v0, a.c, s.adders[a.c]);
  }

  lemma SteppedKeepsInv(s: State, base: Index, v0: int, a: Action, t: State)
    requires Inv(s, base, v0) && Stepped(s, v0, a, t)
    ensures Inv(t, base, v0) && Stored(s.cell) <= Stored(t.cell)
  {
    AddedByGrows(s.adders, t.adders, s.log, a.c);
    forall k | k in t.adders && k != a.c
      ensures AdderInv(t, v0, k, t.adders[k])
    {
      OthersKeep(s, t, v0, a.c, k, s.adders[k]);
    }
  }

  /** Every step of every adder keeps the invariant. */
  lemma StepKeepsInv(s: State, base: Index, v0: int, a: Action)
    requires Inv(s, base, v0) && Enabled(s, a)
    ensures Inv(Apply(s, v0, a), base, v0)
    ensures Stored(s.cell) <= Stored(Apply(s, v0, a).cell)
  {
    StepIsStepped(s, base, v0, a);
    SteppedKeepsInv(s, base, v0, a, Apply(s, v0, a));
  }

  // ------------------------------------------------------------- whole runs

  ghost predicate Run(tr: seq<State>, acts: seq<Action>) {
    && |tr| == |acts| + 1
    && Initial(tr[0])
    && (forall i :: 0 <= i < |acts| ==>
          Enabled(tr[i], acts[i]) && tr[i + 1] == Apply(tr[i], Version(tr[0].cell), acts[i]))
  }

  lemma {:induction false} RunKeepsInv(tr: seq<State>, acts: seq<Action>, n: nat)
    requires Run(tr, acts) && n < |tr|
    ensures Inv(tr[n], Stored(tr[0].cell), Version(tr[0].cell))
    ensures tr[n].adders.Keys == tr[0].adders.Keys
    ensures forall c :: c in tr[0].adders ==> tr[n].adders[c].add == tr[0].adders[c].add
  {
    if n == 0 {
      InitialInv(tr[0]);
    } else {
      RunKeepsInv(tr, acts, n - 1);
      StepKeepsInv(tr[n - 1], Stored(tr[0].cell), Version(tr[0].cell), acts[n - 1]);
    }
  }

  /** No update is lost: after any interleaving `store.lsi` is exactly the
      initial index united with the blocks of the adders whose write succeeded
      (those that are done), each of which wrote once. */
  lemma NoLostUpdate(tr: seq<State>, acts: seq<Action>, n: nat)
    requires Run(tr, acts) && n < |tr|
    ensures Stored(tr[n].cell) == Stored(tr[0].cell) + DoneBlocks(tr[n].adders)
    ensures Version(tr[n].cell) == Version(tr[0].cell) + |tr[n].log|
  {
    RunKeepsInv(tr, acts, n);
    var s := tr[n];
    forall c | c in s.adders
      ensures s.adders[c].phase.Done? <==> c in s.log
    {
      assert AdderInv(s, Version(tr[0].cell), c, s.adders[c]);
    }
    DoneAreLogged(s.adders, s.log);
  }

  lemma DoneAreLogged(adders: map<ClientId, Adder>, log: seq<ClientId>)
    requires forall c :: c in adders ==> (adders[c].phase.Done? <==> c in log)
    ensures DoneBlocks(adders) == AddedBy(adders, log)
  {
    forall h | h in DoneBlocks(adders)
      ensures h in AddedBy(adders, log)
    {
      var c :| c in adders && adders[c].phase.Done? && h in adders[c].add;
      var i :| 0 <= i < |log| && log[i] == c;
      assert h in adders[log[i]].add;
    }
    forall h | h in AddedBy(adders, log)
      ensures h in DoneBlocks(adders)
    {
      var i :| 0 <= i < |log| && log[i] in adders && h in adders[log[i]].add;
      assert adders[log[i]].phase.Done?;
    }
  }

  function DoneBlocks(adders: map<ClientId, Adder>): Index {
    set c, h | c in adders && adders[c].phase.Done? && h in adders[c].add :: h
  }

  lemma {:induction false} DistinctFit(q: seq<ClientId>, dom: set<ClientId>)
    requires forall i :: 0 <= i < |q| ==> q[i] in dom
    requires forall i, j :: 0 <= i < j < |q| ==> q[i] != q[j]
    ensures |q| <= |dom|
  {
    if q != [] {
      var rest := dom - {q[0]};
      assert forall i :: 0 <= i < |q[1..]| ==> q[1..][i] == q[i + 1];
      DistinctFit(q[1..], rest);
    }
  }

  /** Every refused write of an adder is charged to a different successful
      write, always another adder's. With n adders each adding once, an adder
      is therefore refused at most n - 1 times, and its retry loop ends within
      3n + 9 of its own steps, errors included. */
  lemma RetriesAreBounded(tr: seq<State>, acts: seq<Action>, n: nat, c: ClientId)
    requires Run(tr, acts) && n < |tr| && c in tr[0].adders
    ensures c in tr[n].adders
    ensures var d := tr[n].adders[c];
            && (forall i :: 0 <= i < |d.charges| ==>
                  d.charges[i] < |tr[n].log| && tr[n].log[d.charges[i]] in tr[0].adders.Keys - {c})
            && (forall i, j :: 0 <= i < j < |d.charges| ==>
                  tr[n].log[d.charges[i]] != tr[n].log[d.charges[j]])
            && |d.charges| <= |tr[0].adders| - 1
            && d.steps <= 3 * |tr[0].adders| + 9
  {
    RunKeepsInv(tr, acts, n);
    var s := tr[n];
    var d := s.adders[c];
    assert AdderInv(s, Version(tr[0].cell), c, d);
    var others := tr[0].adders.Keys - {c};
    var blamed := seq(|d.charges|, i requires 0 <= i < |d.charges| => s.log[d.charges[i]]);
    forall i | 0 <= i < |d.charges|
      ensures d.charges[i] < |s.log| && s.log[d.charges[i]] in others
    {
      assert s.log[d.charges[i]] in s.adders;
    }
    DistinctFit(blamed, others);
    assert |others| == |tr[0].adders| - 1;
  }

  /** An adder that has not ended can always take its next step. */
  lemma NoAdderIsStuck(tr: seq<State>, acts: seq<Action>, n: nat, c: ClientId)
    requires Run(tr, acts) && n < |tr| && c in tr[n].adders
    requires !tr[n].adders[c].phase.Done? && !tr[n].adders[c].phase.Failed?
    ensures Enabled(tr[n], TakeLock(c)) || Enabled(tr[n], WriteBack(c))
            || (Enabled(tr[n], ReadStored(c)) && Content(tr[n].cell).Some?)
  {
    RunKeepsInv(tr, acts, n);
    assert AdderInv(tr[n], Version(tr[0].cell), c, tr[n].adders[c]);
  }

  /** What a successful adder gets back is what it has just stored, except that
      the first write of an absent `store.lsi` gives nothing back. */
  lemma SuccessReturnsStored(tr: seq<State>, acts: seq<Action>, i: nat, c: ClientId)
    requires Run(tr, acts) && i < |acts| && acts[i] == WriteBack(c) && Wins(tr[i], acts[i])
    ensures Stored(tr[i + 1].cell) == Stored(tr[i].cell) + tr[i].adders[c].add
    ensures tr[i + 1].adders[c].phase ==
            Done(if Content(tr[i].cell).None? then None else Some(Stored(tr[i + 1].cell)))
  {
    RunKeepsInv(tr, acts, i);
    OwnWin(tr[i], Stored(tr[0].cell), Version(tr[0].cell), c);
  }

  /** How many of the first n steps are failed operations of adder c. */
  function Failures(acts: seq<Action>, c: ClientId, n: nat): nat
    requires n <= |acts|
  {
    if n == 0 then 0 else Failures(acts, c, n - 1) + if acts[n - 1] == Fail(c) then 1 else 0
  }

  lemma ErrorStep(s: State, base: Index, v0: int, a: Action, c: ClientId)
    requires Inv(s, base, v0) && Enabled(s, a) && c in s.adders
    ensures c in Apply(s, v0, a).adders
    ensures Apply(s, v0, a).adders[c].errors == s.adders[c].errors + if a == Fail(c) then 1 else 0
  {
    assert AdderInv(s, v0, a.c, s.adders[a.c]);
  }

  lemma ErrorsAt(tr: seq<State>, acts: seq<Action>, n: nat, c: ClientId)
    requires Run(tr, acts) && n < |acts| && c in tr[n].adders
    ensures c in tr[n + 1].adders
    ensures tr[n + 1].adders[c].errors == tr[n].adders[c].errors + if acts[n] == Fail(c) then 1 else 0
  {
    RunKeepsInv(tr, acts, n);
    ErrorStep(tr[n], Stored(tr[0].cell), Version(tr[0].cell), acts[n], c);
  }

  lemma {:induction false} ErrorsAreFailures(tr: seq<State>, acts: seq<Action>, n: nat, c: ClientId)
    requires Run(tr, acts) && n < |tr| && c in tr[0].adders
    ensures c in tr[n].adders && tr[n].adders[c].errors == Failures(acts, c, n)
  {
    if n > 0 {
      ErrorsAreFailures(tr, acts, n - 1, c);
      ErrorsAt(tr, acts, n - 1, c);
    }
  }

  /** An adder has given up exactly if three of its operations have failed. */
  lemma GivesUpExactly(tr: seq<State>, acts: seq<Action>, n: nat, c: ClientId)
    requires Run(tr, acts) && n < |tr| && c in tr[0].adders
    ensures c in tr[n].adders && Failures(acts, c, n) <= 3
    ensures tr[n].adders[c].phase.Failed? <==> Failures(acts, c, n) == 3
  {
    ErrorsAreFailures(tr, acts, n, c);
    RunKeepsInv(tr, acts, n);
    assert AdderInv(tr[n], Version(tr[0].cell), c, tr[n].adders[c]);
  }

  lemma StepGrows(tr: seq<State>, acts: seq<Action>, n: nat)
    requires Run(tr, acts) && n < |acts|
    ensures Stored(tr[n].cell) <= Stored(tr[n + 1].cell)
  {
    RunKeepsInv(tr, acts, n);
    StepKeepsInv(tr[n], Stored(tr[0].cell), Version(tr[0].cell), acts[n]);
  }

  lemma {:induction false} StoredGrows(tr: seq<State>, acts: seq<Action>, i: nat, j: nat)
    requires Run(tr, acts) && i <= j < |tr|
    ensures Stored(tr[i].cell) <= Stored(tr[j].cell)
  {
    if i < j {
      StoredGrows(tr, acts, i, j - 1);
      StepGrows(tr, acts, j - 1);
    }
  }
}
