/** The table of 1024 slots behind the opaque pointers handed to the C library,
    used by one caller at a time. */
module HandleTable {
  import opened Options

  const SLOTS: nat := 1024

  /** The slot counter is an unsigned 32-bit integer. */
  const WRAP: nat := 0x1_0000_0000

  datatype Table<V> = Table(slots: seq<Option<V>>, counter: nat)

  predicate WellFormed<V>(t: Table<V>) {
    |t.slots| == SLOTS && t.counter < WRAP
  }

  function Next(counter: nat): nat {
    (counter + 1) % WRAP
  }

  /** Look for a free slot from the counter's slot on, at most `left` times;
      the counter where the search ended, and the slot if there is one. */
  function Probe<V>(slots: seq<Option<V>>, counter: nat, left: nat): (nat, Option<nat>)
    requires |slots| == SLOTS
    decreases left
  {
    if left == 0 then (counter, None)
    else if slots[counter % SLOTS].None? then (counter, Some(counter % SLOTS))
    else Probe(slots, Next(counter), left - 1)
  }

  /** Saving nil yields the nil handle and changes nothing. */
  function Saved<V>(t: Table<V>, v: Option<V>): (r: (Table<V>, Option<nat>))
    requires WellFormed(t)
    ensures WellFormed(r.0)
  {
    if v.None? then (t, None)
    else
      ProbeIsInTable(t.slots, Next(t.counter), SLOTS);
      var (counter, handle) := Probe(t.slots, Next(t.counter), SLOTS);
      (Table(if handle.Some? then t.slots[handle.value := v] else t.slots, counter), handle)
  }

  function Restored<V>(t: Table<V>, handle: Option<nat>): Option<V> {
    if handle.Some? && handle.value < |t.slots| then t.slots[handle.value] else None
  }

  function Unreffed<V>(t: Table<V>, handle: Option<nat>): Table<V> {
    if handle.Some? && handle.value < |t.slots| then t.(slots := t.slots[handle.value := None]) else t
  }

  // ------------------------------------------------------------- the search

  lemma {:induction false} ProbeIsInTable<V>(slots: seq<Option<V>>, counter: nat, left: nat)
    requires |slots| == SLOTS && counter < WRAP
    ensures var (c, handle) := Probe(slots, counter, left);
            c < WRAP && (handle.Some? ==> handle.value < SLOTS && slots[handle.value].None?)
    decreases left
  {
    if left > 0 {
      ProbeIsInTable(slots, Next(counter), left - 1);
    }
  }

  /** The slot j places after slot s. */
  function Ahead(s: nat, j: nat): nat
    requires s < SLOTS && j <= SLOTS
  {
    if s + j < SLOTS then s + j else s + j - SLOTS
  }

  /** When the counter wraps at 2^32 the slots still follow each other. */
  lemma NextSlot(counter: nat)
    requires counter < WRAP
    ensures Next(counter) < WRAP && Next(counter) % SLOTS == Ahead(counter % SLOTS, 1)
  {
    var q, r := counter / 1024, counter % 1024;
    assert counter == 1024 * q + r;
    if r == 1023 {
      assert counter + 1 == 1024 * (q + 1);
    } else {
      assert counter + 1 == 1024 * q + (r + 1);
      assert counter + 1 < WRAP;
    }
  }

  lemma {:induction false} ProbeFails<V>(slots: seq<Option<V>>, counter: nat, left: nat)
    requires |slots| == SLOTS && counter < WRAP && left <= SLOTS
    ensures Probe(slots, counter, left).1.None? <==>
            forall j: nat :: j < left ==> slots[Ahead(counter % SLOTS, j)].Some?
    decreases left
  {
    if left > 0 {
      var s := counter % SLOTS;
      NextSlot(counter);
      ProbeFails(slots, Next(counter), left - 1);
      assert Ahead(s, 0) == s;
      forall j: nat | j < left - 1
        ensures Ahead(Ahead(s, 1), j) == Ahead(s, j + 1)
      {}
      if slots[s].Some? {
        if forall j: nat :: j < left - 1 ==> slots[Ahead(Ahead(s, 1), j)].Some? {
          forall j: nat | j < left
            ensures slots[Ahead(s, j)].Some?
          {
            assert j > 0 ==> slots[Ahead(Ahead(s, 1), j - 1)].Some?;
          }
        }
        if forall j: nat :: j < left ==> slots[Ahead(s, j)].Some? {
          forall j: nat | j < left - 1
            ensures slots[Ahead(Ahead(s, 1), j)].Some?
          {
            assert slots[Ahead(s, j + 1)].Some?;
          }
        }
      }
    }
  }

  /** A value gets a handle exactly if some slot is free; the handle's slot was
      free, now holds the value, and no other slot has changed. */
  lemma SaveAllocates<V>(t: Table<V>, v: Option<V>)
    requires WellFormed(t) && v.Some?
    ensures var (u, handle) := Saved(t, v);
            && WellFormed(u)
            && (handle.None? <==> forall i: nat :: i < SLOTS ==> t.slots[i].Some?)
            && (handle.None? ==> u.slots == t.slots)
            && (handle.Some? ==>
                  && handle.value < SLOTS && t.slots[handle.value].None?
                  && u.slots == t.slots[handle.value := v])
  {
    NextSlot(t.counter);
    var c := Next(t.counter);
    ProbeIsInTable(t.slots, c, SLOTS);
    ProbeFails(t.slots, c, SLOTS);
    var s := c % SLOTS;
    if forall j: nat :: j < SLOTS ==> t.slots[Ahead(s, j)].Some? {
      forall i: nat | i < SLOTS
        ensures t.slots[i].Some?
      {
        assert i == Ahead(s, if i >= s then i - s else i + SLOTS - s);
      }
    }
  }

  lemma Wrapped(n: nat)
    ensures n % WRAP % SLOTS == n % SLOTS && Next(n % WRAP) == (n + 1) % WRAP
  {
    var q, r := n / WRAP, n % WRAP;
    assert n == SLOTS * (0x40_0000 * q + r / SLOTS) + r % SLOTS;
  }

  /** The slot n places from slot 0, round and round, is taken. */
  predicate TakenAt<V>(slots: seq<Option<V>>, n: nat)
    requires |slots| == SLOTS
  {
    slots[n % SLOTS].Some?
  }

  /** The search goes from place `from` on slot by slot and stops, at n, at the
      first free one. */
  lemma {:induction false} ProbeStops<V>(slots: seq<Option<V>>, from: nat, left: nat) returns (n: nat)
    requires |slots| == SLOTS
    ensures from <= n <= from + left && forall k :: from <= k < n ==> TakenAt(slots, k)
    ensures Probe(slots, from % WRAP, left) == (n % WRAP, if n == from + left then None else Some(n % SLOTS))
    ensures n < from + left ==> !TakenAt(slots, n)
    decreases left
  {
    Wrapped(from);
    if left == 0 || !TakenAt(slots, from) {
      n := from;
    } else {
      n := ProbeStops(slots, from + 1, left - 1);
    }
  }

  /** A value goes to the first free slot after that of the counter, round the
      table, and the counter moves there; if there is none it moves to the place
      behind its own once round. */
  lemma SaveTakesNextFree<V>(t: Table<V>, v: V) returns (n: nat)
    requires WellFormed(t)
    ensures t.counter < n <= t.counter + SLOTS + 1 && forall k :: t.counter < k < n ==> TakenAt(t.slots, k)
    ensures var (u, handle) := Saved(t, Some(v));
            && u.counter == n % WRAP
            && handle == if n == t.counter + SLOTS + 1 then None else Some(n % SLOTS)
    ensures n <= t.counter + SLOTS ==> !TakenAt(t.slots, n)
    ensures Saved(t, None) == (t, None)
  {
    n := ProbeStops(t.slots, t.counter + 1, SLOTS);
    ProbeIsInTable(t.slots, Next(t.counter), SLOTS);
  }

  // ---------------------------------------------------------------- sequences

  datatype Op<V> = Save(v: Option<V>) | Unref(handle: Option<nat>)

  function After<V>(t: Table<V>, op: Op<V>): (u: Table<V>)
    requires WellFormed(t)
    ensures WellFormed(u)
  {
    match op
    case Save(v) => Saved(t, v).0
    case Unref(handle) => Unreffed(t, handle)
  }

  /** The table after a sequence of calls. */
  function Played<V>(t: Table<V>, ops: seq<Op<V>>): (u: Table<V>)
    requires WellFormed(t)
    ensures WellFormed(u)
    decreases |ops|
  {
    if ops == [] then t else After(Played(t, ops[..|ops| - 1]), ops[|ops| - 1])
  }

  /** The call at index k saved v and returned the handle. */
  ghost predicate SavedAt<V>(t: Table<V>, ops: seq<Op<V>>, k: nat, v: V, handle: nat)
    requires WellFormed(t)
  {
    k < |ops| && ops[k] == Save(Some(v)) && Saved(Played(t, ops[..k]), Some(v)).1 == Some(handle)
  }

  ghost predicate InUse<V>(ops: seq<Op<V>>, handle: nat, since: nat) {
    forall k :: since < k < |ops| ==> ops[k] != Unref(Some(handle))
  }

  /** Until it is released a handle restores the value it was made for. */
  lemma {:induction false} HandleRestoresItsValue<V>(t: Table<V>, ops: seq<Op<V>>, k: nat, v: V, handle: nat)
    requires WellFormed(t) && SavedAt(t, ops, k, v, handle) && InUse(ops, handle, k)
    ensures Restored(Played(t, ops), Some(handle)) == Some(v)
    decreases |ops|
  {
    var n := |ops| - 1;
    var before := Played(t, ops[..n]);
    if k == n {
      SaveAllocates(before, Some(v));
    } else {
      assert ops[..n][..k] == ops[..k];
      HandleRestoresItsValue(t, ops[..n], k, v, handle);
      assert ops[n] != Unref(Some(handle));
      if ops[n].Save? && ops[n].v.Some? {
        SaveAllocates(before, ops[n].v);
      }
    }
  }

  /** Handles in use differ: a handle that is given out again was released in
      between. */
  lemma HandlesInUseDiffer<V>(t: Table<V>, ops: seq<Op<V>>, k: nat, v: V, n: nat, w: V, handle: nat)
    requires WellFormed(t) && k < n
    requires SavedAt(t, ops, k, v, handle) && SavedAt(t, ops, n, w, handle)
    ensures !InUse(ops[..n], handle, k)
  {
    assert ops[..n][..k] == ops[..k];
    SaveAllocates(Played(t, ops[..n]), Some(w));
    if InUse(ops[..n], handle, k) {
      HandleRestoresItsValue(t, ops[..n], k, v, handle);
      assert false;
    }
  }

  /** Releasing a handle frees its slot and no other. */
  lemma UnrefFreesOne<V>(t: Table<V>, handle: nat, other: nat)
    requires WellFormed(t) && handle < SLOTS
    ensures WellFormed(Unreffed(t, Some(handle)))
    ensures Restored(Unreffed(t, Some(handle)), Some(other)) ==
            if other == handle then None else Restored(t, Some(other))
  {}

  // ------------------------------------------------------------------ the code

  /** The globals pointerStore, pointerIndexer and pointerIndex. A pointer into
      the indexer is the index it points at; `issued` are the pointers given
      out so far. */
  class Handles<V> {
    const pointerStore: array<Option<V>>
    const pointerIndexer: array<nat>
    var pointerIndex: nat
    ghost var issued: set<nat>

    ghost predicate Valid()
      reads this, pointerStore, pointerIndexer
    {
      && pointerStore.Length == SLOTS && pointerIndexer.Length == SLOTS && pointerIndex < WRAP
      && forall i :: i in issued ==> i < SLOTS && pointerIndexer[i] == i
    }

    ghost function Abstract(): Table<V>
      reads this, pointerStore
    {
      Table(pointerStore[..], pointerIndex)
    }

    constructor ()
      ensures Valid() && issued == {} && fresh(pointerStore) && fresh(pointerIndexer)
      ensures pointerIndex == 0 && forall i :: 0 <= i < SLOTS ==> pointerStore[i] == None
    {
      pointerStore := new Option<V>[SLOTS](_ => None);
      pointerIndexer := new nat[SLOTS];
      pointerIndex := 0;
      issued := {};
    }

    method AddOne() returns (next: nat)
      requires pointerIndex < WRAP
      modifies this`pointerIndex
      ensures next == pointerIndex == Next(old(pointerIndex))
    {
      pointerIndex := (pointerIndex + 1) % WRAP;
      next := pointerIndex;
    }

    method SavePointer(v: Option<V>) returns (ptr: Option<nat>)
      requires Valid()
      modifies this, pointerStore, pointerIndexer
      ensures Valid()
      ensures (Abstract(), ptr) == Saved(old(Abstract()), v)
      ensures issued == old(issued) + if ptr.Some? then {ptr.value} else {}
    {
      if v.None? {
        return None;
      }
      NextSlot(pointerIndex);
      var next := AddOne();
      var newPointerIndex := next % SLOTS;
      var startPointerIndex := newPointerIndex;
      ghost var j: nat := 0;
      while pointerStore[newPointerIndex].Some?
        invariant pointerStore[..] == old(pointerStore[..]) && Valid() && issued == old(issued)
        invariant j < SLOTS && newPointerIndex == pointerIndex % SLOTS == Ahead(startPointerIndex, j)
        invariant Probe(pointerStore[..], Next(old(pointerIndex)), SLOTS) ==
                  Probe(pointerStore[..], pointerIndex, SLOTS - j)
        decreases SLOTS - j
      {
        NextSlot(pointerIndex);
        next := AddOne();
        newPointerIndex := next % SLOTS;
        j := j + 1;
        if newPointerIndex == startPointerIndex {
          return None;
        }
      }
      ProbeIsInTable(pointerStore[..], pointerIndex, SLOTS - j);
      pointerIndexer[newPointerIndex] := newPointerIndex;
      pointerStore[newPointerIndex] := v;
      issued := issued + {newPointerIndex};
      return Some(newPointerIndex);
    }

    method RestorePointer(ptr: Option<nat>) returns (v: Option<V>)
      requires Valid() && (ptr.Some? ==> ptr.value in issued)
      ensures v == Restored(Abstract(), ptr)
    {
      if ptr.None? {
        return None;
      }
      var index := pointerIndexer[ptr.value];
      return pointerStore[index];
    }

    method UnrefPointer(ptr: Option<nat>)
      requires Valid() && (ptr.Some? ==> ptr.value in issued)
      modifies pointerStore
      ensures Valid() && Abstract() == Unreffed(old(Abstract()), ptr)
    {
      if ptr.None? {
        return;
      }
      var index := pointerIndexer[ptr.value];
      pointerStore[index] := None;
    }
  }
}
