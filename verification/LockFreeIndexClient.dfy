/** The client code of the lock-free index protocol, loops and all, running
    against a store that other clients change between any two of its blob
    store operations. */
module LockFreeIndexClient {
  import opened StoreIndexes
  import opened LockFreeIndex
  import opened Options

  /** `acts` are steps of clients other than c that lead from s to t. */
  ghost predicate Others(sha: Naming, s: State, acts: seq<Action>, t: State, c: ClientId)
    decreases |acts|
  {
    if acts == [] then s == t
    else
      && acts[0].c != c && Enabled(s, acts[0])
      && Others(sha, Apply(sha, s, acts[0]), acts[1..], t, c)
  }

  /** What client c may rely on while other clients run. */
  ghost predicate Rely(sha: Naming, s: State, t: State, c: ClientId)
    requires c in s.clients
  {
    && Inv(sha, t)
    && c in t.clients && t.clients[c] == s.clients[c]
    && Union(s.files) <= Union(t.files)
    && s.acked <= t.acked
  }

  lemma {:induction false} OthersMeetRely(sha: Naming, s: State, acts: seq<Action>, t: State, c: ClientId)
    requires Injective(sha) && Inv(sha, s) && c in s.clients && Others(sha, s, acts, t, c)
    ensures Rely(sha, s, t, c)
    decreases |acts|
  {
    if acts != [] {
      StepKeepsInv(sha, s, acts[0]);
      StepPublishes(sha, s, acts[0]);
      OthersMeetRely(sha, Apply(sha, s, acts[0]), acts[1..], t, c);
    }
  }

  // ----------------------------------------------------------------- histories

  /** The steps that all clients have taken, with the states in between. */
  datatype History = History(trace: seq<State>, acts: seq<Action>)

  ghost predicate Recorded(sha: Naming, h: History) {
    Steps(sha, h.trace, h.acts)
  }

  function Now(h: History): State
    requires h.trace != []
  {
    h.trace[|h.trace| - 1]
  }

  ghost predicate GoesOn(h: History, later: History) {
    && |h.trace| == |h.acts| + 1 && |later.trace| == |later.acts| + 1
    && |h.acts| <= |later.acts|
    && later.acts[..|h.acts|] == h.acts && later.trace[..|h.trace|] == h.trace
  }

  /** Others took some steps, then the client of a took step a. */
  ghost predicate OneOp(h: History, later: History, a: Action) {
    && GoesOn(h, later)
    && |later.acts| > |h.acts| && later.acts[|later.acts| - 1] == a
    && forall k :: |h.acts| <= k < |later.acts| - 1 ==> later.acts[k].c != a.c
  }

  /** Since step `from` another client has written or removed an index file. */
  ghost predicate Disturbed(h: History, from: nat, c: ClientId) {
    && |h.trace| == |h.acts| + 1
    && exists k :: from <= k < |h.acts| && h.acts[k].c != c && h.trace[k + 1].files != h.trace[k].files
  }

  /** Since step `from` only c has taken steps, and all its operations worked. */
  ghost predicate Alone(h: History, from: nat, c: ClientId) {
    forall k :: from <= k < |h.acts| ==>
      h.acts[k].c == c && !h.acts[k].Fail? && (h.acts[k].Delete? ==> h.acts[k].deleted)
  }

  /** Since step `from` client c has changed no file. */
  ghost predicate OnlyLooked(h: History, from: nat, c: ClientId) {
    forall k :: from <= k < |h.acts| && h.acts[k].c == c ==> !h.acts[k].Write? && !h.acts[k].Delete?
  }

  /** `left` bounds how often the other clients will still change a file. */
  ghost predicate Since(h: History, left: nat, later: History, rest: nat, c: ClientId) {
    && GoesOn(h, later) && rest <= left
    && (Disturbed(later, |h.acts|, c) ==> rest < left)
  }

  lemma SinceBoth(h: History, left: nat, later: History, rest: nat, last: History, end: nat, c: ClientId)
    requires Since(h, left, later, rest, c) && Since(later, rest, last, end, c)
    ensures Since(h, left, last, end, c)
  {
    assert last.acts[..|h.acts|] == last.acts[..|later.acts|][..|h.acts|];
    assert last.trace[..|h.trace|] == last.trace[..|later.trace|][..|h.trace|];
    if Disturbed(last, |h.acts|, c) {
      var k :| |h.acts| <= k < |last.acts| && last.acts[k].c != c && last.trace[k + 1].files != last.trace[k].files;
      if k < |later.acts| {
        assert later.acts[k] == last.acts[..|later.acts|][k] == last.acts[k];
        assert later.trace[k] == last.trace[..|later.trace|][k] == last.trace[k];
        assert later.trace[k + 1] == last.trace[..|later.trace|][k + 1] == last.trace[k + 1];
        assert Disturbed(later, |h.acts|, c);
      } else {
        assert Disturbed(last, |later.acts|, c);
      }
    }
  }

  lemma GoesOnByOne(h: History, later: History, a: Action, t: State)
    requires GoesOn(h, later)
    ensures GoesOn(h, History(later.trace + [t], later.acts + [a]))
  {
    var last := History(later.trace + [t], later.acts + [a]);
    assert last.acts[..|h.acts|] == later.acts[..|h.acts|];
    assert last.trace[..|h.trace|] == later.trace[..|h.trace|];
  }

  lemma ThenOwnOp(h: History, later: History, a: Action, t: State)
    requires GoesOn(h, later)
    requires forall k :: |h.acts| <= k < |later.acts| ==> later.acts[k].c != a.c
    ensures OneOp(h, History(later.trace + [t], later.acts + [a]), a)
  {
    GoesOnByOne(h, later, a, t);
    var last := History(later.trace + [t], later.acts + [a]);
    forall k | |h.acts| <= k < |last.acts| - 1
      ensures last.acts[k].c != a.c
    {
      assert last.acts[k] == later.acts[k];
    }
  }

  lemma OwnStepDisturbsNot(later: History, a: Action, t: State, from: nat, c: ClientId)
    requires |later.trace| == |later.acts| + 1 && a.c == c
    ensures Disturbed(History(later.trace + [t], later.acts + [a]), from, c) ==> Disturbed(later, from, c)
  {
    var last := History(later.trace + [t], later.acts + [a]);
    if Disturbed(last, from, c) {
      var k :| from <= k < |last.acts| && last.acts[k].c != c && last.trace[k + 1].files != last.trace[k].files;
      assert k < |later.acts| && later.acts[k] == last.acts[k];
      assert later.trace[k + 1] == last.trace[k + 1] && later.trace[k] == last.trace[k];
    }
  }

  lemma ThenOwnStep(h: History, left: nat, later: History, rest: nat, a: Action, t: State, c: ClientId)
    requires Since(h, left, later, rest, c) && a.c == c
    requires forall k :: |h.acts| <= k < |later.acts| ==> later.acts[k].c != c
    ensures var last := History(later.trace + [t], later.acts + [a]);
            OneOp(h, last, a) && Since(h, left, last, rest, c)
  {
    ThenOwnOp(h, later, a, t);
    OwnStepDisturbsNot(later, a, t, |h.acts|, c);
  }

  lemma StepIsRecorded(sha: Naming, h: History, a: Action)
    requires Injective(sha) && Recorded(sha, h) && Inv(sha, Now(h))
    requires Enabled(Now(h), a) && a.c in Now(h).clients && !a.Start?
    ensures var t := Apply(sha, Now(h), a);
            && Recorded(sha, History(h.trace + [t], h.acts + [a])) && Inv(sha, t)
            && Union(Now(h).files) <= Union(t.files) && Now(h).acked <= t.acked
  {
    StepKeepsInv(sha, Now(h), a);
    StepPublishes(sha, Now(h), a);
  }

  /** A client that is alone sees no step but its own. */
  lemma AloneOp(sha: Naming, h: History, later: History, a: Action)
    requires Recorded(sha, later) && OneOp(h, later, a) && Alone(later, |h.acts|, a.c)
    ensures Enabled(Now(h), a) && Now(later) == Apply(sha, Now(h), a)
  {
    var n := |later.acts| - 1;
    assert later.acts[|h.acts|].c == a.c;
    assert n == |h.acts|;
    assert later.trace[n] == later.trace[..|h.trace|][n];
  }

  lemma AloneThenOp(sha: Naming, start: History, h: History, later: History, a: Action)
    requires GoesOn(start, h) && Recorded(sha, later) && OneOp(h, later, a) && Alone(later, |start.acts|, a.c)
    ensures Alone(h, |start.acts|, a.c) && !a.Fail? && (a.Delete? ==> a.deleted)
    ensures Enabled(Now(h), a) && Now(later) == Apply(sha, Now(h), a)
  {
    forall k | |start.acts| <= k < |h.acts|
      ensures h.acts[k] == later.acts[k]
    {
      assert later.acts[..|h.acts|][k] == later.acts[k];
    }
    assert later.acts[|later.acts| - 1] == a;
    AloneOp(sha, h, later, a);
  }

  lemma LookedOn(h: History, later: History, a: Action, from: nat)
    requires OneOp(h, later, a) && OnlyLooked(h, from, a.c) && !a.Write? && !a.Delete?
    ensures OnlyLooked(later, from, a.c)
  {
    forall k | from <= k < |later.acts| && later.acts[k].c == a.c
      ensures !later.acts[k].Write? && !later.acts[k].Delete?
    {
      if k < |h.acts| {
        assert later.acts[k] == later.acts[..|h.acts|][k] == h.acts[k];
      }
    }
  }

  /** If a listed file is gone, another client has deleted it. */
  lemma VanishedByOthers(sha: Naming, h: History, from: nat, key: Key, c: ClientId)
    requires Recorded(sha, h) && from < |h.trace| && OnlyLooked(h, from, c)
    requires key in h.trace[from].files && key !in Now(h).files
    ensures Disturbed(h, from, c)
  {
    var k := FindDelete(sha, h.trace, h.acts, key, from, |h.acts|);
    assert h.acts[k].c != c && h.trace[k + 1].files != h.trace[k].files;
  }

  /** If a file that was not listed is there, another client has written it. */
  lemma AppearedByOthers(sha: Naming, h: History, from: nat, key: Key, c: ClientId)
    requires Recorded(sha, h) && from < |h.trace| && OnlyLooked(h, from, c)
    requires key !in h.trace[from].files && key in Now(h).files
    ensures Disturbed(h, from, c)
  {
    var k := FindWrite(sha, h.trace, h.acts, key, from, |h.acts|);
    assert h.acts[k].c != c && h.trace[k + 1].files != h.trace[k].files;
  }

  // ----------------------------------------------------------------- the store

  /** The names of a set of files, each once, in any order. */
  method ListNames(keys: set<Key>) returns (items: seq<Key>)
    ensures Distinct(items) && forall k :: k in items <==> k in keys
  {
    items := [];
    var rest := keys;
    while rest != {}
      invariant rest <= keys && Distinct(items)
      invariant forall k :: k in items <==> k in keys - rest
      decreases rest
    {
      var k :| k in rest;
      AppendDistinct(items, k);
      items, rest := items + [k], rest - {k};
    }
  }

  predicate Distinct(items: seq<Key>) {
    forall i, j :: 0 <= i < j < |items| ==> items[i] != items[j]
  }

  lemma AppendDistinct(items: seq<Key>, k: Key)
    requires Distinct(items) && k !in items
    ensures Distinct(items + [k])
    ensures forall x :: x in items + [k] <==> x in items || x == k
  {
    forall i, j | 0 <= i < j < |items + [k]|
      ensures (items + [k])[i] != (items + [k])[j]
    {
      assert items[i] in items;
    }
  }

  /** The client after an operation of its add has failed. */
  function AfterError(x: Client): Client {
    x.(phase := if x.errors + 1 == 3 then Failed else Listing, errors := x.errors + 1)
  }

  /** The blob store. Each operation first lets the other clients run for as
      long as they like, then takes effect in one step, or fails without any.
      `faults` says which of the operations fail, counted by `ops`. The ghost
      history follows every step in the protocol's state machine; `left` bounds
      how often the others will still change a file. */
  class SharedStore {
    const sha: Naming
    const faults: nat -> bool
    var files: map<Key, Index>
    var ops: nat
    ghost var history: History
    ghost var left: nat

    ghost predicate Valid()
      reads this
    {
      && Injective(sha) && Recorded(sha, history)
      && Now(history).files == files && Inv(sha, Now(history))
    }

    ghost function Model(): State
      requires Valid()
      reads this
    {
      Now(history)
    }

    /** The last operation failed, and it was not one of the first n. */
    ghost predicate JustFailed(n: nat)
      reads this
    {
      ops > n && faults(ops - 1)
    }

    /** The store is Valid and client c is in state x. */
    ghost predicate At(c: ClientId, x: Client)
      reads this
    {
      Valid() && c in Now(history).clients && Now(history).clients[c] == x
    }

    constructor (sha: Naming, faults: nat -> bool, ghost model: State, files: map<Key, Index>, ghost left: nat)
      requires Injective(sha) && model.files == files && Inv(sha, model)
      ensures Valid() && this.sha == sha && Model() == model && this.left == left
      ensures history == History([model], []) && this.faults == faults && ops == 0
    {
      this.sha, this.faults, this.files, this.ops := sha, faults, files, 0;
      this.history, this.left := History([model], []), left;
    }

    /** The other clients run. Nothing is known but that they follow the
        protocol: this body is one possible behaviour among those allowed. */
    method Interference(ghost c: ClientId)
      requires Valid() && c in Model().clients
      modifies this`files, this`history, this`left
      ensures Valid() && Rely(sha, old(Model()), Model(), c)
      ensures Since(old(history), old(left), history, left, c)
      ensures forall k :: |old(history).acts| <= k < |history.acts| ==> history.acts[k].c != c
    {
    }

    /** The one step of an operation that began with history h and budget
        `before`. */
    ghost method Step(a: Action, h: History, before: nat)
      requires Valid() && Enabled(Model(), a) && a.c in Model().clients && !a.Start?
      requires Since(h, before, history, left, a.c)
      requires forall k :: |h.acts| <= k < |history.acts| ==> history.acts[k].c != a.c
      modifies this`history
      ensures Recorded(sha, history) && Inv(sha, Now(history)) && Now(history) == Apply(sha, old(Model()), a)
      ensures OneOp(h, history, a) && Since(h, before, history, left, a.c)
      ensures Union(old(Model()).files) <= Union(Now(history).files) && old(Model()).acked <= Now(history).acked
    {
      StepIsRecorded(sha, history, a);
      ThenOwnStep(h, before, history, left, a, Apply(sha, Model(), a), a.c);
      history := History(history.trace + [Apply(sha, Model(), a)], history.acts + [a]);
    }

    /** The listing; None: it failed. */
    method GetObjects(ghost c: ClientId, ghost x: Client) returns (items: Option<seq<Key>>)
      requires At(c, x) && x.job.Add? && x.phase.Listing?
      modifies this
      ensures Valid() && Since(old(history), old(left), history, left, c)
      ensures ops == old(ops) + 1 && (items.None? <==> faults(old(ops)))
      ensures items.None? ==> At(c, AfterError(x)) && OneOp(old(history), history, Fail(c))
      ensures items.Some? ==>
                && At(c, x.(phase := Reading(items.value, []))) && Lists(items.value, files)
                && OneOp(old(history), history, List(c, items.value))
      ensures Union(old(files)) <= Union(files)
    {
      Interference(c);
      var err := faults(ops);
      ops := ops + 1;
      if err {
        Step(Fail(c), old(history), old(left));
        return None;
      }
      var names := ListNames(files.Keys);
      Step(List(c, names), old(history), old(left));
      items := Some(names);
    }

    /** Read the next listed file: its contents, that it is gone, or an error. */
    method ReadFile(ghost c: ClientId, ghost x: Client, key: Key) returns (err: bool, r: Option<Index>)
      requires At(c, x) && x.job.Add? && x.phase.Reading?
      requires |x.phase.contents| < |x.phase.items| && key == x.phase.items[|x.phase.contents|]
      modifies this
      ensures Valid() && Since(old(history), old(left), history, left, c)
      ensures ops == old(ops) + 1 && (err <==> faults(old(ops)))
      ensures err ==> At(c, AfterError(x)) && OneOp(old(history), history, Fail(c))
      ensures !err ==>
                && OneOp(old(history), history, Read(c))
                && r == (if key in files then Some(files[key]) else None)
                && At(c, x.(phase := if key in files then Reading(x.phase.items, x.phase.contents + [files[key]])
                                     else Listing))
      ensures Union(old(files)) <= Union(files)
    {
      Interference(c);
      err := faults(ops);
      ops := ops + 1;
      if err {
        Step(Fail(c), old(history), old(left));
        return true, None;
      }
      r := if key in files then Some(files[key]) else None;
      Step(Read(c), old(history), old(left));
    }

    method Exists(ghost c: ClientId, ghost x: Client, key: Key) returns (err: bool, present: bool)
      requires At(c, x) && x.job.Add? && x.phase.Probing? && key == sha(x.phase.target)
      modifies this
      ensures Valid() && Since(old(history), old(left), history, left, c)
      ensures ops == old(ops) + 1 && (err <==> faults(old(ops)))
      ensures err ==> At(c, AfterError(x)) && OneOp(old(history), history, Fail(c))
      ensures !err ==>
                && OneOp(old(history), history, Probe(c)) && (present <==> key in files)
                && At(c, x.(phase := if present then Listing
                                     else Writing(x.phase.items, x.phase.contents, x.phase.target)))
      ensures Union(old(files)) <= Union(files)
    {
      Interference(c);
      err := faults(ops);
      ops := ops + 1;
      if err {
        Step(Fail(c), old(history), old(left));
        return true, false;
      }
      present := key in files;
      Step(Probe(c), old(history), old(left));
    }

    method WriteFile(ghost c: ClientId, ghost x: Client, key: Key, target: Index) returns (err: bool)
      requires At(c, x) && x.job.Add? && x.phase.Writing? && target == x.phase.target && key == sha(target)
      modifies this
      ensures Valid() && Since(old(history), old(left), history, left, c)
      ensures ops == old(ops) + 1 && (err <==> faults(old(ops)))
      ensures err ==> At(c, AfterError(x)) && OneOp(old(history), history, Fail(c))
      ensures !err ==>
                && OneOp(old(history), history, Write(c)) && key in files && files[key] == target
                && At(c, x.(phase := Deleting(x.phase.items, x.phase.contents, target, 0)))
      ensures Union(old(files)) <= Union(files)
    {
      Interference(c);
      err := faults(ops);
      ops := ops + 1;
      if err {
        Step(Fail(c), old(history), old(left));
        return true;
      }
      Step(Write(c), old(history), old(left));
      files := files[key := target];
    }

    /** A delete that fails is ignored by its caller. */
    method DeleteFile(ghost c: ClientId, ghost x: Client, key: Key) returns (deleted: bool)
      requires At(c, x) && x.phase.Deleting? && x.phase.done < |x.phase.items| && key == x.phase.items[x.phase.done]
      modifies this
      ensures Since(old(history), old(left), history, left, c)
      ensures ops == old(ops) + 1 && (deleted <==> !faults(old(ops)))
      ensures At(c, x.(phase := x.phase.(done := x.phase.done + 1)))
      ensures OneOp(old(history), history, Delete(c, deleted)) && (deleted ==> key !in files)
      ensures Union(old(files)) <= Union(files)
    {
      Interference(c);
      deleted := !faults(ops);
      ops := ops + 1;
      Step(Delete(c, deleted), old(history), old(left));
      if deleted {
        files := files - {key};
      }
    }
  }

  // ------------------------------------------------------------ the client code

  /** The moment p of a listing, and what has been read of it since. */
  ghost predicate ReadSince(h: History, p: nat, items: seq<Key>, contents: seq<Index>, c: ClientId) {
    && |h.trace| == |h.acts| + 1 && p < |h.trace|
    && HasRead(items, contents, h.trace[p].files) && OnlyLooked(h, p, c)
  }

  lemma ReadOn(h: History, later: History, p: nat, items: seq<Key>, contents: seq<Index>, a: Action)
    requires ReadSince(h, p, items, contents, a.c) && OneOp(h, later, a) && !a.Write? && !a.Delete?
    ensures ReadSince(later, p, items, contents, a.c) && later.trace[p] == h.trace[p]
  {
    assert later.trace[p] == later.trace[..|h.trace|][p];
    LookedOn(h, later, a, p);
  }

  lemma DisturbedSooner(h: History, from: nat, p: nat, c: ClientId)
    requires Disturbed(h, p, c) && from <= p
    ensures Disturbed(h, from, c)
  {}

  /** What a client that began with history h, budget `before` and `files` can
      say later on: it relies on Since, and if it was alone it saw no change. */
  ghost predicate Continues(
      store: SharedStore, h: History, before: nat, files: map<Key, Index>, c: ClientId)
    reads store
  {
    && store.Valid() && Since(h, before, store.history, store.left, c)
    && Union(files) <= Union(store.files)
    && (Alone(store.history, |h.acts|, c) ==> store.files == files)
  }

  /** After an operation by step a. */
  lemma ContinuesOn(
      store: SharedStore, h: History, before: nat, files: map<Key, Index>, c: ClientId, was: History, had: nat,
      saw: map<Key, Index>, a: Action)
    requires Since(h, before, was, had, c) && |was.trace| > 0 && Now(was).files == saw && Union(files) <= Union(saw)
    requires Alone(was, |h.acts|, c) ==> saw == files
    requires store.Valid() && Since(was, had, store.history, store.left, c) && Union(saw) <= Union(store.files)
    requires OneOp(was, store.history, a) && a.c == c && !a.Write? && !a.Delete? && !a.Start?
    ensures Continues(store, h, before, files, c)
    ensures Alone(store.history, |h.acts|, c) ==> Alone(was, |h.acts|, c) && !a.Fail?
  {
    SinceBoth(h, before, was, had, store.history, store.left, c);
    if Alone(store.history, |h.acts|, c) {
      AloneThenOp(store.sha, h, was, store.history, a);
    }
  }

  /** After reading the next listed file. */
  lemma AfterRead(
      sha: Naming, h: History, later: History, p: nat, items: seq<Key>, contents: seq<Index>, c: ClientId,
      r: Option<Index>)
    requires Injective(sha) && Recorded(sha, later) && Named(sha, Now(later).files)
    requires ReadSince(h, p, items, contents, c) && Named(sha, h.trace[p].files) && |contents| < |items|
    requires OneOp(h, later, Read(c))
    requires var key := items[|contents|];
             r == if key in Now(later).files then Some(Now(later).files[key]) else None
    ensures p < |later.trace| && later.trace[p] == h.trace[p]
    ensures r.None? ==> Disturbed(later, p, c)
    ensures r.Some? ==> ReadSince(later, p, items, contents + [r.value], c)
  {
    ReadOn(h, later, p, items, contents, Read(c));
    var key := items[|contents|];
    assert key in items;
    if r.None? {
      VanishedByOthers(sha, later, p, key, c);
    } else {
      assert sha(r.value) == key == sha(h.trace[p].files[key]);
    }
  }

  /** One turn of the loop over the listed files. */
  method ReadNext(
      store: SharedStore, ghost c: ClientId, ghost x: Client, ghost items: seq<Key>, ghost contents: seq<Index>,
      ghost p: nat, key: Key, ghost h: History, ghost before: nat, ghost files: map<Key, Index>)
    returns (err: bool, r: Option<Index>)
    requires store.At(c, x.(phase := Reading(items, contents))) && x.job.Add?
    requires |contents| < |items| && key == items[|contents|]
    requires Continues(store, h, before, files, c)
    requires ReadSince(store.history, p, items, contents, c) && Named(store.sha, store.history.trace[p].files)
    modifies store
    ensures Continues(store, h, before, files, c) && store.ops >= old(store.ops)
    ensures err ==> store.At(c, AfterError(x)) && !Alone(store.history, |h.acts|, c)
    ensures err ==> store.JustFailed(old(store.ops))
    ensures !err && r.None? ==> store.At(c, x.(phase := Listing)) && Disturbed(store.history, p, c)
    ensures !err && r.Some? ==>
              && store.At(c, x.(phase := Reading(items, contents + [r.value])))
              && ReadSince(store.history, p, items, contents + [r.value], c)
    ensures !err ==> p < |store.history.trace| && p < |old(store.history).trace|
                     && store.history.trace[p] == old(store.history).trace[p]
  {
    ghost var was, had, saw := store.history, store.left, store.files;
    err, r := store.ReadFile(c, x.(phase := Reading(items, contents)), key);
    if err {
      ContinuesOn(store, h, before, files, c, was, had, saw, Fail(c));
    } else {
      ContinuesOn(store, h, before, files, c, was, had, saw, Read(c));
      AfterRead(store.sha, was, store.history, p, items, contents, c, r);
    }
  }

  /** The loop over the items listed at moment p. None: a listed file was gone
      before it was read, so another client has deleted it in the meantime. */
  method MergeStoreIndexItems(
      store: SharedStore, ghost c: ClientId, ghost x: Client, items: seq<Key>, ghost p: nat,
      ghost listed: map<Key, Index>, ghost h: History, ghost before: nat, ghost files: map<Key, Index>)
    returns (err: bool, index: Option<Index>, ghost contents: seq<Index>)
    requires store.At(c, x.(phase := Reading(items, []))) && x.job.Add?
    requires Continues(store, h, before, files, c)
    requires ReadSince(store.history, p, items, [], c) && store.history.trace[p].files == listed
    requires Named(store.sha, listed)
    modifies store
    ensures Continues(store, h, before, files, c) && store.ops >= old(store.ops)
    ensures err ==> store.At(c, AfterError(x)) && !Alone(store.history, |h.acts|, c)
    ensures err ==> store.JustFailed(old(store.ops))
    ensures !err && index.None? ==> store.At(c, x.(phase := Listing)) && Disturbed(store.history, p, c)
    ensures !err && index.Some? ==>
              && store.At(c, x.(phase := Reading(items, contents))) && |contents| == |items|
              && ReadSince(store.history, p, items, contents, c) && store.history.trace[p].files == listed
              && index.value == MergeAll(contents) == Union(listed)
  {
    contents := [];
    var merged: Index := {};
    var i := 0;
    while i < |items|
      invariant 0 <= i <= |items| && i == |contents|
      invariant store.At(c, x.(phase := Reading(items, contents))) && Continues(store, h, before, files, c)
      invariant store.ops >= old(store.ops)
      invariant ReadSince(store.history, p, items, contents, c) && store.history.trace[p].files == listed
      invariant merged == MergeAll(contents)
    {
      var tmp;
      err, tmp := ReadNext(store, c, x, items, contents, p, items[i], h, before, files);
      if err {
        return true, None, contents;
      }
      if tmp.None? {
        return false, None, contents;
      }
      MergeAllSnoc(contents, tmp.value);
      merged := merged + tmp.value;
      contents := contents + [tmp.value];
      i := i + 1;
    }
    ReadEverything(items, contents, listed);
    return false, Some(merged), contents;
  }

  /** One round of listing, reading and merging the index files. If it has to be
      repeated, another client has deleted a listed file during this very round. */
  method ReadStoreIndexWithItems(
      store: SharedStore, ghost c: ClientId, ghost x: Client, ghost h: History, ghost before: nat,
      ghost files: map<Key, Index>)
    returns (err: bool, index: Option<Index>, items: seq<Key>, ghost contents: seq<Index>, ghost p: nat,
        ghost listed: map<Key, Index>)
    requires store.At(c, x) && x.job.Add? && x.phase.Listing?
    requires Continues(store, h, before, files, c)
    modifies store
    ensures Continues(store, h, before, files, c) && store.ops >= old(store.ops)
    ensures err ==> store.At(c, AfterError(x)) && !Alone(store.history, |h.acts|, c)
    ensures err ==> store.JustFailed(old(store.ops))
    ensures !err && index.None? ==> store.At(c, x) && Disturbed(store.history, |old(store.history).acts|, c)
    ensures !err && index.Some? ==>
              && store.At(c, x.(phase := Reading(items, contents))) && |contents| == |items|
              && ReadSince(store.history, p, items, contents, c) && store.history.trace[p].files == listed
              && |old(store.history).acts| <= p && Named(store.sha, listed)
              && Union(old(store.files)) <= Union(listed) <= Union(store.files)
              && index.value == MergeAll(contents) == Union(listed)
  {
    ghost var was, had, saw := store.history, store.left, store.files;
    var names := store.GetObjects(c, x);
    contents, p, listed := [], |store.history.acts|, store.files;
    if names.None? {
      ContinuesOn(store, h, before, files, c, was, had, saw, Fail(c));
      return true, None, [], contents, p, listed;
    }
    items := names.value;
    ContinuesOn(store, h, before, files, c, was, had, saw, List(c, items));
    err, index, contents := MergeStoreIndexItems(store, c, x, items, p, listed, h, before, files);
  }

  /** While c is alone and only looks, no file changes. */
  lemma {:induction false} LookingChangesNothing(sha: Naming, h: History, from: nat, p: nat, n: nat, c: ClientId)
    requires Recorded(sha, h) && Alone(h, from, c) && OnlyLooked(h, p, c) && from <= p <= n < |h.trace|
    ensures h.trace[n].files == h.trace[p].files
    decreases n - p
  {
    if p < n {
      LookingChangesNothing(sha, h, from, p, n - 1, c);
      assert h.acts[n - 1].c == c;
    }
  }

  /** The files that a lone adder leaves once it has deleted some of them. */
  function Written(files: map<Key, Index>, key: Key, target: Index, gone: seq<Key>): map<Key, Index> {
    files[key := target] - set k | k in gone
  }

  /** What a client that was alone leaves after adding: the very index was there
      already, or there is exactly one file. */
  function AddedAlone(files: map<Key, Index>, key: Key, target: Index): map<Key, Index> {
    if key in files then files else map[key := target]
  }

  /** The items name all files, and the target is their union and what is added. */
  ghost predicate Merges(items: seq<Key>, files: map<Key, Index>, target: Index, add: Index) {
    Lists(items, files) && target == Union(files) + add
  }

  lemma AllDeleted(files: map<Key, Index>, key: Key, target: Index, items: seq<Key>)
    requires Lists(items, files) && key !in items
    ensures Written(files, key, target, items) == AddedAlone(files, key, target)
  {}

  /** What holds between the write and the end: if c was alone, it had listed
      all `files`, and the store holds those of them that are not deleted yet
      and the new file. */
  ghost predicate HasWritten(
      store: SharedStore, h: History, before: nat, files: map<Key, Index>, c: ClientId, items: seq<Key>, key: Key,
      target: Index, add: Index, gone: seq<Key>)
    reads store
  {
    && store.Valid() && Since(h, before, store.history, store.left, c)
    && Union(files) <= Union(store.files)
    && (Alone(store.history, |h.acts|, c) ==>
          Merges(items, files, target, add) && store.files == Written(files, key, target, gone))
  }

  lemma WrittenOn(
      store: SharedStore, h: History, before: nat, files: map<Key, Index>, c: ClientId, was: History, had: nat,
      saw: map<Key, Index>, items: seq<Key>, key: Key, target: Index, add: Index, gone: seq<Key>, k: Key,
      deleted: bool)
    requires Since(h, before, was, had, c) && |was.trace| > 0 && Now(was).files == saw && Union(files) <= Union(saw)
    requires Alone(was, |h.acts|, c) ==> Merges(items, files, target, add) && saw == Written(files, key, target, gone)
    requires c in Now(was).clients && Now(was).clients[c].phase.Deleting?
    requires var p := Now(was).clients[c].phase; p.done < |p.items| && p.items[p.done] == k
    requires store.Valid() && Since(was, had, store.history, store.left, c) && Union(saw) <= Union(store.files)
    requires OneOp(was, store.history, Delete(c, deleted))
    ensures HasWritten(store, h, before, files, c, items, key, target, add, gone + [k])
  {
    SinceBoth(h, before, was, had, store.history, store.left, c);
    if Alone(store.history, |h.acts|, c) {
      AloneThenOp(store.sha, h, was, store.history, Delete(c, deleted));
      assert (set l | l in gone + [k]) == (set l | l in gone) + {k};
    }
  }

  lemma WroteOn(
      store: SharedStore, h: History, before: nat, files: map<Key, Index>, c: ClientId, was: History, had: nat,
      saw: map<Key, Index>, items: seq<Key>, key: Key, target: Index, add: Index)
    requires Since(h, before, was, had, c) && |was.trace| > 0 && Now(was).files == saw && Union(files) <= Union(saw)
    requires Alone(was, |h.acts|, c) ==> Merges(items, files, target, add) && saw == files
    requires c in Now(was).clients && Now(was).clients[c].phase.Writing?
    requires Now(was).clients[c].phase.target == target
    requires store.Valid() && Since(was, had, store.history, store.left, c) && Union(saw) <= Union(store.files)
    requires OneOp(was, store.history, Write(c)) && key == store.sha(target)
    ensures HasWritten(store, h, before, files, c, items, key, target, add, [])
  {
    SinceBoth(h, before, was, had, store.history, store.left, c);
    if Alone(store.history, |h.acts|, c) {
      AloneThenOp(store.sha, h, was, store.history, Write(c));
    }
  }

  method DeleteNext(
      store: SharedStore, ghost c: ClientId, ghost x: Client, n: nat, ghost items: seq<Key>,
      ghost contents: seq<Index>, ghost target: Index, ghost key: Key, item: Key, ghost h: History,
      ghost before: nat, ghost files: map<Key, Index>)
    requires store.At(c, x.(phase := Deleting(items, contents, target, n))) && n < |items| && item == items[n]
    requires HasWritten(store, h, before, files, c, items, key, target, x.job.Blocks(), items[..n])
    modifies store
    ensures store.At(c, x.(phase := Deleting(items, contents, target, n + 1))) && store.ops == old(store.ops) + 1
    ensures HasWritten(store, h, before, files, c, items, key, target, x.job.Blocks(), items[..n + 1])
  {
    ghost var was, had, saw := store.history, store.left, store.files;
    var deleted := store.DeleteFile(c, x.(phase := Deleting(items, contents, target, n)), item);
    WrittenOn(store, h, before, files, c, was, had, saw, items, key, target, x.job.Blocks(), items[..n], item, deleted);
    assert items[..n + 1] == items[..n] + [item];
  }

  /** Delete the merged files one by one; deletes that fail are ignored. */
  method DeleteMerged(
      store: SharedStore, ghost c: ClientId, ghost x: Client, items: seq<Key>, ghost contents: seq<Index>,
      ghost target: Index, ghost key: Key, ghost h: History, ghost before: nat, ghost files: map<Key, Index>)
    requires store.At(c, x.(phase := Deleting(items, contents, target, 0)))
    requires HasWritten(store, h, before, files, c, items, key, target, x.job.Blocks(), [])
    modifies store
    ensures store.At(c, x.(phase := Deleting(items, contents, target, |items|))) && store.ops >= old(store.ops)
    ensures HasWritten(store, h, before, files, c, items, key, target, x.job.Blocks(), items)
  {
    assert items[..0] == [];
    for n := 0 to |items|
      invariant store.At(c, x.(phase := Deleting(items, contents, target, n))) && store.ops >= old(store.ops)
      invariant HasWritten(store, h, before, files, c, items, key, target, x.job.Blocks(), items[..n])
    {
      DeleteNext(store, c, x, n, items, contents, target, key, items[n], h, before, files);
    }
    assert items[..|items|] == items;
  }

  /** Look for the target and write it. */
  method WriteTarget(
      store: SharedStore, ghost c: ClientId, ghost x: Client, ghost items: seq<Key>, ghost contents: seq<Index>,
      key: Key, target: Index, ghost p: nat, ghost h: History, ghost before: nat, ghost files: map<Key, Index>)
    returns (err: bool, ok: bool)
    requires store.At(c, x.(phase := Probing(items, contents, target))) && x.job.Add?
    requires key == store.sha(target) && key !in items
    requires Continues(store, h, before, files, c)
    requires ReadSince(store.history, p, items, contents, c) && |h.acts| <= p
    requires Alone(store.history, |h.acts|, c) ==> Merges(items, files, target, x.job.Blocks())
    modifies store
    ensures store.Valid() && Since(h, before, store.history, store.left, c) && Union(files) <= Union(store.files)
    ensures err ==> !ok && store.At(c, AfterError(x)) && !Alone(store.history, |h.acts|, c)
    ensures store.ops >= old(store.ops)
    ensures err ==> store.JustFailed(old(store.ops))
    ensures !err && !ok ==> store.At(c, x.(phase := Listing)) && Disturbed(store.history, p, c)
    ensures !err && !ok ==> !Alone(store.history, |h.acts|, c)
    ensures ok ==>
              && store.At(c, x.(phase := Deleting(items, contents, target, 0)))
              && HasWritten(store, h, before, files, c, items, key, target, x.job.Blocks(), [])
  {
    ghost var was, had, saw := store.history, store.left, store.files;
    var present;
    err, present := store.Exists(c, x.(phase := Probing(items, contents, target)), key);
    if err {
      ContinuesOn(store, h, before, files, c, was, had, saw, Fail(c));
      return true, false;
    }
    ContinuesOn(store, h, before, files, c, was, had, saw, Probe(c));
    ReadOn(was, store.history, p, items, contents, Probe(c));
    if present {
      AppearedByOthers(store.sha, store.history, p, key, c);
      return false, false;
    }
    was, had, saw := store.history, store.left, store.files;
    err := store.WriteFile(c, x.(phase := Writing(items, contents, target)), key, target);
    if err {
      ContinuesOn(store, h, before, files, c, was, had, saw, Fail(c));
      return true, false;
    }
    WroteOn(store, h, before, files, c, was, had, saw, items, key, target, x.job.Blocks());
    return false, true;
  }

  /** A step that no other client can come before, as it touches no blob. */
  ghost method LocalStep(
      store: SharedStore, c: ClientId, a: Action, h: History, before: nat)
    requires store.Valid() && c in store.Model().clients && Enabled(store.Model(), a) && a.c == c
    requires a.Merge? || a.Finish?
    requires Since(h, before, store.history, store.left, c)
    modifies store`history
    ensures store.Valid() && store.Model() == Apply(store.sha, old(store.Model()), a)
    ensures Since(h, before, store.history, store.left, c)
    ensures OneOp(old(store.history), store.history, a)
    ensures Alone(store.history, |h.acts|, c) ==> Alone(old(store.history), |h.acts|, c)
    ensures old(store.Model()).acked <= store.Model().acked
  {
    ghost var was := store.history;
    assert GoesOn(was, was);
    store.Step(a, was, store.left);
    SinceBoth(h, before, was, store.left, store.history, store.left, c);
    if Alone(store.history, |h.acts|, c) {
      AloneThenOp(store.sha, h, was, store.history, a);
    }
  }

  lemma ListedAll(
      store: SharedStore, h: History, p: nat, files: map<Key, Index>, items: seq<Key>, contents: seq<Index>,
      c: ClientId)
    requires store.Valid() && |h.acts| <= p && ReadSince(store.history, p, items, contents, c)
    requires |contents| == |items| && Alone(store.history, |h.acts|, c) ==> store.files == files
    ensures |contents| == |items| && Alone(store.history, |h.acts|, c) ==>
              Lists(items, files) && MergeAll(contents) == Union(files)
  {
    if |contents| == |items| && Alone(store.history, |h.acts|, c) {
      LookingChangesNothing(store.sha, store.history, |h.acts|, p, |store.history.acts|, c);
      ReadEverything(items, contents, store.history.trace[p].files);
    }
  }

  /** Compare the merged index's name with those listed. */
  method MergeAndCompare(
      store: SharedStore, ghost c: ClientId, ghost x: Client, items: seq<Key>, ghost contents: seq<Index>,
      key: Key, ghost target: Index, ghost p: nat, ghost h: History, ghost before: nat,
      ghost files: map<Key, Index>)
    returns (there: bool)
    requires store.At(c, x.(phase := Reading(items, contents))) && |contents| == |items|
    requires x.job.Add? && target == MergeAll(contents) + x.job.blocks && key == store.sha(target)
    requires Continues(store, h, before, files, c)
    requires ReadSince(store.history, p, items, contents, c) && |h.acts| <= p
    modifies store`history
    ensures there <==> key in items
    ensures Continues(store, h, before, files, c)
    ensures Alone(store.history, |h.acts|, c) ==> Merges(items, files, target, x.job.Blocks())
    ensures there ==> store.At(c, x.(phase := Returned(target))) && x.job.blocks <= store.Model().acked
    ensures !there ==>
              && store.At(c, x.(phase := Probing(items, contents, target)))
              && ReadSince(store.history, p, items, contents, c)
  {
    ghost var was := store.history;
    LocalStep(store, c, Merge(c), h, before);
    ReadOn(was, store.history, p, items, contents, Merge(c));
    ListedAll(store, h, p, files, items, contents, c);
    there := Contains(items, key);
  }

  method Contains(items: seq<Key>, key: Key) returns (found: bool)
    ensures found <==> key in items
  {
    for n := 0 to |items|
      invariant key !in items[..n]
    {
      if items[n] == key {
        return true;
      }
      assert items[..n + 1] == items[..n] + [items[n]];
    }
    assert items[..|items|] == items;
    return false;
  }

  /** Write the merged index under its own name and delete what it merged,
      unless the very same index is already there. It does not succeed only
      because of an error, or because another client has changed the files
      since the listing at moment p. A client that was alone leaves exactly one
      file, or the files as they were. */
  method TryWriteRemoteStoreIndex(
      store: SharedStore, ghost c: ClientId, ghost x: Client, items: seq<Key>, ghost contents: seq<Index>,
      target: Index, ghost p: nat, ghost h: History, ghost before: nat, ghost files: map<Key, Index>)
    returns (err: bool, ok: bool)
    requires store.At(c, x.(phase := Reading(items, contents))) && |contents| == |items|
    requires x.job.Add? && target == MergeAll(contents) + x.job.blocks
    requires Continues(store, h, before, files, c)
    requires ReadSince(store.history, p, items, contents, c) && |h.acts| <= p
    modifies store
    ensures store.Valid() && Since(h, before, store.history, store.left, c) && Union(files) <= Union(store.files)
    ensures err ==> !ok && store.At(c, AfterError(x))
    ensures store.ops >= old(store.ops)
    ensures err ==> store.JustFailed(old(store.ops))
    ensures !err && !ok ==> store.At(c, x.(phase := Listing)) && Disturbed(store.history, p, c)
    ensures ok ==> store.At(c, x.(phase := Returned(target))) && x.job.blocks <= store.Model().acked
    ensures Alone(store.history, |h.acts|, c) ==>
              && ok && target == Union(files) + x.job.blocks
              && store.files == AddedAlone(files, store.sha(target), target)
  {
    var key := store.sha(target);
    var there := MergeAndCompare(store, c, x, items, contents, key, target, p, h, before, files);
    if there {
      return false, true;
    }
    err, ok := WriteTarget(store, c, x, items, contents, key, target, p, h, before, files);
    if ok {
      DeleteMerged(store, c, x, items, contents, target, key, h, before, files);
      LocalStep(store, c, Finish(c), h, before);
      if Alone(store.history, |h.acts|, c) {
        AllDeleted(files, key, target, items);
      }
    }
  }

  /** One attempt to add blocks to the remote index. It fails only with an
      operation that failed, or because another client changed the files during
      this very call: left alone it succeeds at once. On success, whatever the
      others did meanwhile, the blocks are in the live index files, and the
      index returned is bounded by the store before and after. */
  method TryAddRemoteStoreIndex(store: SharedStore, ghost c: ClientId, ghost x: Client, add: Index)
    returns (err: bool, ok: bool, index: Index)
    requires store.At(c, x) && x.phase.Listing? && x.job == Add(add)
    modifies store
    ensures store.Valid() && Since(old(store.history), old(store.left), store.history, store.left, c)
    ensures Union(old(store.files)) <= Union(store.files) && store.ops >= old(store.ops)
    ensures err ==> !ok && store.At(c, AfterError(x))
    ensures err ==> store.JustFailed(old(store.ops))
    ensures !err && !ok ==> store.At(c, x) && Disturbed(store.history, |old(store.history).acts|, c)
    ensures ok ==>
              && store.At(c, x.(phase := Returned(index)))
              && add <= store.Model().acked <= Union(store.files)
              && Union(old(store.files)) + add <= index <= Union(store.files)
    ensures Alone(store.history, |old(store.history).acts|, c) ==>
              && ok && index == Union(old(store.files)) + add
              && store.files == AddedAlone(old(store.files), store.sha(index), index)
  {
    ghost var h, before, files := store.history, store.left, store.files;
    assert GoesOn(h, h);
    var storeIndex, items;
    ghost var contents, p, listed;
    err, storeIndex, items, contents, p, listed := ReadStoreIndexWithItems(store, c, x, h, before, files);
    if err || storeIndex.None? {
      return err, false, {};
    }
    index := storeIndex.value + add;
    err, ok := TryWriteRemoteStoreIndex(store, c, x, items, contents, index, p, h, before, files);
    if ok {
      ReturnedBounds(store, c, x, index);
    }
  }

  lemma ReturnedBounds(store: SharedStore, c: ClientId, x: Client, index: Index)
    requires store.At(c, x.(phase := Returned(index)))
    ensures index <= Union(store.files) && store.Model().acked <= Union(store.files)
  {
    assert ClientInv(store.sha, store.Model(), store.Model().clients[c]);
  }

  lemma NotAloneLater(h: History, later: History, from: nat, c: ClientId)
    requires GoesOn(h, later) && from <= |h.acts| && !Alone(h, from, c)
    ensures !Alone(later, from, c)
  {
    var k :| from <= k < |h.acts|
             && !(h.acts[k].c == c && !h.acts[k].Fail? && (h.acts[k].Delete? ==> h.acts[k].deleted));
    assert later.acts[..|h.acts|][k] == later.acts[k];
  }

  /** The operations counted by fs failed, one after the other. */
  ghost predicate Failures(store: SharedStore, from: nat, fs: seq<nat>)
    reads store
  {
    && (forall i :: 0 <= i < |fs| ==> from <= fs[i] < store.ops && store.faults(fs[i]))
    && (forall i, k :: 0 <= i < k < |fs| ==> fs[i] < fs[k])
  }

  /** Between two attempts of a client that began with history `start`, `files`
      and operation `from`; before the first one nothing has happened. */
  ghost predicate Trying(
      store: SharedStore, c: ClientId, x: Client, start: History, files: map<Key, Index>, from: nat,
      failures: seq<nat>, first: bool)
    reads store
  {
    && store.At(c, x.(errors := |failures|)) && Union(files) <= Union(store.files)
    && from <= store.ops && Failures(store, from, failures) && |start.acts| <= |store.history.acts|
    && (if first then store.files == files && store.history == start
        else !Alone(store.history, |start.acts|, c))
  }

  /** One attempt, with the operation that failed, if one did. */
  method Attempt(
      store: SharedStore, ghost c: ClientId, ghost x: Client, add: Index, ghost start: History,
      ghost files: map<Key, Index>, ghost from: nat, ghost failures: seq<nat>, ghost first: bool)
    returns (err: bool, ok: bool, index: Index, ghost more: seq<nat>)
    requires Trying(store, c, x, start, files, from, failures, first) && |failures| < 3
    requires x.job == Add(add) && x.phase.Listing?
    modifies store
    ensures store.Valid() && Union(files) <= Union(store.files) && from <= store.ops
    ensures more == (if err then failures + [store.ops - 1] else failures) && Failures(store, from, more)
    ensures !ok && |more| < 3 ==> Trying(store, c, x, start, files, from, more, false)
    ensures !ok && |more| == 3 ==> store.At(c, x.(phase := Failed, errors := 3))
    ensures !ok ==> !Alone(store.history, |start.acts|, c)
    ensures !ok ==> store.left + 3 - |more| < old(store.left) + 3 - |failures|
    ensures ok ==>
              && !err && store.At(c, x.(phase := Returned(index), errors := |failures|))
              && Union(files) + add <= index <= Union(store.files)
    ensures ok && Alone(store.history, |start.acts|, c) ==>
              index == Union(files) + add && store.files == AddedAlone(files, store.sha(index), index)
  {
    ghost var was := store.history;
    err, ok, index := TryAddRemoteStoreIndex(store, c, x.(errors := |failures|), add);
    more := failures;
    if err {
      more := failures + [store.ops - 1];
    }
    if !first {
      NotAloneLater(was, store.history, |start.acts|, c);
    }
  }

  /** The retry loop: it gives up only at the third failed operation, and it ends
      if the other clients change the files only so many times. A client that
      is left alone succeeds at the first attempt. */
  method AddToRemoteStoreIndex(store: SharedStore, ghost c: ClientId, ghost x: Client, add: Index)
    returns (done: bool, index: Index, ghost failures: seq<nat>)
    requires store.At(c, x) && x.phase.Listing? && x.job == Add(add) && x.errors == 0
    modifies store
    ensures store.Valid() && Union(old(store.files)) <= Union(store.files)
    ensures Failures(store, old(store.ops), failures) && (done <==> |failures| < 3)
    ensures !done ==> store.At(c, x.(phase := Failed, errors := 3))
    ensures done ==>
              && store.At(c, x.(phase := Returned(index), errors := |failures|))
              && Union(old(store.files)) + add <= index <= Union(store.files)
    ensures Alone(store.history, |old(store.history).acts|, c) ==>
              && done && index == Union(old(store.files)) + add
              && store.files == AddedAlone(old(store.files), store.sha(index), index)
  {
    failures := [];
    var errorRetries := 0;
    ghost var first := true;
    while true
      invariant errorRetries == |failures| < 3
      invariant Trying(store, c, x, old(store.history), old(store.files), old(store.ops), failures, first)
      decreases store.left + 3 - errorRetries
    {
      var err;
      err, done, index, failures :=
        Attempt(store, c, x, add, old(store.history), old(store.files), old(store.ops), failures, first);
      if done {
        return;
      }
      first := false;
      if err {
        errorRetries := errorRetries + 1;
        if errorRetries == 3 {
          return;
        }
      }
    }
  }
}
