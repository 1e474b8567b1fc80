/** Index synchronisation over a blob store without write conditions.

    Every client of the store runs the same code: list the index files, read
    and merge them one by one, write `store_<sha>.lsi` and delete the merged
    files one by one. Steps of different clients interleave freely; each blob
    store operation is one atomic step. */
module LockFreeIndex {
  import opened StoreIndexes

  type Key = nat
  type ClientId = nat

  /** The name of the file that holds an index: a digest of its contents. */
  type Naming = Index -> Key

  /** The digest separates block sets (and, being a function of the set, gives
      all serialisations of one set the same name). */
  ghost predicate Injective(sha: Naming) {
    forall a: Index, b: Index :: sha(a) == sha(b) ==> a == b
  }

  datatype Job = Add(blocks: Index) | ReadOnly {
    function Blocks(): Index {
      if Add? then blocks else {}
    }
  }

  /** Where a client is between two blob store operations. `items` are the
      listed file names, `contents` what has been read of them so far and
      `target` the merged index to write. */
  datatype Phase =
    | Listing
    | Reading(items: seq<Key>, contents: seq<Index>)
    | Probing(items: seq<Key>, contents: seq<Index>, target: Index)
    | Writing(items: seq<Key>, contents: seq<Index>, target: Index)
    | Deleting(items: seq<Key>, contents: seq<Index>, target: Index, done: nat)
    | Returned(index: Index)
    | Failed

  datatype Client = Client(job: Job, phase: Phase, errors: nat)

  /** `files` is the store. `published` and `acked` record history: what the
      store held at first plus every block set written, and every block set
      whose add was reported as successful. */
  datatype State = State(
    files: map<Key, Index>,
    clients: map<ClientId, Client>,
    published: Index,
    acked: Index)

  datatype Action =
    | Start(c: ClientId, job: Job)
    | List(c: ClientId, items: seq<Key>)
    | Read(c: ClientId)
    | Merge(c: ClientId)
    | Probe(c: ClientId)
    | Write(c: ClientId)
    | Delete(c: ClientId, deleted: bool)
    | Finish(c: ClientId)
    | Fail(c: ClientId)

  function Union(files: map<Key, Index>): Index {
    set k, h | k in files && h in files[k] :: h
  }

  ghost predicate Lists(items: seq<Key>, files: map<Key, Index>) {
    && (forall k :: k in items <==> k in files)
    && (forall i, j :: 0 <= i < j < |items| ==> items[i] != items[j])
  }

  ghost predicate Enabled(s: State, a: Action) {
    if a.Start? then
      a.c in s.clients ==> s.clients[a.c].phase.Returned? || s.clients[a.c].phase.Failed?
    else
      && a.c in s.clients
      && var p := s.clients[a.c].phase;
         match a
         case List(_, items) => p.Listing? && Lists(items, s.files)
         case Read(_) => p.Reading? && |p.contents| < |p.items|
         case Merge(_) => p.Reading? && |p.contents| == |p.items|
         case Probe(_) => p.Probing?
         case Write(_) => p.Writing?
         case Delete(_, _) => p.Deleting? && p.done < |p.items|
         case Finish(_) => p.Deleting? && p.done == |p.items|
         case Fail(_) => p.Listing? || p.Reading? || p.Probing? || p.Writing?
  }

  function Move(s: State, c: ClientId, phase: Phase): State
    requires c in s.clients
  {
    s.(clients := s.clients[c := s.clients[c].(phase := phase)])
  }

  /** A read-only client merges what it read; an adder merges its own blocks
      in and reports success at once when that is the very index it listed. */
  function Merged(sha: Naming, s: State, c: ClientId): State
    requires c in s.clients && s.clients[c].phase.Reading?
  {
    var Client(job, phase, _) := s.clients[c];
    var target := MergeAll(phase.contents) + job.Blocks();
    if job.ReadOnly? then
      Move(s, c, Returned(target))
    else if sha(target) in phase.items then
      Move(s, c, Returned(target)).(acked := s.acked + job.blocks)
    else
      Move(s, c, Probing(phase.items, phase.contents, target))
  }

  /** An error ends a read; an adder retries and gives up at the third one. */
  function Errored(s: State, c: ClientId): State
    requires c in s.clients
  {
    var Client(job, _, errors) := s.clients[c];
    var phase := if job.ReadOnly? || errors + 1 == 3 then Failed else Listing;
    s.(clients := s.clients[c := Client(job, phase, errors + 1)])
  }

  ghost function Apply(sha: Naming, s: State, a: Action): State
    requires Enabled(s, a)
  {
    if a.Start? then
      s.(clients := s.clients[a.c := Client(a.job, Listing, 0)])
    else
      var Client(job, p, _) := s.clients[a.c];
      match a
      case List(c, items) => Move(s, c, Reading(items, []))
      case Read(c) =>
        var key := p.items[|p.contents|];
        if key in s.files then Move(s, c, Reading(p.items, p.contents + [s.files[key]]))
        else Move(s, c, Listing)
      case Merge(c) => Merged(sha, s, c)
      case Probe(c) =>
        if sha(p.target) in s.files then Move(s, c, Listing)
        else Move(s, c, Writing(p.items, p.contents, p.target))
      case Write(c) =>
        Move(s, c, Deleting(p.items, p.contents, p.target, 0))
          .(files := s.files[sha(p.target) := p.target], published := s.published + job.Blocks())
      case Delete(c, deleted) =>
        Move(s, c, p.(done := p.done + 1))
          .(files := if deleted then s.files - {p.items[p.done]} else s.files)
      case Finish(c) => Move(s, c, Returned(p.target)).(acked := s.acked + job.Blocks())
      case Fail(c) => Errored(s, c)
  }

  // ---------------------------------------------------------------- invariant

  ghost predicate Covered(files: map<Key, Index>, target: Index) {
    exists k :: k in files && target <= files[k]
  }

  /** What a client holds about the files it has read: the names match the
      contents, and nothing it read has left the store. */
  ghost predicate Seen(sha: Naming, s: State, items: seq<Key>, contents: seq<Index>) {
    && |contents| <= |items|
    && (forall i :: 0 <= i < |contents| ==> items[i] == sha(contents[i]))
    && MergeAll(contents) <= Union(s.files)
  }

  /** Every file an adder is going to delete lists strictly less than the file
      that it writes. */
  ghost predicate Supersedes(contents: seq<Index>, target: Index) {
    forall i :: 0 <= i < |contents| ==> contents[i] < target
  }

  ghost predicate ClientInv(sha: Naming, s: State, client: Client) {
    match client.phase
    case Listing => true
    case Failed => true
    case Reading(items, contents) => Seen(sha, s, items, contents)
    case Returned(index) => index <= Union(s.files)
    case Probing(items, contents, target) => Ready(sha, s, client.job, items, contents, target)
    case Writing(items, contents, target) => Ready(sha, s, client.job, items, contents, target)
    case Deleting(items, contents, target, done) =>
      && Ready(sha, s, client.job, items, contents, target)
      && done <= |items|
      && Covered(s.files, target)
  }

  ghost predicate Ready(sha: Naming, s: State, job: Job, items: seq<Key>, contents: seq<Index>, target: Index) {
    && job.Add?
    && |contents| == |items|
    && Seen(sha, s, items, contents)
    && target == MergeAll(contents) + job.blocks
    && Supersedes(contents, target)
  }

  ghost predicate Named(sha: Naming, files: map<Key, Index>) {
    forall k :: k in files ==> k == sha(files[k])
  }

  ghost predicate Inv(sha: Naming, s: State) {
    && Named(sha, s.files)
    && Union(s.files) == s.published
    && s.acked <= s.published
    && (forall c :: c in s.clients ==> ClientInv(sha, s, s.clients[c]))
  }

  ghost predicate Initial(sha: Naming, s: State) {
    && Named(sha, s.files)
    && s.clients == map[]
    && s.published == Union(s.files)
    && s.acked == {}
  }

  // ------------------------------------------------- one step keeps it

  /** Growing the set of live blocks keeps what another client knows. */
  lemma OthersKeep(sha: Naming, s: State, t: State, client: Client)
    requires ClientInv(sha, s, client)
    requires Union(s.files) <= Union(t.files)
    requires client.phase.Deleting? ==> Covered(t.files, client.phase.target)
    ensures ClientInv(sha, t, client)
  {
  }

  lemma WriteGrows(sha: Naming, files: map<Key, Index>, target: Index)
    requires Injective(sha) && Named(sha, files)
    ensures Named(sha, files[sha(target) := target])
    ensures Union(files[sha(target) := target]) == Union(files) + target
    ensures forall w :: Covered(files, w) ==> Covered(files[sha(target) := target], w)
    ensures Covered(files[sha(target) := target], target)
  {
    var grown := files[sha(target) := target];
    forall h | h in Union(files) + target
      ensures h in Union(grown)
    {
      if h in target {
        assert grown[sha(target)] == target;
      } else {
        var k :| k in files && h in files[k];
        assert grown[k] == files[k];
      }
    }
    forall w | Covered(files, w)
      ensures Covered(grown, w)
    {
      var k :| k in files && w <= files[k];
      assert w <= grown[k];
    }
    assert target <= grown[sha(target)];
  }

  /** Deleting a file that lists strictly less than a covered index removes no
      block from the store and uncovers nothing. */
  lemma DeleteIsSafe(files: map<Key, Index>, key: Key, target: Index)
    requires key in files ==> files[key] < target
    requires Covered(files, target)
    ensures Union(files - {key}) == Union(files)
    ensures forall w :: Covered(files, w) ==> Covered(files - {key}, w)
  {
    var rest := files - {key};
    var g :| g in files && target <= files[g];
    assert g in rest;
    forall h | h in Union(files)
      ensures h in Union(rest)
    {
      var k :| k in files && h in files[k];
      assert h in rest[if k == key then g else k];
    }
    forall w | Covered(files, w)
      ensures Covered(rest, w)
    {
      var k :| k in files && w <= files[k];
      assert w <= rest[if k == key then g else k];
    }
  }

  /** After a step of client c that shrinks nothing, it is enough to look at c. */
  lemma StepKeeps(sha: Naming, s: State, t: State, c: ClientId)
    requires Inv(sha, s)
    requires Named(sha, t.files) && Union(t.files) == t.published && t.acked <= t.published
    requires s.clients.Keys <= t.clients.Keys <= s.clients.Keys + {c}
    requires forall o :: o in s.clients && o != c ==> t.clients[o] == s.clients[o]
    requires c in t.clients && ClientInv(sha, t, t.clients[c])
    requires Union(s.files) <= Union(t.files)
    requires forall w :: Covered(s.files, w) ==> Covered(t.files, w)
    ensures Inv(sha, t)
  {
    forall o | o in t.clients && o != c
      ensures ClientInv(sha, t, t.clients[o])
    {
      OthersKeep(sha, s, t, s.clients[o]);
    }
  }

  lemma ReadKeeps(sha: Naming, s: State, c: ClientId)
    requires Inv(sha, s) && Enabled(s, Read(c))
    ensures Inv(sha, Apply(sha, s, Read(c)))
  {
    var t := Apply(sha, s, Read(c));
    var p := s.clients[c].phase;
    var key := p.items[|p.contents|];
    if key in s.files {
      MergeAllSnoc(p.contents, s.files[key]);
      assert s.files[key] <= Union(s.files);
      assert Seen(sha, t, p.items, p.contents + [s.files[key]]);
    }
    StepKeeps(sha, s, t, c);
  }

  lemma MergeKeeps(sha: Naming, s: State, c: ClientId)
    requires Injective(sha) && Inv(sha, s) && Enabled(s, Merge(c))
    ensures Inv(sha, Apply(sha, s, Merge(c)))
  {
    var t := Apply(sha, s, Merge(c));
    var Client(job, p, _) := s.clients[c];
    var target := MergeAll(p.contents) + job.Blocks();
    assert forall i :: 0 <= i < |p.contents| ==> p.contents[i] <= MergeAll(p.contents);
    if job.Add? && sha(target) in p.items {
      var i :| 0 <= i < |p.items| && p.items[i] == sha(target);
      assert p.contents[i] == target;
      assert target <= Union(s.files);
    } else if job.Add? {
      forall i | 0 <= i < |p.contents|
        ensures p.contents[i] < target
      {
        assert p.items[i] in p.items;
        assert p.contents[i] != target;
      }
      assert Ready(sha, t, job, p.items, p.contents, target);
    }
    StepKeeps(sha, s, t, c);
  }

  /** An adder reports success without writing exactly if its merged index is
      one of those that it has read; if it goes on to write, every file that it
      will delete lists strictly less than the file that it writes. */
  lemma EarlyReturnExactly(sha: Naming, s: State, c: ClientId)
    requires Injective(sha) && Inv(sha, s) && Enabled(s, Merge(c)) && s.clients[c].job.Add?
    ensures var contents := s.clients[c].phase.contents;
            var target := MergeAll(contents) + s.clients[c].job.blocks;
            var after := Apply(sha, s, Merge(c)).clients[c].phase;
            && (after == Returned(target) <==> target in contents)
            && (target !in contents ==>
                  after == Probing(s.clients[c].phase.items, contents, target) && Supersedes(contents, target))
  {
    var Client(job, p, _) := s.clients[c];
    var target := MergeAll(p.contents) + job.blocks;
    assert Seen(sha, s, p.items, p.contents);
    if sha(target) in p.items {
      var i :| 0 <= i < |p.items| && p.items[i] == sha(target);
      assert sha(p.contents[i]) == sha(target);
    }
    if target in p.contents {
      var i :| 0 <= i < |p.contents| && p.contents[i] == target;
      assert p.items[i] == sha(target);
    } else {
      forall i | 0 <= i < |p.contents|
        ensures p.contents[i] < target
      {
        assert p.contents[i] in p.contents;
        MergeAllContains(p.contents, i);
        assert p.contents[i] <= target && p.contents[i] != target;
      }
    }
  }

  lemma WriteKeeps(sha: Naming, s: State, c: ClientId)
    requires Injective(sha) && Inv(sha, s) && Enabled(s, Write(c))
    ensures Inv(sha, Apply(sha, s, Write(c)))
  {
    var t := Apply(sha, s, Write(c));
    var Client(job, p, _) := s.clients[c];
    WriteGrows(sha, s.files, p.target);
    assert Ready(sha, s, job, p.items, p.contents, p.target);
    assert Union(t.files) == Union(s.files) + job.blocks;
    assert Ready(sha, t, job, p.items, p.contents, p.target);
    StepKeeps(sha, s, t, c);
  }

  lemma DeleteKeeps(sha: Naming, s: State, c: ClientId, deleted: bool)
    requires Injective(sha) && Inv(sha, s) && Enabled(s, Delete(c, deleted))
    ensures Inv(sha, Apply(sha, s, Delete(c, deleted)))
    ensures Union(Apply(sha, s, Delete(c, deleted)).files) == Union(s.files)
  {
    var t := Apply(sha, s, Delete(c, deleted));
    var Client(job, p, _) := s.clients[c];
    var key := p.items[p.done];
    assert Ready(sha, s, job, p.items, p.contents, p.target);
    assert key == sha(p.contents[p.done]);
    DeleteIsSafe(s.files, key, p.target);
    assert Ready(sha, t, job, p.items, p.contents, p.target);
    StepKeeps(sha, s, t, c);
  }

  lemma FinishKeeps(sha: Naming, s: State, c: ClientId)
    requires Inv(sha, s) && Enabled(s, Finish(c))
    ensures Inv(sha, Apply(sha, s, Finish(c)))
  {
    var t := Apply(sha, s, Finish(c));
    var p := s.clients[c].phase;
    var k :| k in s.files && p.target <= s.files[k];
    assert s.files[k] <= Union(s.files);
    StepKeeps(sha, s, t, c);
  }

  /** Every step of every client keeps the invariant. */
  lemma StepKeepsInv(sha: Naming, s: State, a: Action)
    requires Injective(sha) && Inv(sha, s) && Enabled(s, a)
    ensures Inv(sha, Apply(sha, s, a))
  {
    var t := Apply(sha, s, a);
    match a {
      case Read(c) => ReadKeeps(sha, s, c);
      case Merge(c) => MergeKeeps(sha, s, c);
      case Write(c) => WriteKeeps(sha, s, c);
      case Delete(c, deleted) => DeleteKeeps(sha, s, c, deleted);
      case Finish(c) => FinishKeeps(sha, s, c);
      case List(c, items) =>
        assert MergeAll([]) == {};
        StepKeeps(sha, s, t, c);
      case Probe(c) => StepKeeps(sha, s, t, c);
      case Start(c, _) => StepKeeps(sha, s, t, c);
      case Fail(c) => StepKeeps(sha, s, t, c);
    }
  }

  // ------------------------------------------------------------- whole runs

  /** tr[i] is the state before step acts[i]: one interleaving of all clients. */
  ghost predicate Steps(sha: Naming, tr: seq<State>, acts: seq<Action>) {
    && |tr| == |acts| + 1
    && (forall i :: 0 <= i < |acts| ==> Enabled(tr[i], acts[i]) && tr[i + 1] == Apply(sha, tr[i], acts[i]))
  }

  ghost predicate Run(sha: Naming, tr: seq<State>, acts: seq<Action>) {
    Steps(sha, tr, acts) && Initial(sha, tr[0])
  }

  lemma {:induction false} RunKeepsInv(sha: Naming, tr: seq<State>, acts: seq<Action>, n: nat)
    requires Injective(sha) && Run(sha, tr, acts) && n < |tr|
    ensures Inv(sha, tr[n])
  {
    if n > 0 {
      RunKeepsInv(sha, tr, acts, n - 1);
      StepKeepsInv(sha, tr[n - 1], acts[n - 1]);
    }
  }

  /** The blocks an action publishes: those of the adder whose file it writes. */
  function WrittenBy(s: State, a: Action): Index {
    if a.Write? && a.c in s.clients then s.clients[a.c].job.Blocks() else {}
  }

  /** The blocks of all adds whose index file was written in steps i..j. */
  function WrittenBetween(tr: seq<State>, acts: seq<Action>, i: nat, j: nat): Index
    requires i <= j <= |acts| < |tr|
  {
    set k, h | i <= k < j && h in WrittenBy(tr[k], acts[k]) :: h
  }

  lemma WrittenNext(tr: seq<State>, acts: seq<Action>, i: nat, j: nat)
    requires i < j <= |acts| < |tr|
    ensures WrittenBetween(tr, acts, i, j) == WrittenBetween(tr, acts, i, j - 1) + WrittenBy(tr[j - 1], acts[j - 1])
  {}

  lemma StepPublishes(sha: Naming, s: State, a: Action)
    requires Injective(sha) && Inv(sha, s) && Enabled(s, a)
    ensures Union(Apply(sha, s, a).files) == Union(s.files) + WrittenBy(s, a)
    ensures s.acked <= Apply(sha, s, a).acked
  {
    StepKeepsInv(sha, s, a);
  }

  /** Although every adder deletes the files that it merged, no interleaving
      ever loses a block: at every moment the live files together list what
      was there at first plus exactly the blocks of the adds written so far. */
  lemma {:induction false} NoBlockIsEverLost(sha: Naming, tr: seq<State>, acts: seq<Action>, i: nat, j: nat)
    requires Injective(sha) && Run(sha, tr, acts) && i <= j < |tr|
    ensures Union(tr[i].files) <= Union(tr[j].files)
    ensures Union(tr[j].files) == Union(tr[i].files) + WrittenBetween(tr, acts, i, j)
    ensures tr[i].acked <= tr[j].acked <= Union(tr[j].files)
  {
    RunKeepsInv(sha, tr, acts, j);
    if i < j {
      NoBlockIsEverLost(sha, tr, acts, i, j - 1);
      RunKeepsInv(sha, tr, acts, j - 1);
      StepPublishes(sha, tr[j - 1], acts[j - 1]);
      WrittenNext(tr, acts, i, j);
    }
  }

  // ----------------------------------------------------- reads are snapshots

  /** The client is working from the listing `snap`: everything it has read,
      merged or returned since is what that listing held. */
  ghost predicate Tracks(client: Client, snap: map<Key, Index>) {
    match client.phase
    case Listing => true
    case Failed => true
    case Reading(items, contents) => HasRead(items, contents, snap)
    case Probing(items, contents, target) => HasMerged(client.job, target, snap)
    case Writing(items, contents, target) => HasMerged(client.job, target, snap)
    case Deleting(items, contents, target, _) => HasMerged(client.job, target, snap)
    case Returned(index) => HasMerged(client.job, index, snap)
  }

  ghost predicate HasRead(items: seq<Key>, contents: seq<Index>, snap: map<Key, Index>) {
    && Lists(items, snap)
    && |contents| <= |items|
    && (forall m :: 0 <= m < |contents| ==> items[m] in snap && contents[m] == snap[items[m]])
  }

  ghost predicate HasMerged(job: Job, target: Index, snap: map<Key, Index>) {
    target == Union(snap) + job.Blocks()
  }

  lemma ReadEverything(items: seq<Key>, contents: seq<Index>, snap: map<Key, Index>)
    requires HasRead(items, contents, snap) && |contents| == |items|
    ensures MergeAll(contents) == Union(snap)
  {
    forall h | h in Union(snap)
      ensures h in MergeAll(contents)
    {
      var k :| k in snap && h in snap[k];
      assert k in items;
      var m :| 0 <= m < |items| && items[m] == k;
      assert h in contents[m];
    }
    forall h | h in MergeAll(contents)
      ensures h in Union(snap)
    {
      var m :| 0 <= m < |contents| && h in contents[m];
      assert h in snap[items[m]];
    }
  }

  lemma StepTracks(sha: Naming, s: State, a: Action, c: ClientId, snap: map<Key, Index>)
    requires Injective(sha) && Named(sha, snap) && Inv(sha, s) && Enabled(s, a)
    requires c in s.clients && Tracks(s.clients[c], snap)
    requires !(a.List? && a.c == c)
    ensures c in Apply(sha, s, a).clients && Tracks(Apply(sha, s, a).clients[c], snap)
  {
    if a.c == c {
      var p := s.clients[c].phase;
      if a.Merge? {
        ReadEverything(p.items, p.contents, snap);
      } else if a.Read? {
        var key := p.items[|p.contents|];
        assert key in p.items;
        if key in s.files {
          assert sha(s.files[key]) == sha(snap[key]);
          assert HasRead(p.items, p.contents + [s.files[key]], snap);
        }
      }
    }
  }

  /** Between its listing in step i and moment j client c does not list again. */
  ghost predicate LastListing(tr: seq<State>, acts: seq<Action>, c: ClientId, i: nat, j: nat) {
    && i < j < |tr| && |tr| == |acts| + 1
    && acts[i].List? && acts[i].c == c
    && (forall k :: i < k < j ==> !(acts[k].List? && acts[k].c == c))
  }

  lemma {:induction false} RunTracks(sha: Naming, tr: seq<State>, acts: seq<Action>, c: ClientId, i: nat, j: nat)
    requires Injective(sha) && Run(sha, tr, acts) && LastListing(tr, acts, c, i, j)
    ensures c in tr[j].clients && Tracks(tr[j].clients[c], tr[i].files)
  {
    RunKeepsInv(sha, tr, acts, i);
    RunKeepsInv(sha, tr, acts, j - 1);
    if j == i + 1 {
      assert tr[j] == Apply(sha, tr[i], acts[i]);
    } else {
      RunTracks(sha, tr, acts, c, i, j - 1);
      StepTracks(sha, tr[j - 1], acts[j - 1], c, tr[i].files);
    }
  }

  /** A read that returns gives exactly what the live index files listed at the
      one instant of its last listing, although files were deleted, created
      and created again while it was reading them. */
  lemma ReadsAreSnapshots(sha: Naming, tr: seq<State>, acts: seq<Action>, c: ClientId, i: nat, j: nat)
    requires Injective(sha) && Run(sha, tr, acts) && LastListing(tr, acts, c, i, j)
    requires c in tr[j].clients && tr[j].clients[c].phase.Returned?
    ensures tr[j].clients[c].phase.index == Union(tr[i].files) + tr[j].clients[c].job.Blocks()
  {
    RunTracks(sha, tr, acts, c, i, j);
  }

  /** Every add acknowledged before a client lists the store is in the index
      that this client returns, however the acknowledgement came about. */
  lemma AcknowledgedAddsAreRead(
      sha: Naming, tr: seq<State>, acts: seq<Action>, c: ClientId, a: nat, i: nat, j: nat)
    requires Injective(sha) && Run(sha, tr, acts) && LastListing(tr, acts, c, i, j) && a <= i
    requires c in tr[j].clients && tr[j].clients[c].phase.Returned?
    ensures tr[a].acked <= tr[j].clients[c].phase.index
  {
    ReadsAreSnapshots(sha, tr, acts, c, i, j);
    NoBlockIsEverLost(sha, tr, acts, a, i);
  }

  /** What acknowledges an add: the step that turns its phase to Returned. */
  ghost predicate Acknowledges(sha: Naming, s: State, a: Action) {
    && Enabled(s, a)
    && a.c in s.clients && s.clients[a.c].job.Add?
    && !a.Start?
    && a.c in Apply(sha, s, a).clients && Apply(sha, s, a).clients[a.c].phase.Returned?
  }

  /** An add reported as successful, by finishing its deletes or because it
      found its own index among the listed files, is acknowledged in full. */
  lemma SuccessIsAcknowledged(sha: Naming, s: State, a: Action)
    requires Injective(sha) && Inv(sha, s) && Acknowledges(sha, s, a)
    ensures Apply(sha, s, a).acked == s.acked + s.clients[a.c].job.blocks
    ensures a.Merge? || a.Finish?
  {
  }

  /** The index an adder gets back lies between the store when it started and
      the store when it returned, and holds the blocks that it added. */
  lemma {:induction false} ReturnedIndexBounds(
      sha: Naming, tr: seq<State>, acts: seq<Action>, c: ClientId, b: nat, j: nat)
    requires Injective(sha) && Run(sha, tr, acts) && b < j < |tr|
    requires acts[b].Start? && acts[b].c == c
    requires c in tr[j].clients && tr[j].clients[c].phase.Returned?
    ensures Union(tr[b].files) + tr[j].clients[c].job.Blocks()
            <= tr[j].clients[c].phase.index
            <= Union(tr[j].files)
  {
    RunKeepsInv(sha, tr, acts, j);
    var i := FindListing(sha, tr, acts, c, b, j);
    ReadsAreSnapshots(sha, tr, acts, c, i, j);
    NoBlockIsEverLost(sha, tr, acts, b, i);
  }

  lemma {:induction false} FindListing(sha: Naming, tr: seq<State>, acts: seq<Action>, c: ClientId, b: nat, j: nat)
    returns (i: nat)
    requires Run(sha, tr, acts) && b < j < |tr|
    requires acts[b].Start? && acts[b].c == c
    requires c in tr[j].clients && !tr[j].clients[c].phase.Listing? && !tr[j].clients[c].phase.Failed?
    ensures b < i && LastListing(tr, acts, c, i, j)
  {
    var s := tr[j - 1];
    var a := acts[j - 1];
    assert tr[j] == Apply(sha, s, a);
    if a.List? && a.c == c {
      i := j - 1;
    } else {
      assert j - 1 != b;
      assert c in s.clients && !s.clients[c].phase.Listing? && !s.clients[c].phase.Failed?;
      i := FindListing(sha, tr, acts, c, b, j - 1);
    }
  }

  // --------------------------------------------------- progress of the adders

  ghost predicate ReadsOrProbes(p: Phase) {
    p.Reading? || p.Probing?
  }

  /** From its listing until it has written, a client only reads. */
  lemma {:induction false} OnlyReadsSince(
      sha: Naming, tr: seq<State>, acts: seq<Action>, c: ClientId, i: nat, j: nat, k: nat)
    requires Run(sha, tr, acts) && LastListing(tr, acts, c, i, j) && i < k <= j
    requires c in tr[j].clients && ReadsOrProbes(tr[j].clients[c].phase)
    ensures c in tr[k].clients && ReadsOrProbes(tr[k].clients[c].phase)
    ensures tr[k].clients[c].phase.items == tr[j].clients[c].phase.items
    ensures k < j ==> !(acts[k].c == c && (acts[k].Write? || acts[k].Delete?))
    decreases j - k
  {
    if k < j {
      OnlyReadsSince(sha, tr, acts, c, i, j, k + 1);
      assert tr[k + 1] == Apply(sha, tr[k], acts[k]) && Enabled(tr[k], acts[k]);
    }
  }

  /** The step in which a file disappears is a delete of that file. */
  lemma {:induction false} FindDelete(sha: Naming, tr: seq<State>, acts: seq<Action>, key: Key, i: nat, j: nat)
    returns (k: nat)
    requires Steps(sha, tr, acts) && i <= j < |tr| && key in tr[i].files && key !in tr[j].files
    ensures i <= k < j && acts[k].Delete? && acts[k].deleted && key in tr[k].files && key !in tr[k + 1].files
    decreases j - i
  {
    if key in tr[j - 1].files {
      k := j - 1;
      assert tr[j] == Apply(sha, tr[k], acts[k]);
    } else {
      k := FindDelete(sha, tr, acts, key, i, j - 1);
    }
  }

  /** The step in which a file appears is a write of that file. */
  lemma {:induction false} FindWrite(sha: Naming, tr: seq<State>, acts: seq<Action>, key: Key, i: nat, j: nat)
    returns (k: nat)
    requires Steps(sha, tr, acts) && i <= j < |tr| && key !in tr[i].files && key in tr[j].files
    ensures i <= k < j && acts[k].Write? && key !in tr[k].files && key in tr[k + 1].files
    decreases j - i
  {
    if key !in tr[j - 1].files {
      k := j - 1;
      assert tr[j] == Apply(sha, tr[k], acts[k]);
    } else {
      k := FindWrite(sha, tr, acts, key, i, j - 1);
    }
  }

  /** Step j sends client c, which listed in step i, back to its listing. */
  ghost predicate RoundFails(tr: seq<State>, acts: seq<Action>, c: ClientId, i: nat, j: nat) {
    && LastListing(tr, acts, c, i, j) && j < |acts|
    && acts[j].c == c && (acts[j].Read? || acts[j].Probe?)
    && c in tr[j + 1].clients && tr[j + 1].clients[c].phase.Listing?
  }

  /** A round fails only because another client removed or added an index file
      during that very round. Rounds of one client do not overlap, so each of
      its failed rounds has a write or delete of another client to itself; and
      if the others stop, the next round does not fail. */
  lemma FailedRoundIsCharged(sha: Naming, tr: seq<State>, acts: seq<Action>, c: ClientId, i: nat, j: nat)
    returns (k: nat)
    requires Injective(sha) && Run(sha, tr, acts) && RoundFails(tr, acts, c, i, j)
    ensures i < k < j && acts[k].c != c
    ensures if acts[j].Read? then acts[k].Delete? && acts[k].deleted else acts[k].Write?
    ensures tr[k + 1].files != tr[k].files
  {
    var s := tr[j];
    assert Enabled(s, acts[j]) && tr[j + 1] == Apply(sha, s, acts[j]);
    var p := s.clients[c].phase;
    assert tr[i + 1] == Apply(sha, tr[i], acts[i]) && tr[i + 1].files == tr[i].files;
    OnlyReadsSince(sha, tr, acts, c, i, j, i + 1);
    assert p.items == acts[i].items && Lists(p.items, tr[i].files);
    if acts[j].Read? {
      var key := p.items[|p.contents|];
      assert key in p.items;
      k := FindDelete(sha, tr, acts, key, i + 1, j);
    } else {
      NotListed(sha, tr, acts, c, i, j);
      k := FindWrite(sha, tr, acts, sha(p.target), i + 1, j);
    }
    OnlyReadsSince(sha, tr, acts, c, i, j, k);
  }

  /** A client that looks for its target has not seen it in its listing. */
  lemma {:induction false} NotListed(sha: Naming, tr: seq<State>, acts: seq<Action>, c: ClientId, i: nat, j: nat)
    requires Run(sha, tr, acts) && LastListing(tr, acts, c, i, j)
    requires c in tr[j].clients && tr[j].clients[c].phase.Probing?
    ensures sha(tr[j].clients[c].phase.target) !in tr[j].clients[c].phase.items
  {
    assert tr[j] == Apply(sha, tr[j - 1], acts[j - 1]) && Enabled(tr[j - 1], acts[j - 1]);
    if j > i + 1 && c in tr[j - 1].clients && tr[j - 1].clients[c].phase.Probing? {
      NotListed(sha, tr, acts, c, i, j - 1);
    }
  }

  // ------------------------------------------------ the naming hypothesis

  /** The bits of a block set from position lo on, as a number. */
  ghost function Bits(blocks: Index, lo: nat): nat
    requires lo <= HASH_LIMIT
    decreases HASH_LIMIT - lo
  {
    if lo == HASH_LIMIT then 0
    else (if lo in blocks then 1 else 0) + 2 * Bits(blocks, lo + 1)
  }

  lemma {:induction false} BitsSeparate(a: Index, b: Index, lo: nat)
    requires lo <= HASH_LIMIT && Bits(a, lo) == Bits(b, lo)
    ensures forall h: BlockHash :: lo <= h ==> (h in a <==> h in b)
    decreases HASH_LIMIT - lo
  {
    if lo < HASH_LIMIT {
      assert lo in a <==> lo in b;
      BitsSeparate(a, b, lo + 1);
    }
  }

  /** The hypothesis on names can be met. */
  lemma InjectiveNamingExists()
    ensures exists sha: Naming :: Injective(sha)
  {
    var sha: Naming := (blocks: Index) => Bits(blocks, 0);
    forall a: Index, b: Index | sha(a) == sha(b)
      ensures a == b
    {
      BitsSeparate(a, b, 0);
      assert forall h: BlockHash :: h in a <==> h in b;
    }
    assert Injective(sha);
  }

  ghost predicate Reaches(sha: Naming, tr: seq<State>, acts: seq<Action>, s: State) {
    Run(sha, tr, acts) && tr[|tr| - 1] == s
  }

  lemma Extend(sha: Naming, tr: seq<State>, acts: seq<Action>, s: State, a: Action)
    returns (longer: seq<State>, more: seq<Action>)
    requires Reaches(sha, tr, acts, s) && Enabled(s, a)
    ensures Reaches(sha, longer, more, Apply(sha, s, a)) && more == acts + [a]
  {
    longer, more := tr + [Apply(sha, s, a)], acts + [a];
  }

  /** And it is needed: were two indexes to share a name, an adder could take
      someone else's file for its own and report success without writing. */
  lemma CollidingNamesLoseAdds(sha: Naming, mine: Index, other: Index)
    returns (tr: seq<State>, acts: seq<Action>, s: State)
    requires sha(mine) == sha(other) && other < mine
    ensures Reaches(sha, tr, acts, s)
    ensures acts == [Start(0, Add(mine)), List(0, [sha(other)]), Read(0), Merge(0)]
    ensures mine <= s.acked && !(mine <= Union(s.files))
  {
    var key := sha(other);
    var files: map<Key, Index> := map[key := other];
    assert files[key] == other && Union(files) == other;
    s := State(files, map[], other, {});
    tr, acts := [s], [];
    tr, acts := Extend(sha, tr, acts, s, Start(0, Add(mine)));
    s := s.(clients := map[0 := Client(Add(mine), Listing, 0)]);
    assert Lists([key], files);
    tr, acts := Extend(sha, tr, acts, s, List(0, [key]));
    s := s.(clients := map[0 := Client(Add(mine), Reading([key], []), 0)]);
    tr, acts := Extend(sha, tr, acts, s, Read(0));
    assert [] + [other] == [other];
    s := s.(clients := map[0 := Client(Add(mine), Reading([key], [other]), 0)]);
    assert MergeAll([other]) == other && other + mine == mine by {
      assert [other][0] == other;
    }
    assert sha(mine) == [key][0];
    tr, acts := Extend(sha, tr, acts, s, Merge(0));
    s := s.(clients := map[0 := Client(Add(mine), Returned(mine), 0)], acked := {} + mine);
  }
}
