/** pruneStoreBlocks as the code runs it: the unused objects are found, then
    deleted by goroutines that borrow clients. Every execution of the pool is a
    run of the machine in BlockDeletion. */
module BlockDeletionCode {
  import opened StoreIndexes
  import opened Options
  import opened BlockDeletion
  import opened UnusedBlocks

  /** The names of the objects deleted so far. */
  function DeletedNames(j: Job, deletions: seq<nat>): set<string> {
    set i | i in deletions && i < |j.names| :: j.names[i]
  }

  class BlobStore {
    var objects: set<string>

    constructor (objects: set<string>)
      ensures this.objects == objects
    {
      this.objects := objects;
    }
  }

  /** The goroutines and both channels; the ghost fields record the run. */
  class Pool {
    const job: Job
    const store: BlobStore
    var holders: map<nat, nat>
    var sent: set<nat>
    var results: seq<nat>
    var returned: seq<nat>
    ghost const before: set<string>
    ghost var trace: seq<State>
    ghost var acts: seq<Action>

    ghost predicate Valid()
      reads this, store
    {
      && Run(job, trace, acts)
      && holders == Last(trace).holders && sent == Last(trace).sent
      && results == Last(trace).results && returned == Last(trace).returned
      && store.objects == before - DeletedNames(job, Last(trace).deletions)
    }

    ghost function Now(): State
      requires Valid()
      reads this, store
    {
      Last(trace)
    }

    constructor (job: Job, store: BlobStore)
      ensures Valid() && this.job == job && this.store == store && Now() == Initial(job) && before == store.objects
    {
      this.job, this.store, before := job, store, store.objects;
      holders, sent, results, returned := map[], {}, [], [];
      trace, acts := [Initial(job)], [];
    }

    ghost method Record(a: Action)
      requires Run(job, trace, acts) && Enabled(job, Last(trace), a)
      requires var t := Apply(job, Last(trace), a);
               && holders == t.holders && sent == t.sent && results == t.results && returned == t.returned
               && store.objects == before - DeletedNames(job, t.deletions)
      modifies this`trace, this`acts
      ensures Valid() && Now() == Apply(job, old(Last(trace)), a)
    {
      trace, acts := trace + [Apply(job, Last(trace), a)], acts + [a];
    }

    /** Worker i deletes its object and sends the result. */
    method DeleteBlock(i: nat)
      requires Valid() && Running(Now(), i)
      modifies this, store
      ensures Valid() && Now() == Apply(job, old(Now()), Delete(i))
    {
      ghost var s := Now();
      RunStaysInBounds(job, trace, acts, |acts|);
      RunKeepsInv(job, trace, acts, |acts|);
      assert i < |job.names|;
      if !job.dryRun && !job.broken(i) {
        store.objects := store.objects - {job.names[i]};
        assert DeletedNames(job, s.deletions + [i]) == DeletedNames(job, s.deletions) + {job.names[i]};
      }
      sent, results := sent + {i}, results + [i];
      Record(Delete(i));
    }

    /** Worker i hands its client back and ends. */
    method ReturnClient(i: nat)
      requires Valid() && i in holders && i in sent
      modifies this
      ensures Valid() && Now() == Apply(job, old(Now()), HandBack(i))
    {
      holders, sent, returned := holders - {i}, sent - {i}, returned + [holders[i]];
      Record(HandBack(i));
    }

    /** Workers make progress at any time, any number of them, in any order; a
        result or a client that is waited for arrives. */
    method WorkersRun(needResult: bool, needClient: bool)
      requires Valid()
      modifies this, store
      ensures Valid() && SameLoop(old(Now()), Now())
      ensures needResult && Now().active > 0 && !Now().phase.TakingClient? ==> results != []
      ensures needClient && Now().active > 0 ==> returned != []
    {
      var more := true;
      RunStaysInBounds(job, trace, acts, |acts|);
      while holders != map[] && (more || (needResult && results == []) || (needClient && returned == []))
        invariant Valid() && SameLoop(old(Now()), Now()) && |sent| <= |holders|
        decreases 2 * |holders| - |sent|
      {
        var i :| i in holders;
        if i in sent {
          ReturnClient(i);
        } else {
          DeleteBlock(i);
        }
        RunStaysInBounds(job, trace, acts, |acts|);
        more := *;
      }
      if holders == map[] && Now().active > 0 {
        RunKeepsInv(job, trace, acts, |acts|);
        ResultsArrive(job, Now());
      }
    }

    method ReceiveResult() returns (failed: bool, ghost i: nat)
      requires results != []
      modifies this`results
      ensures i == old(results)[0] && results == old(results)[1..] && failed == Fails(job, i)
    {
      i := results[0];
      failed := !job.dryRun && job.broken(results[0]);
      results := results[1..];
    }

    method ReceiveClient() returns (client: nat)
      requires returned != []
      modifies this`returned
      ensures client == old(returned)[0] && returned == old(returned)[1..]
    {
      client := returned[0];
      returned := returned[1..];
    }

    method Go(i: nat, client: nat)
      modifies this`holders
      ensures holders == old(holders)[i := client]
    {
      holders := holders[i := client];
    }
  }

  /** The loop's own variables are the same. */
  predicate SameLoop(s: State, t: State) {
    s.phase == t.phase && s.next == t.next && s.active == t.active && s.slots == t.slots && s.err == t.err
  }

  /** The code's variables are those of machine state s. */
  predicate Shows(s: State, next: nat, active: int, clients: seq<nat>, err: bool) {
    s.next == next && s.active == active && s.slots == clients && s.err == err
  }

  /** Take one client, whosever it is, after a result was received. */
  method TakeBack(pool: Pool, clients: array<nat>, active: int, failed: bool, ghost next: nat, ghost err: bool)
    returns (activeWorkerCount: int)
    requires pool.Valid() && pool.Now().phase.TakingClient? && failed == Fails(pool.job, pool.Now().phase.i)
    requires Shows(pool.Now(), next, active, clients[..], err)
    modifies pool, pool.store, clients
    ensures pool.Valid() && Shows(pool.Now(), next, activeWorkerCount, clients[..], err || failed)
    ensures activeWorkerCount == active - 1 && pool.Now().phase == PhaseAfter(old(pool.Now()).phase.back, failed)
  {
    RunKeepsInv(pool.job, pool.trace, pool.acts, |pool.acts|);
    TakingHoldsAPlace(pool.job, pool.Now());
    pool.WorkersRun(false, true);
    var client := pool.ReceiveClient();
    activeWorkerCount := active - 1;
    clients[activeWorkerCount] := client;
    pool.Record(TakeClient);
  }

  lemma TakingHoldsAPlace(j: Job, s: State)
    requires Inv(j, s) && s.phase.TakingClient?
    ensures 1 <= s.active <= |s.slots|
  {
    SubsetSize(s.sent, s.holders.Keys);
    assert |s.holders| == |s.holders.Keys|;
  }

  /** The throttled receive at the head of the loop; a failure ends the loop. */
  method Admitted(pool: Pool, clients: array<nat>, active: int, ghost next: nat)
    returns (activeWorkerCount: int, err: bool)
    requires pool.Valid() && pool.job.workers >= 1 && clients.Length == ClientCount(pool.job)
    requires Shows(pool.Now(), next, active, clients[..], false) && pool.Now().phase.Admitting?
    modifies pool, pool.store, clients
    ensures pool.Valid() && Shows(pool.Now(), next, activeWorkerCount, clients[..], err)
    ensures pool.Now().phase == if err then Draining else Launching
  {
    activeWorkerCount, err := active, false;
    RunStaysInBounds(pool.job, pool.trace, pool.acts, |pool.acts|);
    if activeWorkerCount == clients.Length {
      pool.WorkersRun(true, false);
      var deleteErr, _ := pool.ReceiveResult();
      pool.Record(Admit);
      activeWorkerCount := TakeBack(pool, clients, activeWorkerCount, deleteErr, next, false);
      err := deleteErr;
    } else {
      pool.Record(Admit);
    }
  }

  /** The polling loop: take results, with a client each, until none is there. */
  method PollResults(pool: Pool, clients: array<nat>, active: int, ghost next: nat)
    returns (activeWorkerCount: int, err: bool)
    requires pool.Valid() && Shows(pool.Now(), next, active, clients[..], false) && pool.Now().phase.Polling?
    modifies pool, pool.store, clients
    ensures pool.Valid() && Shows(pool.Now(), next, activeWorkerCount, clients[..], err)
    ensures pool.Now().phase == if err || next >= |pool.job.names| then Draining else Admitting
  {
    activeWorkerCount, err := active, false;
    var received := true;
    while activeWorkerCount > 0 && received
      invariant pool.Valid() && Shows(pool.Now(), next, activeWorkerCount, clients[..], err)
      invariant pool.Now().phase == if received then Polling else LoopHead(pool.job, pool.Now()).phase
      decreases activeWorkerCount, received
    {
      pool.WorkersRun(false, false);
      received := false;
      if pool.results != [] {
        var deleteErr, _ := pool.ReceiveResult();
        pool.Record(Poll);
        activeWorkerCount := TakeBack(pool, clients, activeWorkerCount, deleteErr, next, err);
        err := err || deleteErr;
        received := true;
      } else {
        pool.Record(Poll);
      }
    }
    if received {
      pool.Record(Poll);
    }
  }

  /** The final loop: wait for every worker that is still out. */
  method DrainResults(pool: Pool, clients: array<nat>, active: int, failed: bool, ghost next: nat) returns (err: bool)
    requires pool.Valid() && Shows(pool.Now(), next, active, clients[..], failed) && pool.Now().phase.Draining?
    modifies pool, pool.store, clients
    ensures pool.Valid() && Shows(pool.Now(), next, 0, clients[..], err) && pool.Now().phase.Returned?
  {
    var activeWorkerCount := active;
    err := failed;
    RunKeepsInv(pool.job, pool.trace, pool.acts, |pool.acts|);
    while activeWorkerCount > 0
      invariant activeWorkerCount >= 0 && pool.Valid()
      invariant Shows(pool.Now(), next, activeWorkerCount, clients[..], err) && pool.Now().phase.Draining?
    {
      pool.WorkersRun(true, false);
      var deleteErr, _ := pool.ReceiveResult();
      pool.Record(Drain);
      activeWorkerCount := TakeBack(pool, clients, activeWorkerCount, deleteErr, next, err);
      err := err || deleteErr;
    }
    pool.Record(Drain);
  }

  /** The pool's whole run. */
  method DeleteBlocks(job: Job, store: BlobStore) returns (err: bool, pool: Pool)
    requires job.workers >= 1
    modifies store
    ensures fresh(pool) && pool.Valid() && pool.job == job && pool.store == store && pool.before == old(store.objects)
    ensures pool.Now().phase.Returned? && err == pool.Now().err
  {
    pool := new Pool(job, store);
    var workerCount := ClientCount(job);
    var clients := new nat[workerCount](i => i);
    assert clients[..] == Initial(job).slots;
    var activeWorkerCount := 0;
    err := false;
    var i: nat := 0;
    while i < |job.names| && !err
      invariant fresh(pool) && fresh(clients) && pool.Valid() && pool.job == job && pool.store == store
      invariant pool.before == old(store.objects) && clients.Length == ClientCount(job) && i <= |job.names|
      invariant Shows(pool.Now(), i, activeWorkerCount, clients[..], err)
      invariant pool.Now().phase == if err || i >= |job.names| then Draining else Admitting
      decreases |job.names| - i, !err
    {
      activeWorkerCount, err := Admitted(pool, clients, activeWorkerCount, i);
      if !err {
        RunStaysInBounds(pool.job, pool.trace, pool.acts, |pool.acts|);
        RunKeepsInv(pool.job, pool.trace, pool.acts, |pool.acts|);
        pool.Go(i, clients[activeWorkerCount]);
        activeWorkerCount := activeWorkerCount + 1;
        i := i + 1;
        pool.Record(Launch);
        activeWorkerCount, err := PollResults(pool, clients, activeWorkerCount, i);
      }
    }
    err := DrainResults(pool, clients, activeWorkerCount, err, i);
  }

  lemma NamesOfDeletions(j: Job, deletions: seq<nat>, doomed: set<string>)
    requires forall name :: name in j.names <==> name in doomed
    ensures DeletedNames(j, deletions) <= doomed
    ensures (forall i: nat :: i in deletions <==> i < |j.names|) ==> DeletedNames(j, deletions) == doomed
  {
    assert forall i: nat :: i < |j.names| ==> j.names[i] in j.names;
    if forall i: nat :: i in deletions <==> i < |j.names| {
      forall name | name in doomed
        ensures name in DeletedNames(j, deletions)
      {
        var i :| 0 <= i < |j.names| && j.names[i] == name;
        assert i in deletions;
      }
    }
  }

  lemma FailsByName(j: Job, doomed: set<string>, broken: string -> bool)
    requires forall name :: name in j.names <==> name in doomed
    requires !j.dryRun && forall i: nat :: i < |j.names| ==> j.broken(i) == broken(j.names[i])
    ensures (exists i: nat :: i < |j.names| && Fails(j, i)) <==> exists name :: name in doomed && broken(name)
  {
    if name :| name in doomed && broken(name) {
      var i :| 0 <= i < |j.names| && j.names[i] == name;
      assert Fails(j, i);
    }
    if i: nat :| i < |j.names| && Fails(j, i) {
      assert j.names[i] in j.names;
    }
  }

  /** The command after the listing. `index`: the store index, if it can be
      read (an index that cannot be read is reported as success: the error
      returned is the wrapped nil of an earlier call); `clientsWork`: the
      workers' clients can be made; `broken`: deleting the object fails. */
  method PruneStoreBlocks(
      store: BlobStore, listing: seq<string>, hashOf: string -> Option<BlockHash>, index: Option<seq<BlockHash>>,
      workers: nat, clientsWork: bool, broken: string -> bool, dryRun: bool)
    returns (ok: bool)
    requires workers >= 1
    modifies store
    ensures var doomed := if index.None? then {} else RecordedUnused(listing, hashOf, set h | h in index.value);
            && old(store.objects) - doomed <= store.objects <= old(store.objects)
            && (index.None? ==> ok)
            && (index.Some? ==>
                  (ok <==>
                    && (clientsWork || doomed == {})
                    && (dryRun || forall name :: name in doomed ==> !broken(name))))
            && (ok && !dryRun ==> store.objects == old(store.objects) - doomed)
            && (dryRun ==> store.objects == old(store.objects))
  {
    if index.None? {
      return true;
    }
    var unusedBlocks := FindUnused(listing, hashOf, index.value);
    if !clientsWork && |unusedBlocks| > 0 {
      assert unusedBlocks[0] in unusedBlocks;
      return false;
    }
    var job := Job(workers, unusedBlocks, dryRun, (i: nat) => i < |unusedBlocks| && broken(unusedBlocks[i]));
    var err, pool := DeleteBlocks(job, store);
    DeletesExactly(job, pool.trace, pool.acts);
    ghost var doomed := RecordedUnused(listing, hashOf, set h | h in index.value);
    NamesOfDeletions(job, pool.Now().deletions, doomed);
    if !dryRun {
      FailsByName(job, doomed, broken);
    }
    ok := !err;
  }
}
