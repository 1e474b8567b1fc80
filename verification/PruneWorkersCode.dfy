/** gatherBlocksToKeep (and gatherBlocksToKeepFromStoreIndex, which has the same
    body) as the code runs it: local counters and maps, goroutines that finish
    whenever they like, and a result channel. Every execution is a run of the
    machine in PruneWorkers. */
module PruneWorkersCode {
  import opened StoreIndexes
  import opened Options
  import opened PruneWorkers

  const COUNT_LIMIT: nat := 0x1_0000_0000

  /** The goroutines and the result channel; the ghost fields record the run
      so far. */
  class Pool {
    const job: Job
    var running: set<nat>
    var channel: seq<nat>
    ghost var trace: seq<State>
    ghost var acts: seq<Action>

    ghost predicate Valid()
      reads this
    {
      && Run(job, trace, acts)
      && running == Last(trace).running && channel == Last(trace).channel
    }

    ghost function Now(): State
      requires Valid()
      reads this
    {
      Last(trace)
    }

    constructor (job: Job)
      ensures Valid() && this.job == job && Now() == Initial(job)
    {
      this.job := job;
      running, channel := {}, [];
      trace, acts := [Initial(job)], [];
    }

    /** Note the machine's step for what the code just did; only the channel
        can be ahead of the trace. */
    ghost method Record(a: Action)
      requires Run(job, trace, acts) && Enabled(job, Last(trace), a)
      requires running == Apply(job, Last(trace), a).running && channel == Apply(job, Last(trace), a).channel
      modifies this`trace, this`acts
      ensures Valid() && Now() == Apply(job, old(Last(trace)), a)
    {
      trace, acts := trace + [Apply(job, Last(trace), a)], acts + [a];
    }

    /** Workers send results at any time, any number of them, in any order. If
        the caller waits for a result and a worker is out, one arrives. */
    method WorkersRun(wait: bool)
      requires Valid()
      modifies this
      ensures Valid() && Now() == old(Now()).(running := running, channel := channel)
      ensures wait && |old(running)| + |old(channel)| > 0 ==> channel != []
    {
      var more := true;
      while running != {} && (more || (wait && channel == []))
        invariant Valid() && Now() == old(Now()).(running := running, channel := channel)
        invariant |running| + |channel| == |old(running)| + |old(channel)|
        decreases |running|
      {
        var i :| i in running;
        running, channel := running - {i}, channel + [i];
        Record(Complete(i));
        more := *;
      }
    }

    method Go(i: nat)
      modifies this`running
      ensures running == old(running) + {i}
    {
      running := running + {i};
    }

    method Receive() returns (i: nat)
      requires channel != []
      modifies this`channel
      ensures i == old(channel)[0] && channel == old(channel)[1..]
    {
      i := channel[0];
      channel := channel[1..];
    }
  }

  function Count(usedBlocks: map<BlockHash, nat>, h: BlockHash): nat {
    if h in usedBlocks then usedBlocks[h] else 0
  }

  /** Count the blocks of one result; the counters are 32 bits wide and only
      their keys matter. */
  method CountBlocks(usedBlocks: map<BlockHash, nat>, blocks: Index) returns (counted: map<BlockHash, nat>)
    ensures counted.Keys == usedBlocks.Keys + blocks
    ensures forall h :: h in blocks ==> counted[h] == (Count(usedBlocks, h) + 1) % COUNT_LIMIT
    ensures forall h :: h in usedBlocks.Keys - blocks ==> counted[h] == usedBlocks[h]
  {
    counted := usedBlocks;
    var rest := blocks;
    while rest != {}
      invariant rest <= blocks && counted.Keys == usedBlocks.Keys + (blocks - rest)
      invariant forall h :: h in blocks - rest ==> counted[h] == (Count(usedBlocks, h) + 1) % COUNT_LIMIT
      invariant forall h :: h in usedBlocks.Keys - (blocks - rest) ==> counted[h] == usedBlocks[h]
    {
      var h :| h in rest;
      counted := counted[h := (Count(counted, h) + 1) % COUNT_LIMIT];
      rest := rest - {h};
    }
  }

  /** The code's variables are those of machine state s. */
  predicate Shows(s: State, next: nat, active: int, used: map<BlockHash, nat>, err: bool) {
    s.next == next && s.active == active && s.used == used.Keys && s.err == err
  }

  /** The throttled receive at the head of the loop. */
  method Admitted(pool: Pool, active: int, used: map<BlockHash, nat>, ghost next: nat)
    returns (activeWorkerCount: int, usedBlocks: map<BlockHash, nat>)
    requires pool.Valid() && pool.job.limit >= 1
    requires Shows(pool.Now(), next, active, used, false) && pool.Now().phase.Admitting?
    modifies pool
    ensures pool.Valid()
    ensures Shows(pool.Now(), next, activeWorkerCount, usedBlocks, false) && pool.Now().phase.Launching?
  {
    activeWorkerCount, usedBlocks := active, used;
    if activeWorkerCount == pool.job.limit {
      Waiting(pool.job, pool.trace, pool.acts);
      pool.WorkersRun(true);
      var k := pool.Receive();
      if pool.job.outcome(k).Kept? {
        usedBlocks := CountBlocks(usedBlocks, pool.job.outcome(k).blocks);
      }
      activeWorkerCount := activeWorkerCount - 1;
    }
    pool.Record(Admit);
  }

  /** The polling loop: receive until no result is there. */
  method PollResults(pool: Pool, active: int, used: map<BlockHash, nat>, ghost next: nat)
    returns (activeWorkerCount: int, usedBlocks: map<BlockHash, nat>, err: bool)
    requires pool.Valid() && Shows(pool.Now(), next, active, used, false) && pool.Now().phase.Polling?
    modifies pool
    ensures pool.Valid() && Shows(pool.Now(), next, activeWorkerCount, usedBlocks, err)
    ensures pool.Now().phase == if err || next >= |pool.job.paths| then Draining else Admitting
  {
    activeWorkerCount, usedBlocks, err := active, used, false;
    var received := true;
    while activeWorkerCount > 0 && received
      invariant pool.Valid() && Shows(pool.Now(), next, activeWorkerCount, usedBlocks, err)
      invariant pool.Now().phase == if received then Polling else LoopHead(pool.job, pool.Now()).phase
      decreases activeWorkerCount, received
    {
      pool.WorkersRun(false);
      received := false;
      if pool.channel != [] {
        var k := pool.Receive();
        if pool.job.outcome(k).Kept? {
          usedBlocks := CountBlocks(usedBlocks, pool.job.outcome(k).blocks);
        } else {
          err := true;
        }
        activeWorkerCount := activeWorkerCount - 1;
        received := true;
      }
      pool.Record(Poll);
    }
    if received {
      pool.Record(Poll);
    }
  }

  /** The final loop: wait for every worker that is still out. */
  method DrainResults(pool: Pool, active: int, used: map<BlockHash, nat>, failed: bool, ghost next: nat)
    returns (usedBlocks: map<BlockHash, nat>, err: bool)
    requires pool.Valid() && Shows(pool.Now(), next, active, used, failed) && pool.Now().phase.Draining?
    modifies pool
    ensures pool.Valid() && Shows(pool.Now(), next, pool.Now().active, usedBlocks, err) && pool.Now().phase.Returned?
  {
    var activeWorkerCount := active;
    usedBlocks, err := used, failed;
    while activeWorkerCount > 0
      invariant pool.Valid()
      invariant Shows(pool.Now(), next, activeWorkerCount, usedBlocks, err) && pool.Now().phase.Draining?
    {
      Waiting(pool.job, pool.trace, pool.acts);
      pool.WorkersRun(true);
      var k := pool.Receive();
      activeWorkerCount := activeWorkerCount - 1;
      if pool.job.outcome(k).Kept? {
        usedBlocks := CountBlocks(usedBlocks, pool.job.outcome(k).blocks);
      } else {
        err := true;
      }
      pool.Record(Drain);
    }
    pool.Record(Drain);
  }

  /** Every execution is a complete run of the machine, and what it returns is
      what the machine ends with. */
  method GatherBlocksToKeep(job: Job) returns (keep: Option<Index>, pool: Pool)
    requires job.limit >= 1
    ensures fresh(pool) && pool.Valid() && pool.job == job
    ensures pool.Now().phase.Returned?
    ensures keep == if pool.Now().err then None else Some(pool.Now().used)
  {
    pool := new Pool(job);
    var usedBlocks: map<BlockHash, nat> := map[];
    var activeWorkerCount := 0;
    var err := false;
    var i: nat := 0;
    while i < |job.paths| && !err
      invariant fresh(pool) && pool.Valid() && pool.job == job && i <= |job.paths|
      invariant Shows(pool.Now(), i, activeWorkerCount, usedBlocks, err)
      invariant pool.Now().phase == if err || i >= |job.paths| then Draining else Admitting
      decreases |job.paths| - i
    {
      activeWorkerCount, usedBlocks := Admitted(pool, activeWorkerCount, usedBlocks, i);
      if job.paths[i] != "" {
        pool.Go(i);
        activeWorkerCount := activeWorkerCount + 1;
      }
      i := i + 1;
      pool.Record(Launch);
      activeWorkerCount, usedBlocks, err := PollResults(pool, activeWorkerCount, usedBlocks, i);
    }
    usedBlocks, err := DrainResults(pool, activeWorkerCount, usedBlocks, err, i);
    keep := if err then None else Some(usedBlocks.Keys);
  }

  lemma Waiting(j: Job, tr: seq<State>, acts: seq<Action>)
    requires Run(j, tr, acts)
    ensures Last(tr).active == |Last(tr).running| + |Last(tr).channel|
  {
    WorkersAreLimited(j, tr, acts, |tr| - 1);
  }
}
