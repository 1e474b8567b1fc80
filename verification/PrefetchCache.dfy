/** The cache through which a remote store's workers fetch and prefetch blocks:
    what one worker does to the shared map while it holds the mutex. */
module PrefetchCache {
  import opened StoreIndexes
  import opened Options

  type Request = nat

  /** How a download ends. A block read under a hash carries that hash. */
  datatype Outcome = Block(hash: BlockHash, size: nat) | Error

  /** A map entry: nil once its block has been handed out, pending while a
      download runs, ready when a prefetch ended with nobody waiting. */
  datatype Entry =
    | Taken
    | Pending(waiters: seq<Request>)
    | Ready(outcome: Outcome)

  datatype Completion = Completion(request: Request, outcome: Outcome)

  /** `completions` are the calls of OnComplete so far, in order. */
  datatype Cache = Cache(entries: map<BlockHash, Entry>, memory: int, completions: seq<Completion>)

  function Weight(e: Entry): nat {
    if e.Ready? && e.outcome.Block? then e.outcome.size else 0
  }

  function Complete(requests: seq<Request>, outcome: Outcome): seq<Completion> {
    seq(|requests|, i requires 0 <= i < |requests| => Completion(requests[i], outcome))
  }

  predicate HasWaiters(e: Entry) {
    e.Pending? && |e.waiters| > 0
  }

  function WaitersAt(entries: map<BlockHash, Entry>, h: BlockHash): seq<Request> {
    if h in entries && entries[h].Pending? then entries[h].waiters else []
  }

  // ------------------------------------------- the critical sections as functions

  /** The first section of fetchBlock; true: the caller must download. */
  function FetchBegun(c: Cache, r: Request, h: BlockHash): (Cache, bool) {
    if h !in c.entries || c.entries[h].Taken? then
      (c.(entries := c.entries[h := Pending([])]), true)
    else
      match c.entries[h]
      case Ready(outcome) =>
        (Cache(c.entries[h := Taken], c.memory - Weight(c.entries[h]), c.completions + [Completion(r, outcome)]), false)
      case Pending(waiters) =>
        (c.(entries := c.entries[h := Pending(waiters + [r])]), false)
  }

  /** The second section and the callbacks; None: a nil entry is dereferenced. */
  function FetchEnded(c: Cache, r: Request, h: BlockHash, outcome: Outcome): Option<Cache> {
    if h !in c.entries then None
    else if c.entries[h].Taken? then Some(c)
    else Some(c.(entries := c.entries[h := Taken],
                 completions := c.completions + Complete(WaitersAt(c.entries, h) + [r], outcome)))
  }

  function PrefetchBegun(c: Cache, h: BlockHash): (Cache, bool) {
    if h in c.entries then (c, false) else (c.(entries := c.entries[h := Pending([])]), true)
  }

  /** Whom a prefetch calls back: the loop stops one short, so that the last of
      two or more waiters is left out. */
  function PrefetchServes(waiters: seq<Request>): seq<Request>
    requires waiters != []
  {
    (if |waiters| >= 2 then waiters[1..|waiters| - 1] else []) + [waiters[0]]
  }

  function PrefetchEnded(c: Cache, h: BlockHash, outcome: Outcome): Cache {
    if h !in c.entries || c.entries[h].Taken? then c
    else
      var waiters := WaitersAt(c.entries, h);
      if waiters == [] then
        c.(entries := c.entries[h := Ready(outcome)], memory := c.memory + Weight(Ready(outcome)))
      else
        c.(entries := c.entries[h := Taken], completions := c.completions + Complete(PrefetchServes(waiters), outcome))
  }

  function Waited(entries: map<BlockHash, Entry>): map<BlockHash, Entry> {
    map h | h in entries && HasWaiters(entries[h]) :: entries[h]
  }

  ghost function Flushed(c: Cache): Cache {
    c.(entries := Waited(c.entries), memory := c.memory - Held(c.entries))
  }

  // --------------------------------------------------- the memory accounted for

  /** The summed sizes of the ready blocks. */
  ghost function Held(entries: map<BlockHash, Entry>): nat
    decreases |entries|
  {
    if entries == map[] then 0
    else var h :| h in entries; Weight(entries[h]) + Held(entries - {h})
  }

  lemma {:induction false} HeldWithout(entries: map<BlockHash, Entry>, h: BlockHash)
    requires h in entries
    ensures Held(entries) == Weight(entries[h]) + Held(entries - {h})
    decreases |entries|
  {
    var k :| k in entries && Held(entries) == Weight(entries[k]) + Held(entries - {k});
    if k != h {
      HeldWithout(entries - {k}, h);
      HeldWithout(entries - {h}, k);
      assert entries - {k} - {h} == entries - {h} - {k};
    }
  }

  lemma HeldUpdate(entries: map<BlockHash, Entry>, h: BlockHash, e: Entry)
    ensures Held(entries[h := e]) ==
            Held(entries) - (if h in entries then Weight(entries[h]) else 0) + Weight(e)
  {
    HeldWithout(entries[h := e], h);
    if h in entries {
      HeldWithout(entries, h);
      assert entries[h := e] - {h} == entries - {h};
    } else {
      assert entries[h := e] - {h} == entries;
    }
  }

  lemma {:induction false} HeldNothing(entries: map<BlockHash, Entry>)
    requires forall h :: h in entries ==> Weight(entries[h]) == 0
    ensures Held(entries) == 0
    decreases |entries|
  {
    if entries != map[] {
      var h :| h in entries;
      HeldWithout(entries, h);
      HeldNothing(entries - {h});
    }
  }
}
