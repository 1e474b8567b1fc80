/** The remote store's workers over the shared fetch/prefetch cache: every
    interleaving of their fetches, prefetches and flushes. */
module PrefetchWorkers {
  import opened StoreIndexes
  import opened Options
  import opened PrefetchCache

  type WorkerId = nat

  /** What a worker is doing. Armed: it found the prefetch memory below the
      limit and waits for a message of any kind, so it may start a prefetch. */
  datatype Job =
    | Free
    | Armed
    | Throttled
    | Fetching(hash: BlockHash, request: Request)
    | Prefetching(hash: BlockHash)

  datatype Config = Config(maxMemory: nat, largestBlock: nat)

  /** `issued` says which block each get request asked for, `results` how
      downloads ended, `lost` which requests were left without a callback. */
  datatype State = State(
    cache: Cache,
    workers: map<WorkerId, Job>,
    issued: map<Request, BlockHash>,
    results: set<(BlockHash, Outcome)>,
    lost: set<Request>,
    panicked: bool)

  datatype Action =
    | Check(w: WorkerId)
    | Turn(w: WorkerId)
    | Fetch(w: WorkerId, r: Request, h: BlockHash)
    | FetchDone(w: WorkerId, outcome: Outcome)
    | Prefetch(w: WorkerId, h: BlockHash)
    | PrefetchDone(w: WorkerId, outcome: Outcome)
    | Flush(w: WorkerId)

  predicate Busy(j: Job) {
    j.Fetching? || j.Prefetching?
  }

  predicate CanEnd(cfg: Config, h: BlockHash, outcome: Outcome) {
    outcome.Block? ==> outcome.hash == h && outcome.size <= cfg.largestBlock
  }

  predicate Enabled(cfg: Config, s: State, a: Action) {
    && a.w in s.workers && !s.panicked
    && var j := s.workers[a.w];
       match a
       case Check(_) => j.Free?
       case Turn(_) => !Busy(j)
       case Fetch(_, r, _) => !Busy(j) && r !in s.issued
       case FetchDone(_, outcome) => j.Fetching? && CanEnd(cfg, j.hash, outcome)
       case Prefetch(_, _) => j.Armed?
       case PrefetchDone(_, outcome) => j.Prefetching? && CanEnd(cfg, j.hash, outcome)
       case Flush(_) => !Busy(j)
  }

  function Becomes(s: State, w: WorkerId, j: Job, cache: Cache): State {
    s.(cache := cache, workers := s.workers[w := j])
  }

  ghost function Apply(cfg: Config, s: State, a: Action): State
    requires Enabled(cfg, s, a)
  {
    var j := s.workers[a.w];
    match a
    case Check(w) => Becomes(s, w, if s.cache.memory < cfg.maxMemory then Armed else Throttled, s.cache)
    case Turn(w) => Becomes(s, w, Free, s.cache)
    case Fetch(w, r, h) =>
      var (cache, download) := FetchBegun(s.cache, r, h);
      Becomes(s, w, if download then Fetching(h, r) else Free, cache).(issued := s.issued[r := h])
    case FetchDone(w, outcome) =>
      var after := FetchEnded(s.cache, j.request, j.hash, outcome);
      if after.None? then s.(panicked := true)
      else Becomes(s, w, Free, after.value).(results := s.results + {(j.hash, outcome)})
    case Prefetch(w, h) =>
      var (cache, download) := PrefetchBegun(s.cache, h);
      Becomes(s, w, if download then Prefetching(h) else Free, cache)
    case PrefetchDone(w, outcome) =>
      Becomes(s, w, Free, PrefetchEnded(s.cache, j.hash, outcome))
        .(results := s.results + {(j.hash, outcome)},
          lost := s.lost + (if Strands(s, a) then {Last(WaitersAt(s.cache.entries, j.hash))} else {}))
    case Flush(w) => Becomes(s, w, Free, Flushed(s.cache))
  }

  function Last(waiters: seq<Request>): Request
    requires waiters != []
  {
    waiters[|waiters| - 1]
  }

  /** A prefetch ends with two or more requests waiting for it. */
  predicate Strands(s: State, a: Action) {
    && a.PrefetchDone? && a.w in s.workers && s.workers[a.w].Prefetching?
    && |WaitersAt(s.cache.entries, s.workers[a.w].hash)| >= 2
  }

  // ---------------------------------------------------------------- invariant

  ghost predicate Flies(s: State, w: WorkerId, h: BlockHash) {
    w in s.workers && Busy(s.workers[w]) && s.workers[w].hash == h
  }

  ghost predicate CompletedIn(completions: seq<Completion>, r: Request) {
    exists i :: 0 <= i < |completions| && completions[i].request == r
  }

  ghost predicate Completed(c: Cache, r: Request) {
    CompletedIn(c.completions, r)
  }

  ghost predicate Waits(c: Cache, r: Request, h: BlockHash) {
    r in WaitersAt(c.entries, h)
  }

  ghost predicate Fetches(s: State, w: WorkerId, r: Request, h: BlockHash) {
    w in s.workers && s.workers[w] == Fetching(h, r)
  }

  ghost predicate PendingAt(c: Cache, h: BlockHash) {
    h in c.entries && c.entries[h].Pending?
  }

  /** At most one download of a block is in flight, and one is exactly while
      the block's entry is pending. */
  ghost predicate SingleFlight(s: State) {
    && (forall w, v, h :: Flies(s, w, h) && Flies(s, v, h) ==> w == v)
    && (forall w, h :: Flies(s, w, h) ==> PendingAt(s.cache, h))
    && (forall h :: PendingAt(s.cache, h) ==> exists w :: Flies(s, w, h))
  }

  /** A request that is waiting or being fetched has not been answered. */
  ghost predicate Open(s: State, r: Request, h: BlockHash) {
    && r in s.issued && s.issued[r] == h
    && r !in s.lost && !Completed(s.cache, r)
  }

  ghost predicate Distinct(requests: seq<Request>) {
    forall i, k :: 0 <= i < k < |requests| ==> requests[i] != requests[k]
  }

  /** Nobody waits twice or for something else, and nobody is forgotten. */
  ghost predicate Requests(s: State) {
    && (forall r, h :: Waits(s.cache, r, h) ==> Open(s, r, h))
    && (forall h :: Distinct(WaitersAt(s.cache.entries, h)))
    && (forall w, r, h :: Fetches(s, w, r, h) ==> Open(s, r, h) && !Waits(s.cache, r, h))
    && (forall r :: r in s.issued ==> Accounted(s, r))
  }

  ghost predicate Accounted(s: State, r: Request)
    requires r in s.issued
  {
    || Completed(s.cache, r) || r in s.lost || Waits(s.cache, r, s.issued[r])
    || exists w :: Fetches(s, w, r, s.issued[r])
  }

  /** Every callback answers an open request once, with the outcome of a
      download of the block it asked for. */
  ghost predicate Answers(s: State) {
    && (forall i :: 0 <= i < |s.cache.completions| ==> Answered(s, s.cache.completions[i]))
    && (forall i, k :: 0 <= i < k < |s.cache.completions| ==>
          s.cache.completions[i].request != s.cache.completions[k].request)
    && (forall h :: h in s.cache.entries && s.cache.entries[h].Ready? ==> (h, s.cache.entries[h].outcome) in s.results)
    && (forall p :: p in s.results && p.1.Block? ==> p.1.hash == p.0)
    && (forall r :: r in s.lost ==> r in s.issued)
  }

  ghost predicate Answered(s: State, c: Completion) {
    && c.request in s.issued && c.request !in s.lost
    && (s.issued[c.request], c.outcome) in s.results
  }

  ghost predicate Inv(s: State) {
    && !s.panicked
    && SingleFlight(s)
    && Requests(s)
    && Answers(s)
    && s.cache.memory == Held(s.cache.entries)
  }

  ghost predicate Initial(s: State) {
    && s.cache == Cache(map[], 0, [])
    && (forall w :: w in s.workers ==> s.workers[w] == Free)
    && s.issued == map[] && s.results == {} && s.lost == {} && !s.panicked
  }

  lemma InitialInv(s: State)
    requires Initial(s)
    ensures Inv(s)
  {
  }

  // ---------------------------------------------------------- completing requests

  lemma CompleteMany(before: seq<Completion>, requests: seq<Request>, outcome: Outcome)
    ensures forall r ::
              CompletedIn(before + Complete(requests, outcome), r) <==> CompletedIn(before, r) || r in requests
  {
    var after := before + Complete(requests, outcome);
    forall r
      ensures CompletedIn(after, r) <==> CompletedIn(before, r) || r in requests
    {
      if CompletedIn(before, r) {
        var i :| 0 <= i < |before| && before[i].request == r;
        assert after[i].request == r;
      }
      if r in requests {
        var i :| 0 <= i < |requests| && requests[i] == r;
        assert after[|before| + i].request == r;
      }
    }
  }

  // ------------------------------------------------------ one step keeps it

  ghost predicate SameFlights(s: State, t: State) {
    && (forall v, k :: Flies(t, v, k) <==> Flies(s, v, k))
    && (forall v, x, k :: Fetches(t, v, x, k) <==> Fetches(s, v, x, k))
    && (forall k :: PendingAt(t.cache, k) <==> PendingAt(s.cache, k))
  }

  lemma SameFlightsKeep(s: State, t: State)
    requires SingleFlight(s) && SameFlights(s, t)
    ensures SingleFlight(t)
  {
    forall k | PendingAt(t.cache, k)
      ensures exists v :: Flies(t, v, k)
    {
      assert PendingAt(s.cache, k);
      var v :| Flies(s, v, k);
      assert Flies(t, v, k);
    }
  }

  /** Worker w takes off for block h. */
  lemma TakeOff(s: State, t: State, w: WorkerId, h: BlockHash)
    requires SingleFlight(s)
    requires !PendingAt(s.cache, h) && (forall k :: PendingAt(t.cache, k) <==> PendingAt(s.cache, k) || k == h)
    requires forall v, k :: Flies(t, v, k) <==> Flies(s, v, k) || (v == w && k == h)
    ensures SingleFlight(t)
  {
    forall k | PendingAt(t.cache, k)
      ensures exists v :: Flies(t, v, k)
    {
      if k == h {
        assert Flies(t, w, k);
      } else {
        assert PendingAt(s.cache, k);
        var v :| Flies(s, v, k);
        assert Flies(t, v, k);
      }
    }
  }

  /** Worker w lands with block h. */
  lemma Landing(s: State, t: State, w: WorkerId, h: BlockHash)
    requires SingleFlight(s) && Flies(s, w, h)
    requires forall k :: PendingAt(t.cache, k) <==> PendingAt(s.cache, k) && k != h
    requires forall v, k :: Flies(t, v, k) <==> Flies(s, v, k) && v != w
    ensures SingleFlight(t)
  {
    forall k | PendingAt(t.cache, k)
      ensures exists v :: Flies(t, v, k)
    {
      assert PendingAt(s.cache, k);
      var v :| Flies(s, v, k);
      assert Flies(t, v, k);
    }
  }

  lemma WaitersAfter(before: map<BlockHash, Entry>, after: map<BlockHash, Entry>, h: BlockHash, e: Entry)
    requires after == before[h := e]
    requires e.Pending? ==> Distinct(e.waiters)
    ensures forall k :: WaitersAt(after, k) ==
                        if k == h then (if e.Pending? then e.waiters else []) else WaitersAt(before, k)
    ensures (forall k :: Distinct(WaitersAt(before, k))) ==> forall k :: Distinct(WaitersAt(after, k))
  {
    forall k
      ensures WaitersAt(after, k) ==
              if k == h then (if e.Pending? then e.waiters else []) else WaitersAt(before, k)
      ensures Distinct(WaitersAt(before, k)) ==> Distinct(WaitersAt(after, k))
    {
    }
  }

  /** A new request r for block h is being fetched by w or waits. */
  lemma RequestOpens(s: State, t: State, w: WorkerId, r: Request, h: BlockHash, waits: bool)
    requires Requests(s) && r !in s.issued && !Completed(s.cache, r) && r !in s.lost
    requires t.issued == s.issued[r := h] && t.lost == s.lost && t.cache.completions == s.cache.completions
    requires forall x, k :: Waits(t.cache, x, k) <==> Waits(s.cache, x, k) || (waits && x == r && k == h)
    requires forall k :: Distinct(WaitersAt(t.cache.entries, k))
    requires forall v, x, k :: Fetches(t, v, x, k) <==> Fetches(s, v, x, k) || (!waits && v == w && x == r && k == h)
    ensures Requests(t)
  {
    forall x | x in t.issued
      ensures Accounted(t, x)
    {
      if x == r {
        assert waits ==> Waits(t.cache, r, h);
        assert !waits ==> Fetches(t, w, r, h);
      } else {
        assert Accounted(s, x);
      }
    }
  }

  /** Requests are answered (and `stranded` ones given up): what was waiting
      for block h no longer waits, and w no longer fetches it. */
  lemma RequestsClose(s: State, t: State, w: WorkerId, h: BlockHash, answered: set<Request>, stranded: set<Request>)
    requires Requests(s)
    requires t.issued == s.issued && t.lost == s.lost + stranded
    requires forall x :: Completed(t.cache, x) <==> Completed(s.cache, x) || x in answered
    requires forall x :: x in answered + stranded <==> Waits(s.cache, x, h) || Fetches(s, w, x, h)
    requires forall x, k :: Waits(t.cache, x, k) <==> Waits(s.cache, x, k) && k != h
    requires forall k :: Distinct(WaitersAt(t.cache.entries, k))
    requires forall v, x, k :: Fetches(t, v, x, k) <==> Fetches(s, v, x, k) && k != h
    requires forall v, x :: Fetches(s, v, x, h) ==> v == w
    ensures Requests(t)
  {
    forall x | x in answered + stranded
      ensures Open(s, x, h)
    {
    }
    forall x, k | Waits(t.cache, x, k)
      ensures Open(t, x, k)
    {
      assert Open(s, x, k) && x !in answered + stranded;
    }
    forall v, x, k | Fetches(t, v, x, k)
      ensures Open(t, x, k) && !Waits(t.cache, x, k)
    {
      assert Open(s, x, k) && x !in answered + stranded;
    }
    forall x | x in t.issued
      ensures Accounted(t, x)
    {
      assert Accounted(s, x);
    }
  }

  lemma NewIsOpen(s: State, r: Request)
    requires Inv(s) && r !in s.issued
    ensures !Completed(s.cache, r) && r !in s.lost
    ensures forall h :: !Waits(s.cache, r, h)
    ensures forall w, h :: !Fetches(s, w, r, h)
  {
  }

  lemma TurnKeeps(cfg: Config, s: State, a: Action)
    requires Inv(s) && Enabled(cfg, s, a) && (a.Check? || a.Turn?)
    ensures Inv(Apply(cfg, s, a))
  {
    var t := Apply(cfg, s, a);
    SameFlightsKeep(s, t);
    assert forall r :: r in s.issued && Accounted(s, r) ==> Accounted(t, r);
  }

  lemma FetchDownloads(cfg: Config, s: State, w: WorkerId, r: Request, h: BlockHash)
    requires Inv(s) && Enabled(cfg, s, Fetch(w, r, h)) && FetchBegun(s.cache, r, h).1
    ensures Inv(Apply(cfg, s, Fetch(w, r, h)))
  {
    var t := Apply(cfg, s, Fetch(w, r, h));
    NewIsOpen(s, r);
    HeldUpdate(s.cache.entries, h, Pending([]));
    WaitersAfter(s.cache.entries, t.cache.entries, h, Pending([]));
    TakeOff(s, t, w, h);
    RequestOpens(s, t, w, r, h, false);
  }

  /** A new request that is not yet answered leaves the answers alone. */
  lemma AnswersStay(s: State, t: State, r: Request, h: BlockHash)
    requires Answers(s) && r !in s.issued && t.issued == s.issued[r := h]
    requires t.cache.completions == s.cache.completions && t.results == s.results && t.lost == s.lost
    requires forall k :: k in t.cache.entries && t.cache.entries[k].Ready? ==>
               k in s.cache.entries && s.cache.entries[k] == t.cache.entries[k]
    ensures Answers(t)
  {
    forall i | 0 <= i < |t.cache.completions|
      ensures Answered(t, t.cache.completions[i])
    {
      assert Answered(s, s.cache.completions[i]);
    }
  }

  lemma OneMoreWaits(s: State, t: State, r: Request, h: BlockHash)
    requires PendingAt(s.cache, h) && (forall k :: Distinct(WaitersAt(s.cache.entries, k))) && !Waits(s.cache, r, h)
    requires t.cache.entries == s.cache.entries[h := Pending(WaitersAt(s.cache.entries, h) + [r])]
    ensures forall k :: Distinct(WaitersAt(t.cache.entries, k))
    ensures forall x, k :: Waits(t.cache, x, k) <==> Waits(s.cache, x, k) || (x == r && k == h)
    ensures forall k :: PendingAt(t.cache, k) <==> PendingAt(s.cache, k)
    ensures Held(t.cache.entries) == Held(s.cache.entries)
  {
    var e := Pending(WaitersAt(s.cache.entries, h) + [r]);
    HeldUpdate(s.cache.entries, h, e);
    WaitersAfter(s.cache.entries, t.cache.entries, h, e);
  }

  lemma FetchWaits(cfg: Config, s: State, w: WorkerId, r: Request, h: BlockHash)
    requires Inv(s) && Enabled(cfg, s, Fetch(w, r, h)) && PendingAt(s.cache, h)
    ensures Inv(Apply(cfg, s, Fetch(w, r, h)))
  {
    var t := Apply(cfg, s, Fetch(w, r, h));
    NewIsOpen(s, r);
    OneMoreWaits(s, t, r, h);
    SameFlightsKeep(s, t);
    RequestOpens(s, t, w, r, h, true);
    AnswersStay(s, t, r, h);
  }

  /** A new request is answered at once. */
  lemma RequestServed(s: State, t: State, r: Request, h: BlockHash)
    requires Requests(s) && r !in s.issued
    requires t.issued == s.issued[r := h] && t.lost == s.lost
    requires forall x :: Completed(t.cache, x) <==> Completed(s.cache, x) || x == r
    requires forall x, k :: Waits(t.cache, x, k) <==> Waits(s.cache, x, k)
    requires forall k :: Distinct(WaitersAt(t.cache.entries, k))
    requires forall v, x, k :: Fetches(t, v, x, k) <==> Fetches(s, v, x, k)
    ensures Requests(t)
  {
    forall x | x in t.issued
      ensures Accounted(t, x)
    {
      assert x != r ==> Accounted(s, x);
    }
  }

  lemma ServedAnswers(s: State, t: State, r: Request, h: BlockHash, outcome: Outcome)
    requires Answers(s) && r !in s.issued && t.issued == s.issued[r := h]
    requires !Completed(s.cache, r) && r !in s.lost && (h, outcome) in s.results
    requires t.cache.completions == s.cache.completions + Complete([r], outcome)
    requires t.results == s.results && t.lost == s.lost && t.cache.entries == s.cache.entries[h := Taken]
    ensures Answers(t)
  {
    NotYetAnswered(s.cache.completions, [r], outcome);
    forall i | 0 <= i < |t.cache.completions|
      ensures Answered(t, t.cache.completions[i])
    {
      if i < |s.cache.completions| {
        assert Answered(s, s.cache.completions[i]);
      }
    }
  }

  lemma FetchServes(cfg: Config, s: State, w: WorkerId, r: Request, h: BlockHash)
    requires Inv(s) && Enabled(cfg, s, Fetch(w, r, h)) && h in s.cache.entries && s.cache.entries[h].Ready?
    ensures Inv(Apply(cfg, s, Fetch(w, r, h)))
  {
    var t := Apply(cfg, s, Fetch(w, r, h));
    var outcome := s.cache.entries[h].outcome;
    NewIsOpen(s, r);
    HeldUpdate(s.cache.entries, h, Taken);
    WaitersAfter(s.cache.entries, t.cache.entries, h, Taken);
    SameFlightsKeep(s, t);
    assert Complete([r], outcome) == [Completion(r, outcome)];
    CompleteMany(s.cache.completions, [r], outcome);
    RequestServed(s, t, r, h);
    ServedAnswers(s, t, r, h, outcome);
  }

  /** Answering distinct open requests keeps all answers distinct. */
  lemma NotYetAnswered(before: seq<Completion>, requests: seq<Request>, outcome: Outcome)
    requires forall i, k :: 0 <= i < k < |before| ==> before[i].request != before[k].request
    requires Distinct(requests)
    requires forall r :: r in requests ==> !CompletedIn(before, r)
    ensures var after := before + Complete(requests, outcome);
            forall i, k :: 0 <= i < k < |after| ==> after[i].request != after[k].request
  {
    var after := before + Complete(requests, outcome);
    forall i, k | 0 <= i < k < |after|
      ensures after[i].request != after[k].request
    {
      if k >= |before| {
        assert after[k].request == requests[k - |before|];
        if i < |before| {
          assert before[i].request == after[i].request;
          assert after[k].request in requests;
        } else {
          assert after[i].request == requests[i - |before|];
        }
      }
    }
  }

  /** The download of w ends and answers `served`, all open requests for h. */
  lemma DownloadAnswers(
      s: State, t: State, h: BlockHash, served: seq<Request>, outcome: Outcome, stranded: set<Request>)
    requires Inv(s) && Distinct(served)
    requires forall r :: r in served ==> Open(s, r, h) && r !in stranded
    requires forall r :: r in stranded ==> Open(s, r, h)
    requires t.issued == s.issued && t.lost == s.lost + stranded && t.results == s.results + {(h, outcome)}
    requires outcome.Block? ==> outcome.hash == h
    requires t.cache.completions == s.cache.completions + Complete(served, outcome)
    requires t.cache.entries == s.cache.entries[h := Taken]
    ensures Answers(t)
  {
    NotYetAnswered(s.cache.completions, served, outcome);
    forall i | 0 <= i < |t.cache.completions|
      ensures Answered(t, t.cache.completions[i])
    {
      if i < |s.cache.completions| {
        assert Answered(s, s.cache.completions[i]);
        assert t.cache.completions[i] == s.cache.completions[i];
        assert Completed(s.cache, s.cache.completions[i].request);
      } else {
        assert served[i - |s.cache.completions|] in served;
      }
    }
  }

  lemma FetchCloses(cfg: Config, s: State, w: WorkerId, r: Request, h: BlockHash, outcome: Outcome)
    requires SingleFlight(s) && Requests(s) && Enabled(cfg, s, FetchDone(w, outcome))
    requires s.workers[w] == Fetching(h, r) && PendingAt(s.cache, h)
    ensures Requests(Apply(cfg, s, FetchDone(w, outcome)))
  {
    var t := Apply(cfg, s, FetchDone(w, outcome));
    var waiters := WaitersAt(s.cache.entries, h);
    var served := waiters + [r];
    assert Flies(s, w, h) && Fetches(s, w, r, h);
    WaitersAfter(s.cache.entries, t.cache.entries, h, Taken);
    CompleteMany(s.cache.completions, served, outcome);
    var answered := set x | x in served;
    forall x
      ensures x in answered + {} <==> Waits(s.cache, x, h) || Fetches(s, w, x, h)
    {
      assert x in served <==> x in waiters || x == r;
    }
    forall v, x, k
      ensures Fetches(t, v, x, k) <==> Fetches(s, v, x, k) && k != h
    {
      if Fetches(s, v, x, k) && k == h {
        assert Flies(s, v, h);
      }
    }
    RequestsClose(s, t, w, h, answered, {});
  }

  lemma FetchDoneKeeps(cfg: Config, s: State, w: WorkerId, outcome: Outcome)
    requires Inv(s) && Enabled(cfg, s, FetchDone(w, outcome))
    ensures Inv(Apply(cfg, s, FetchDone(w, outcome)))
  {
    var t := Apply(cfg, s, FetchDone(w, outcome));
    var Fetching(h, r) := s.workers[w];
    assert Flies(s, w, h) && Fetches(s, w, r, h) && PendingAt(s.cache, h);
    var waiters := WaitersAt(s.cache.entries, h);
    HeldUpdate(s.cache.entries, h, Taken);
    Landing(s, t, w, h);
    FetchCloses(cfg, s, w, r, h, outcome);
    assert !Waits(s.cache, r, h) && Distinct(waiters);
    assert forall x :: x in waiters ==> Waits(s.cache, x, h);
    DownloadAnswers(s, t, h, waiters + [r], outcome, {});
  }

  lemma PrefetchKeeps(cfg: Config, s: State, w: WorkerId, h: BlockHash)
    requires Inv(s) && Enabled(cfg, s, Prefetch(w, h))
    ensures Inv(Apply(cfg, s, Prefetch(w, h)))
  {
    var t := Apply(cfg, s, Prefetch(w, h));
    if h in s.cache.entries {
      SameFlightsKeep(s, t);
    } else {
      HeldUpdate(s.cache.entries, h, Pending([]));
      WaitersAfter(s.cache.entries, t.cache.entries, h, Pending([]));
      TakeOff(s, t, w, h);
    }
    assert forall v, x, k :: Fetches(t, v, x, k) <==> Fetches(s, v, x, k);
    assert forall x, k :: Waits(t.cache, x, k) <==> Waits(s.cache, x, k);
    assert forall r :: r in s.issued && Accounted(s, r) ==> Accounted(t, r);
    assert forall k :: Distinct(WaitersAt(t.cache.entries, k));
    assert Requests(t);
    assert Answers(t);
  }

  lemma PrefetchDoneUnawaited(cfg: Config, s: State, w: WorkerId, outcome: Outcome)
    requires Inv(s) && Enabled(cfg, s, PrefetchDone(w, outcome))
    requires WaitersAt(s.cache.entries, s.workers[w].hash) == []
    ensures Inv(Apply(cfg, s, PrefetchDone(w, outcome)))
  {
    var t := Apply(cfg, s, PrefetchDone(w, outcome));
    var h := s.workers[w].hash;
    assert Flies(s, w, h) && PendingAt(s.cache, h);
    HeldUpdate(s.cache.entries, h, Ready(outcome));
    WaitersAfter(s.cache.entries, t.cache.entries, h, Ready(outcome));
    Landing(s, t, w, h);
    assert forall v, x, k :: Fetches(t, v, x, k) <==> Fetches(s, v, x, k);
    assert forall x, k :: Waits(t.cache, x, k) <==> Waits(s.cache, x, k);
    assert forall r :: r in s.issued && Accounted(s, r) ==> Accounted(t, r);
    assert forall k :: Distinct(WaitersAt(t.cache.entries, k));
    assert Requests(t);
    assert Answers(t);
  }

  /** A prefetch serves all of its waiters but, of two or more, the last. */
  lemma ServedOrStranded(waiters: seq<Request>)
    requires waiters != [] && Distinct(waiters)
    ensures Distinct(PrefetchServes(waiters))
    ensures forall x :: x in PrefetchServes(waiters) <==> x in waiters && (|waiters| >= 2 ==> x != Last(waiters))
  {
    var served := PrefetchServes(waiters);
    forall x
      ensures x in served <==> x in waiters && (|waiters| >= 2 ==> x != Last(waiters))
    {
      if x in waiters && (|waiters| >= 2 ==> x != Last(waiters)) {
        var i :| 0 <= i < |waiters| && waiters[i] == x;
        if i > 0 {
          assert served[i - 1] == x;
        } else {
          assert served[|served| - 1] == x;
        }
      }
      if x in served {
        var i :| 0 <= i < |served| && served[i] == x;
        assert x == if i < |served| - 1 then waiters[i + 1] else waiters[0];
      }
    }
  }

  lemma PrefetchDoneAwaited(cfg: Config, s: State, w: WorkerId, outcome: Outcome)
    requires Inv(s) && Enabled(cfg, s, PrefetchDone(w, outcome))
    requires WaitersAt(s.cache.entries, s.workers[w].hash) != []
    ensures Inv(Apply(cfg, s, PrefetchDone(w, outcome)))
  {
    var t := Apply(cfg, s, PrefetchDone(w, outcome));
    var h := s.workers[w].hash;
    var waiters := WaitersAt(s.cache.entries, h);
    assert Flies(s, w, h) && PendingAt(s.cache, h) && Distinct(waiters);
    HeldUpdate(s.cache.entries, h, Taken);
    WaitersAfter(s.cache.entries, t.cache.entries, h, Taken);
    Landing(s, t, w, h);
    PrefetchCloses(cfg, s, w, h, outcome);
    ServedOrStranded(waiters);
    assert forall x :: x in waiters ==> Waits(s.cache, x, h);
    DownloadAnswers(s, t, h, PrefetchServes(waiters), outcome, if |waiters| >= 2 then {Last(waiters)} else {});
  }

  lemma PrefetchCloses(cfg: Config, s: State, w: WorkerId, h: BlockHash, outcome: Outcome)
    requires SingleFlight(s) && Requests(s) && Enabled(cfg, s, PrefetchDone(w, outcome))
    requires h == s.workers[w].hash && PendingAt(s.cache, h) && WaitersAt(s.cache.entries, h) != []
    ensures Requests(Apply(cfg, s, PrefetchDone(w, outcome)))
  {
    var t := Apply(cfg, s, PrefetchDone(w, outcome));
    var waiters := WaitersAt(s.cache.entries, h);
    assert Flies(s, w, h);
    var served := PrefetchServes(waiters);
    var stranded := if |waiters| >= 2 then {Last(waiters)} else {};
    assert Distinct(waiters);
    ServedOrStranded(waiters);
    WaitersAfter(s.cache.entries, t.cache.entries, h, Taken);
    CompleteMany(s.cache.completions, served, outcome);
    forall v, x, k
      ensures Fetches(t, v, x, k) <==> Fetches(s, v, x, k) && k != h
    {
      if Fetches(s, v, x, k) && k == h {
        assert Flies(s, v, h);
      }
    }
    var answered := set x | x in served;
    RequestsClose(s, t, w, h, answered, stranded);
  }

  // ------------------------------------------------------------------- flushes

  /** Every block in flight has somebody waiting for it in its entry; in
      particular, nothing may be in flight. */
  ghost predicate FlushIsSafe(s: State) {
    forall w, h :: Flies(s, w, h) ==> WaitersAt(s.cache.entries, h) != []
  }

  lemma SafeFlushKeeps(cfg: Config, s: State, w: WorkerId)
    requires Inv(s) && Enabled(cfg, s, Flush(w)) && FlushIsSafe(s)
    ensures Inv(Apply(cfg, s, Flush(w)))
  {
    var t := Apply(cfg, s, Flush(w));
    assert forall k :: WaitersAt(t.cache.entries, k) == WaitersAt(s.cache.entries, k);
    assert forall v, h :: Flies(t, v, h) <==> Flies(s, v, h);
    assert forall v, x, k :: Fetches(t, v, x, k) <==> Fetches(s, v, x, k);
    assert forall x, k :: Waits(t.cache, x, k) <==> Waits(s.cache, x, k);
    HeldNothing(t.cache.entries);
    forall h
      ensures PendingAt(t.cache, h) <==> PendingAt(s.cache, h)
    {
      if PendingAt(s.cache, h) {
        var v :| Flies(s, v, h);
      }
    }
    SameFlightsKeep(s, t);
    assert forall r :: r in s.issued && Accounted(s, r) ==> Accounted(t, r);
    assert forall k :: Distinct(WaitersAt(s.cache.entries, k)) ==> Distinct(WaitersAt(t.cache.entries, k));
    assert Requests(t);
    assert Answers(t);
  }

  // ------------------------------------------------------------- whole runs

  ghost predicate Permitted(s: State, a: Action) {
    a.Flush? ==> FlushIsSafe(s)
  }

  lemma StepKeepsInv(cfg: Config, s: State, a: Action)
    requires Inv(s) && Enabled(cfg, s, a) && Permitted(s, a)
    ensures Inv(Apply(cfg, s, a))
  {
    match a {
      case Check(_) => TurnKeeps(cfg, s, a);
      case Turn(_) => TurnKeeps(cfg, s, a);
      case Fetch(w, r, h) =>
        if FetchBegun(s.cache, r, h).1 {
          FetchDownloads(cfg, s, w, r, h);
        } else if PendingAt(s.cache, h) {
          FetchWaits(cfg, s, w, r, h);
        } else {
          FetchServes(cfg, s, w, r, h);
        }
      case FetchDone(w, outcome) => FetchDoneKeeps(cfg, s, w, outcome);
      case Prefetch(w, h) => PrefetchKeeps(cfg, s, w, h);
      case PrefetchDone(w, outcome) =>
        if WaitersAt(s.cache.entries, s.workers[w].hash) == [] {
          PrefetchDoneUnawaited(cfg, s, w, outcome);
        } else {
          PrefetchDoneAwaited(cfg, s, w, outcome);
        }
      case Flush(w) => SafeFlushKeeps(cfg, s, w);
    }
  }

  ghost predicate Run(cfg: Config, tr: seq<State>, acts: seq<Action>) {
    && |tr| == |acts| + 1
    && Initial(tr[0])
    && (forall i :: 0 <= i < |acts| ==> Enabled(cfg, tr[i], acts[i]) && tr[i + 1] == Apply(cfg, tr[i], acts[i]))
  }

  ghost predicate FlushesSafely(tr: seq<State>, acts: seq<Action>)
    requires |tr| > |acts|
  {
    forall i :: 0 <= i < |acts| ==> Permitted(tr[i], acts[i])
  }

  lemma {:induction false} RunKeepsInv(cfg: Config, tr: seq<State>, acts: seq<Action>, n: nat)
    requires Run(cfg, tr, acts) && FlushesSafely(tr, acts) && n < |tr|
    ensures Inv(tr[n])
  {
    if n == 0 {
      InitialInv(tr[0]);
    } else {
      RunKeepsInv(cfg, tr, acts, n - 1);
      StepKeepsInv(cfg, tr[n - 1], acts[n - 1]);
    }
  }

  /** What a caller can see of a healthy cache: no block is downloaded twice at
      the same time, no nil entry has been dereferenced, and the prefetch memory
      is the summed size of the ready blocks. */
  ghost predicate Healthy(s: State) {
    && (forall w, v, h :: Flies(s, w, h) && Flies(s, v, h) ==> w == v)
    && !s.panicked
    && s.cache.memory == Held(s.cache.entries)
  }

  /** No interleaving ever downloads a block twice at the same time, and the
      prefetch memory is always the summed size of the ready blocks. */
  lemma OneDownloadPerBlock(cfg: Config, tr: seq<State>, acts: seq<Action>, n: nat)
    requires Run(cfg, tr, acts) && FlushesSafely(tr, acts) && n < |tr|
    ensures Healthy(tr[n])
  {
    RunKeepsInv(cfg, tr, acts, n);
  }

  // ------------------------------------------- what a flush may forget, exactly

  /** A run that goes on from state s, flushing safely. */
  ghost predicate GoesOn(cfg: Config, s: State, tr: seq<State>, acts: seq<Action>) {
    && |tr| == |acts| + 1 && tr[0] == s
    && (forall i :: 0 <= i < |acts| ==> Enabled(cfg, tr[i], acts[i]) && tr[i + 1] == Apply(cfg, tr[i], acts[i]))
    && FlushesSafely(tr, acts)
  }

  /** Whatever happens after s, the cache stays healthy. */
  ghost predicate StaysHealthy(cfg: Config, s: State) {
    forall tr, acts, n: nat :: GoesOn(cfg, s, tr, acts) && n < |tr| ==> Healthy(tr[n])
  }

  lemma {:induction false} GoingOnKeepsInv(cfg: Config, s: State, tr: seq<State>, acts: seq<Action>, n: nat)
    requires Inv(s) && GoesOn(cfg, s, tr, acts) && n < |tr|
    ensures Inv(tr[n])
  {
    if n > 0 {
      GoingOnKeepsInv(cfg, s, tr, acts, n - 1);
      StepKeepsInv(cfg, tr[n - 1], acts[n - 1]);
    }
  }

  lemma {:induction false} UnusedRequest(used: set<Request>) returns (r: Request)
    ensures forall x :: x in used ==> x < r
  {
    if used == {} {
      r := 0;
    } else {
      var x :| x in used;
      var y := UnusedRequest(used - {x});
      r := if x < y then y else x + 1;
      assert forall e :: e in used ==> e == x || e in used - {x};
    }
  }

  /** A flush removes every entry that nobody waits for, and so forgets a
      download in flight unless somebody else waits for its block. The cache
      stays healthy in every run that goes on from the flush exactly if there
      is no such download; otherwise one more request suffices to download a
      block twice at the same time. */
  lemma FlushIsHarmlessExactlyIfSafe(cfg: Config, s: State, w: WorkerId)
    requires Inv(s) && Enabled(cfg, s, Flush(w))
    ensures StaysHealthy(cfg, Apply(cfg, s, Flush(w))) <==> FlushIsSafe(s)
  {
    var t := Apply(cfg, s, Flush(w));
    if FlushIsSafe(s) {
      SafeFlushKeeps(cfg, s, w);
      forall tr, acts, n: nat | GoesOn(cfg, t, tr, acts) && n < |tr|
        ensures Healthy(tr[n])
      {
        GoingOnKeepsInv(cfg, t, tr, acts, n);
      }
    } else {
      var v, h :| Flies(s, v, h) && WaitersAt(s.cache.entries, h) == [];
      var r := UnusedRequest(s.issued.Keys);
      var a := Fetch(w, r, h);
      assert Flies(t, v, h) && h !in t.cache.entries;
      assert Enabled(cfg, t, a);
      var u := Apply(cfg, t, a);
      assert Flies(u, v, h) && Flies(u, w, h) && v != w;
      var tr, acts := [t, u], [a];
      assert GoesOn(cfg, t, tr, acts) && !Healthy(tr[1]);
    }
  }

  /** A forgotten fetch dereferences nil in its very next step. */
  lemma ForgottenFetchPanics(cfg: Config, s: State, w: WorkerId, v: WorkerId)
    requires Inv(s) && Enabled(cfg, s, Flush(w)) && v in s.workers && s.workers[v].Fetching?
    requires WaitersAt(s.cache.entries, s.workers[v].hash) == []
    ensures var t := Apply(cfg, s, Flush(w));
            Enabled(cfg, t, FetchDone(v, Error)) && Apply(cfg, t, FetchDone(v, Error)).panicked
  {
    assert Flies(s, v, s.workers[v].hash);
  }

  // ------------------------------------------------------------- leaked memory

  /** What is accounted for beyond the ready blocks. */
  ghost function Leaked(s: State): int {
    s.cache.memory - Held(s.cache.entries)
  }

  lemma StepKeepsLeaks(cfg: Config, s: State, a: Action)
    requires Enabled(cfg, s, a)
    ensures Leaked(s) <= Leaked(Apply(cfg, s, a))
    ensures a.Flush? ==> Apply(cfg, s, a).cache.memory == Leaked(s)
  {
    var entries := s.cache.entries;
    match a
    case Fetch(_, _, h) =>
      HeldUpdate(entries, h, Pending([]));
      HeldUpdate(entries, h, Taken);
      HeldUpdate(entries, h, Pending(WaitersAt(entries, h) + [a.r]));
    case FetchDone(w, outcome) => HeldUpdate(entries, s.workers[w].hash, Taken);
    case Prefetch(_, h) => HeldUpdate(entries, h, Pending([]));
    case PrefetchDone(w, outcome) =>
      HeldUpdate(entries, s.workers[w].hash, Taken);
      HeldUpdate(entries, s.workers[w].hash, Ready(outcome));
    case Flush(_) => HeldNothing(Waited(entries));
    case _ =>
  }

  /** In every run, however its flushes fall, memory that has once leaked stays
      leaked: a flush leaves exactly what has leaked accounted for, which is
      nothing if all flushes were safe, and once the limit has leaked no worker
      passes the check again. */
  lemma {:induction false} LeaksStay(cfg: Config, tr: seq<State>, acts: seq<Action>, m: nat, n: nat)
    requires Run(cfg, tr, acts) && m <= n < |tr|
    ensures Leaked(tr[m]) <= Leaked(tr[n])
    ensures n < |acts| && acts[n].Flush? ==> tr[n + 1].cache.memory == Leaked(tr[n])
    ensures FlushesSafely(tr, acts) ==> Leaked(tr[n]) == 0
    ensures n < |acts| && acts[n].Check? && Leaked(tr[m]) >= cfg.maxMemory ==> tr[n + 1].workers[acts[n].w].Throttled?
    decreases n - m
  {
    if m < n {
      LeaksStay(cfg, tr, acts, m, n - 1);
      StepKeepsLeaks(cfg, tr[n - 1], acts[n - 1]);
    }
    if n < |acts| {
      StepKeepsLeaks(cfg, tr[n], acts[n]);
    }
    if FlushesSafely(tr, acts) {
      RunKeepsInv(cfg, tr, acts, n);
    }
  }

  /** The request has been called back exactly once, with the outcome of a
      download of the block that it asked for. */
  ghost predicate AnsweredOnce(s: State, r: Request)
    requires r in s.issued
  {
    exists i :: 0 <= i < |s.cache.completions|
      && s.cache.completions[i].request == r
      && (s.issued[r], s.cache.completions[i].outcome) in s.results
      && (s.cache.completions[i].outcome.Block? ==> s.cache.completions[i].outcome.hash == s.issued[r])
      && (forall k :: 0 <= k < |s.cache.completions| && k != i ==> s.cache.completions[k].request != r)
  }

  lemma {:induction false} LostOnlyWhenStranded(cfg: Config, tr: seq<State>, acts: seq<Action>, n: nat)
    requires Run(cfg, tr, acts) && n < |tr|
    ensures tr[n].lost == {} <==> forall k :: 0 <= k < n ==> !Strands(tr[k], acts[k])
  {
    if n > 0 {
      LostOnlyWhenStranded(cfg, tr, acts, n - 1);
      assert tr[n] == Apply(cfg, tr[n - 1], acts[n - 1]);
    }
  }

  lemma NobodyWaits(s: State)
    requires SingleFlight(s) && forall w :: w in s.workers ==> !Busy(s.workers[w])
    ensures forall r, h :: !Waits(s.cache, r, h)
  {
    forall r, h
      ensures !Waits(s.cache, r, h)
    {
      assert !PendingAt(s.cache, h);
      assert WaitersAt(s.cache.entries, h) == [];
    }
  }

  /** Once no download is in flight every request has been answered exactly
      once, except those stranded by a prefetch. All of them have been answered
      exactly if no prefetch ever ended with two or more requests waiting. */
  lemma AllAnsweredExactlyIfNoneStranded(cfg: Config, tr: seq<State>, acts: seq<Action>, n: nat)
    requires Run(cfg, tr, acts) && FlushesSafely(tr, acts) && n < |tr|
    requires forall w :: w in tr[n].workers ==> !Busy(tr[n].workers[w])
    ensures forall r :: r in tr[n].issued ==> (AnsweredOnce(tr[n], r) <==> r !in tr[n].lost)
    ensures (forall r :: r in tr[n].issued ==> AnsweredOnce(tr[n], r)) <==>
            (forall k :: 0 <= k < n ==> !Strands(tr[k], acts[k]))
  {
    RunKeepsInv(cfg, tr, acts, n);
    LostOnlyWhenStranded(cfg, tr, acts, n);
    var s := tr[n];
    NobodyWaits(s);
    forall r | r in s.issued
      ensures AnsweredOnce(s, r) <==> r !in s.lost
    {
      if r !in s.lost {
        assert Accounted(s, r) && !Waits(s.cache, r, s.issued[r]);
        var i :| 0 <= i < |s.cache.completions| && s.cache.completions[i].request == r;
        assert Answered(s, s.cache.completions[i]);
      }
    }
  }

  // ------------------------------------------------------ the memory throttle

  predicate MayPrefetch(j: Job) {
    j.Armed? || j.Prefetching?
  }

  function Arms(workers: map<WorkerId, Job>): set<WorkerId> {
    set w | w in workers && MayPrefetch(workers[w])
  }

  /** What is held, plus a largest block for every worker that has passed the
      check, is below the limit plus a largest block for every worker. */
  ghost predicate Throttle(cfg: Config, s: State) {
    s.cache.memory + |Arms(s.workers)| * cfg.largestBlock < cfg.maxMemory + |s.workers| * cfg.largestBlock
  }

  lemma ArmsAfter(before: map<WorkerId, Job>, after: map<WorkerId, Job>, w: WorkerId)
    requires w in before && after.Keys == before.Keys
    requires forall v :: v in before && v != w ==> after[v] == before[v]
    ensures |Arms(after)| == |Arms(before)|
                             - (if MayPrefetch(before[w]) then 1 else 0) + (if MayPrefetch(after[w]) then 1 else 0)
    ensures |Arms(after)| <= |after| == |before|
  {
    var rest := Arms(before) - {w};
    assert Arms(before) == if MayPrefetch(before[w]) then rest + {w} else rest;
    assert Arms(after) == if MayPrefetch(after[w]) then rest + {w} else rest;
    assert Arms(after) <= after.Keys;
    SubsetFits(Arms(after), after.Keys);
    assert |after.Keys| == |after|;
  }

  lemma {:induction false} SubsetFits(a: set<WorkerId>, b: set<WorkerId>)
    requires a <= b
    ensures |a| <= |b|
  {
    if a != {} {
      var w :| w in a;
      SubsetFits(a - {w}, b - {w});
    }
  }

  lemma Products(a: nat, b: nat, size: nat)
    ensures a <= b ==> a * size <= b * size
    ensures (a + 1) * size == a * size + size
  {
  }

  lemma StepThrottles(cfg: Config, s: State, a: Action)
    requires Throttle(cfg, s) && Enabled(cfg, s, a)
    ensures Throttle(cfg, Apply(cfg, s, a))
  {
    var t := Apply(cfg, s, a);
    ArmsAfter(s.workers, t.workers, a.w);
    var before, after := |Arms(s.workers)|, |Arms(t.workers)|;
    Products(after, before, cfg.largestBlock);
    Products(after, |s.workers|, cfg.largestBlock);
    if after == before + 1 {
      assert a.Check?;
    } else if a.PrefetchDone? {
      assert before == after + 1;
    }
  }

  /** In every run, however its flushes fall, the prefetch memory stays below
      the limit plus one largest block per worker, although a worker checks the
      limit before it blocks and starts a prefetch only afterwards. */
  lemma {:induction false} PrefetchMemoryIsBounded(cfg: Config, tr: seq<State>, acts: seq<Action>, n: nat)
    requires Run(cfg, tr, acts) && n < |tr| && cfg.maxMemory > 0
    ensures Throttle(cfg, tr[n]) && |tr[n].workers| == |tr[0].workers|
    ensures tr[n].cache.memory < cfg.maxMemory + |tr[0].workers| * cfg.largestBlock
  {
    if n == 0 {
      assert Arms(tr[0].workers) == {};
      Products(0, |tr[0].workers|, cfg.largestBlock);
    } else {
      PrefetchMemoryIsBounded(cfg, tr, acts, n - 1);
      StepThrottles(cfg, tr[n - 1], acts[n - 1]);
      assert tr[n].workers.Keys == tr[n - 1].workers.Keys;
      assert |tr[n].workers.Keys| == |tr[n].workers| && |tr[n - 1].workers.Keys| == |tr[n - 1].workers|;
    }
    Products(0, |Arms(tr[n].workers)|, cfg.largestBlock);
  }

  // ------------------------------------------- what goes wrong, from the start

  function Fresh(workers: map<WorkerId, Job>): State {
    State(Cache(map[], 0, []), workers, map[], {}, {}, false)
  }

  ghost predicate Reaches(cfg: Config, tr: seq<State>, acts: seq<Action>, s: State) {
    Run(cfg, tr, acts) && tr[|tr| - 1] == s
  }

  lemma Extend(cfg: Config, tr: seq<State>, acts: seq<Action>, s: State, a: Action)
    returns (longer: seq<State>, more: seq<Action>)
    requires Reaches(cfg, tr, acts, s) && Enabled(cfg, s, a)
    ensures Reaches(cfg, longer, more, Apply(cfg, s, a)) && more == acts + [a]
  {
    longer, more := tr + [Apply(cfg, s, a)], acts + [a];
  }

  lemma PrefetchStarts(cfg: Config, h: BlockHash) returns (tr: seq<State>, acts: seq<Action>, s: State)
    requires cfg.maxMemory > 0
    ensures Reaches(cfg, tr, acts, s) && acts == [Check(0), Prefetch(0, h)]
    ensures s == State(Cache(map[h := Pending([])], 0, []), map[0 := Prefetching(h), 1 := Free], map[], {}, {}, false)
  {
    s := Fresh(map[0 := Free, 1 := Free]);
    tr, acts := [s], [];
    tr, acts := Extend(cfg, tr, acts, s, Check(0));
    s := Fresh(map[0 := Armed, 1 := Free]);
    tr, acts := Extend(cfg, tr, acts, s, Prefetch(0, h));
    s := State(Cache(map[h := Pending([])], 0, []), map[0 := Prefetching(h), 1 := Free], map[], {}, {}, false);
  }

  /** Worker 0 prefetches h and requests 1 and 2 wait for it. */
  lemma TwoWait(cfg: Config, h: BlockHash) returns (tr: seq<State>, acts: seq<Action>, s: State)
    requires cfg.maxMemory > 0
    ensures Reaches(cfg, tr, acts, s) && acts == [Check(0), Prefetch(0, h), Fetch(1, 1, h), Fetch(1, 2, h)]
    ensures s == State(Cache(map[h := Pending([1, 2])], 0, []), map[0 := Prefetching(h), 1 := Free],
                       map[1 := h, 2 := h], {}, {}, false)
  {
    tr, acts, s := PrefetchStarts(cfg, h);
    tr, acts := Extend(cfg, tr, acts, s, Fetch(1, 1, h));
    assert [] + [1] == [1] && s.workers[1 := Free] == s.workers;
    s := s.(cache := Cache(map[h := Pending([1])], 0, []), issued := map[1 := h]);
    tr, acts := Extend(cfg, tr, acts, s, Fetch(1, 2, h));
    assert [1] + [2] == [1, 2];
    s := s.(cache := Cache(map[h := Pending([1, 2])], 0, []), issued := map[1 := h, 2 := h]);
  }

  /** When the prefetch ends, the second of them is never called back: nothing
      is in flight any more, and it has no answer. */
  lemma SecondWaiterIsLost(cfg: Config, h: BlockHash, outcome: Outcome)
    returns (tr: seq<State>, acts: seq<Action>, s: State)
    requires cfg.maxMemory > 0 && CanEnd(cfg, h, outcome)
    ensures Reaches(cfg, tr, acts, s) && FlushesSafely(tr, acts)
    ensures acts == [Check(0), Prefetch(0, h), Fetch(1, 1, h), Fetch(1, 2, h), PrefetchDone(0, outcome)]
    ensures (forall w :: w in s.workers ==> s.workers[w] == Free) && s.cache.entries == map[h := Taken]
    ensures s.cache.completions == [Completion(1, outcome)] && s.issued == map[1 := h, 2 := h] && !AnsweredOnce(s, 2)
  {
    tr, acts, s := TwoWait(cfg, h);
    assert PrefetchServes([1, 2]) == [1];
    assert Complete([1], outcome) == [Completion(1, outcome)];
    tr, acts := Extend(cfg, tr, acts, s, PrefetchDone(0, outcome));
    s := Apply(cfg, s, PrefetchDone(0, outcome));
  }

  /** Worker 1 flushes while the only entry is that of worker 0's download. */
  lemma ExtendByFlush(cfg: Config, tr: seq<State>, acts: seq<Action>, s: State, h: BlockHash)
    returns (longer: seq<State>, more: seq<Action>)
    requires Reaches(cfg, tr, acts, s) && !s.panicked
    requires 1 in s.workers && s.workers[1].Free? && s.cache == Cache(map[h := Pending([])], 0, [])
    ensures Reaches(cfg, longer, more, s.(cache := Cache(map[], 0, []))) && more == acts + [Flush(1)]
  {
    HeldNothing(s.cache.entries);
    assert Waited(s.cache.entries) == map[] && s.workers[1 := Free] == s.workers;
    longer, more := Extend(cfg, tr, acts, s, Flush(1));
  }

  /** Worker 0 fetches block h for request 5; worker 1 flushes and downloads it
      a second time, for request 6. */
  lemma FetchedTwice(cfg: Config, h: BlockHash) returns (tr: seq<State>, acts: seq<Action>, s: State)
    ensures Reaches(cfg, tr, acts, s) && acts == [Fetch(0, 5, h), Flush(1), Fetch(1, 6, h)]
    ensures s == State(Cache(map[h := Pending([])], 0, []), map[0 := Fetching(h, 5), 1 := Fetching(h, 6)],
                       map[5 := h, 6 := h], {}, {}, false)
    ensures Flies(s, 0, h) && Flies(s, 1, h)
  {
    s := Fresh(map[0 := Free, 1 := Free]);
    tr, acts := [s], [];
    tr, acts := Extend(cfg, tr, acts, s, Fetch(0, 5, h));
    s := s.(cache := Cache(map[h := Pending([])], 0, []), workers := map[0 := Fetching(h, 5), 1 := Free],
            issued := map[5 := h]);
    tr, acts := ExtendByFlush(cfg, tr, acts, s, h);
    s := s.(cache := Cache(map[], 0, []));
    tr, acts := Extend(cfg, tr, acts, s, Fetch(1, 6, h));
    s := s.(cache := Cache(map[h := Pending([])], 0, []), workers := map[0 := Fetching(h, 5), 1 := Fetching(h, 6)],
            issued := map[5 := h, 6 := h]);
  }

  /** If worker 1 ends first, worker 0 drops the answer to request 5 as a
      duplicate: nothing is in flight any more, and it has no answer. */
  lemma ForgottenFetchLosesAnswer(cfg: Config, h: BlockHash, outcome: Outcome)
    returns (tr: seq<State>, acts: seq<Action>, s: State)
    requires CanEnd(cfg, h, outcome)
    ensures Reaches(cfg, tr, acts, s)
    ensures acts == [Fetch(0, 5, h), Flush(1), Fetch(1, 6, h), FetchDone(1, outcome), FetchDone(0, outcome)]
    ensures (forall w :: w in s.workers ==> s.workers[w] == Free) && s.cache.entries == map[h := Taken]
    ensures s.cache.completions == [Completion(6, outcome)] && 5 in s.issued && !AnsweredOnce(s, 5)
  {
    tr, acts, s := FetchedTwice(cfg, h);
    tr, acts := Extend(cfg, tr, acts, s, FetchDone(1, outcome));
    assert [] + [6] == [6] && [] + Complete([6], outcome) == [Completion(6, outcome)];
    s := s.(cache := Cache(map[h := Taken], 0, [Completion(6, outcome)]), results := {(h, outcome)},
            workers := map[0 := Fetching(h, 5), 1 := Free]);
    tr, acts := Extend(cfg, tr, acts, s, FetchDone(0, outcome));
    s := s.(workers := map[0 := Free, 1 := Free]);
  }

  /** Worker 0 prefetches h and worker 1 flushes. */
  lemma PrefetchIsForgotten(cfg: Config, h: BlockHash) returns (tr: seq<State>, acts: seq<Action>, s: State)
    requires cfg.maxMemory > 0
    ensures Reaches(cfg, tr, acts, s) && acts == [Check(0), Prefetch(0, h), Flush(1)]
    ensures s == State(Cache(map[], 0, []), map[0 := Prefetching(h), 1 := Free], map[], {}, {}, false)
  {
    tr, acts, s := PrefetchStarts(cfg, h);
    tr, acts := ExtendByFlush(cfg, tr, acts, s, h);
    s := s.(cache := Cache(map[], 0, []));
  }

  /** Then worker 1 fetches h, for request 5. */
  lemma ForgottenPrefetch(cfg: Config, h: BlockHash) returns (tr: seq<State>, acts: seq<Action>, s: State)
    requires cfg.maxMemory > 0
    ensures Reaches(cfg, tr, acts, s) && acts == [Check(0), Prefetch(0, h), Flush(1), Fetch(1, 5, h)]
    ensures s == State(Cache(map[h := Pending([])], 0, []), map[0 := Prefetching(h), 1 := Fetching(h, 5)],
                       map[5 := h], {}, {}, false)
  {
    tr, acts, s := PrefetchIsForgotten(cfg, h);
    tr, acts := Extend(cfg, tr, acts, s, Fetch(1, 5, h));
    s := s.(cache := Cache(map[h := Pending([])], 0, []), workers := map[0 := Prefetching(h), 1 := Fetching(h, 5)],
            issued := map[5 := h]);
  }

  /** The prefetched block is put where the fetch expects its own entry, and the
      fetch drops it. */
  lemma ForgottenPrefetchIsDropped(cfg: Config, h: BlockHash, size: nat)
    returns (tr: seq<State>, acts: seq<Action>, s: State)
    requires cfg.maxMemory > 0 && size <= cfg.largestBlock
    ensures Reaches(cfg, tr, acts, s)
    ensures acts == [Check(0), Prefetch(0, h), Flush(1), Fetch(1, 5, h), PrefetchDone(0, Block(h, size)),
                     FetchDone(1, Block(h, size))]
    ensures s == State(Cache(map[h := Taken], size, [Completion(5, Block(h, size))]), map[0 := Free, 1 := Free],
                       map[5 := h], {(h, Block(h, size))}, {}, false)
  {
    var block := Block(h, size);
    tr, acts, s := ForgottenPrefetch(cfg, h);
    tr, acts := Extend(cfg, tr, acts, s, PrefetchDone(0, block));
    s := s.(cache := Cache(map[h := Ready(block)], size, []), workers := map[0 := Free, 1 := Fetching(h, 5)],
            results := {(h, block)});
    tr, acts := Extend(cfg, tr, acts, s, FetchDone(1, block));
    assert [] + [5] == [5] && [] + Complete([5], block) == [Completion(5, block)];
    s := s.(cache := Cache(map[h := Taken], size, [Completion(5, block)]), workers := map[0 := Free, 1 := Free]);
  }

  /** After another flush nothing is in flight or ready, and the block's memory
      is still accounted for. */
  lemma ForgottenPrefetchLeaks(cfg: Config, h: BlockHash, size: nat)
    returns (tr: seq<State>, acts: seq<Action>, s: State)
    requires cfg.maxMemory > 0 && size <= cfg.largestBlock
    ensures Reaches(cfg, tr, acts, s)
    ensures acts == [Check(0), Prefetch(0, h), Flush(1), Fetch(1, 5, h), PrefetchDone(0, Block(h, size)),
                     FetchDone(1, Block(h, size)), Flush(1)]
    ensures (forall w :: w in s.workers ==> s.workers[w] == Free) && s.cache.entries == map[]
    ensures s.cache.memory == Leaked(s) == size
  {
    tr, acts, s := ForgottenPrefetchIsDropped(cfg, h, size);
    HeldNothing(s.cache.entries);
    assert Waited(s.cache.entries) == map[];
    tr, acts := Extend(cfg, tr, acts, s, Flush(1));
    s := Apply(cfg, s, Flush(1));
    HeldNothing(s.cache.entries);
  }
}
