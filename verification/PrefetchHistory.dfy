/** What the cache does for a caller, said in terms of the steps that went
    before and not of the cache's entries: which fetch downloads, waits or is
    served at once, which prefetch downloads, and who is called back at the end
    of a download. All runs flush safely. */
module PrefetchHistory {
  import opened StoreIndexes
  import opened Options
  import opened PrefetchCache
  import opened PrefetchWorkers

  ghost predicate SafeRun(cfg: Config, tr: seq<State>, acts: seq<Action>) {
    Run(cfg, tr, acts) && FlushesSafely(tr, acts)
  }

  ghost predicate InFlight(s: State, h: BlockHash) {
    exists w :: Flies(s, w, h)
  }

  /** Every request for block h has been answered or lost. */
  ghost predicate NobodyAsks(s: State, h: BlockHash) {
    forall r :: r in s.issued && s.issued[r] == h ==> Completed(s.cache, r) || r in s.lost
  }

  /** In step m a prefetch of block h ended while nobody was waiting for it. */
  ghost predicate EndsUnclaimed(tr: seq<State>, acts: seq<Action>, m: nat, h: BlockHash, outcome: Outcome) {
    && m < |acts| < |tr| && acts[m].PrefetchDone? && acts[m].outcome == outcome
    && acts[m].w in tr[m].workers && tr[m].workers[acts[m].w] == Prefetching(h)
    && NobodyAsks(tr[m], h)
  }

  predicate FetchesOrFlushes(a: Action, h: BlockHash) {
    a.Flush? || (a.Fetch? && a.h == h)
  }

  /** Such a prefetch ended before moment n, and since then block h has been
      neither fetched nor flushed. */
  ghost predicate Unclaimed(tr: seq<State>, acts: seq<Action>, n: nat, h: BlockHash, outcome: Outcome) {
    exists m :: 0 <= m < n && EndsUnclaimed(tr, acts, m, h, outcome) && UntouchedSince(acts, m, n, h)
  }

  predicate UntouchedSince(acts: seq<Action>, m: nat, n: nat, h: BlockHash) {
    forall k :: m < k < n && k < |acts| ==> !FetchesOrFlushes(acts[k], h)
  }

  ghost predicate ReadyAt(s: State, h: BlockHash, outcome: Outcome) {
    h in s.cache.entries && s.cache.entries[h] == Ready(outcome)
  }

  lemma NobodyAsksExactly(s: State, w: WorkerId, h: BlockHash)
    requires Inv(s) && w in s.workers && s.workers[w] == Prefetching(h)
    ensures WaitersAt(s.cache.entries, h) == [] <==> NobodyAsks(s, h)
  {
    assert Flies(s, w, h);
    if WaitersAt(s.cache.entries, h) == [] {
      forall r | r in s.issued && s.issued[r] == h
        ensures Completed(s.cache, r) || r in s.lost
      {
        assert Accounted(s, r) && !Waits(s.cache, r, h);
        if v :| Fetches(s, v, r, h) {
          assert Flies(s, v, h);
        }
      }
    } else {
      var r := WaitersAt(s.cache.entries, h)[0];
      assert Waits(s.cache, r, h) && Open(s, r, h);
    }
  }

  /** One step keeps, ends or makes a ready entry. */
  lemma ReadyStep(cfg: Config, s: State, a: Action, h: BlockHash, outcome: Outcome)
    requires Inv(s) && Enabled(cfg, s, a) && Permitted(s, a)
    ensures ReadyAt(Apply(cfg, s, a), h, outcome) <==>
            || (a.PrefetchDone? && a.outcome == outcome && s.workers[a.w] == Prefetching(h) && NobodyAsks(s, h))
            || (ReadyAt(s, h, outcome) && !FetchesOrFlushes(a, h))
  {
    if a.PrefetchDone? {
      var k := s.workers[a.w].hash;
      assert Flies(s, a.w, k) && PendingAt(s.cache, k);
      NobodyAsksExactly(s, a.w, k);
    } else if a.FetchDone? {
      var k := s.workers[a.w].hash;
      assert Flies(s, a.w, k) && PendingAt(s.cache, k);
    }
  }

  lemma UnclaimedStep(tr: seq<State>, acts: seq<Action>, n: nat, h: BlockHash, outcome: Outcome)
    requires n < |acts| < |tr|
    ensures Unclaimed(tr, acts, n + 1, h, outcome) <==>
            || EndsUnclaimed(tr, acts, n, h, outcome)
            || (Unclaimed(tr, acts, n, h, outcome) && !FetchesOrFlushes(acts[n], h))
  {
    if EndsUnclaimed(tr, acts, n, h, outcome) {
      assert UntouchedSince(acts, n, n + 1, h);
    }
    if Unclaimed(tr, acts, n, h, outcome) && !FetchesOrFlushes(acts[n], h) {
      var m :| 0 <= m < n && EndsUnclaimed(tr, acts, m, h, outcome) && UntouchedSince(acts, m, n, h);
      assert UntouchedSince(acts, m, n + 1, h);
    }
    if Unclaimed(tr, acts, n + 1, h, outcome) {
      var m :| 0 <= m < n + 1 && EndsUnclaimed(tr, acts, m, h, outcome) && UntouchedSince(acts, m, n + 1, h);
      if m < n {
        assert UntouchedSince(acts, m, n, h);
      }
    }
  }

  /** The cache holds a block ready exactly if a prefetch of it has ended with
      nobody waiting and it has been neither fetched nor flushed since. */
  lemma {:induction false} ReadyExactly(
      cfg: Config, tr: seq<State>, acts: seq<Action>, n: nat, h: BlockHash, outcome: Outcome)
    requires SafeRun(cfg, tr, acts) && n < |tr|
    ensures ReadyAt(tr[n], h, outcome) <==> Unclaimed(tr, acts, n, h, outcome)
  {
    if n > 0 {
      ReadyExactly(cfg, tr, acts, n - 1, h, outcome);
      RunKeepsInv(cfg, tr, acts, n - 1);
      ReadyStep(cfg, tr[n - 1], acts[n - 1], h, outcome);
      UnclaimedStep(tr, acts, n - 1, h, outcome);
    }
  }

  lemma PendingExactly(s: State, h: BlockHash)
    requires Inv(s)
    ensures PendingAt(s.cache, h) <==> InFlight(s, h)
  {
    if w :| Flies(s, w, h) {
      assert PendingAt(s.cache, h);
    }
  }

  /** A prefetched block is downloaded once until it is handed out or flushed. */
  lemma UnclaimedIsNotDownloaded(
      cfg: Config, tr: seq<State>, acts: seq<Action>, n: nat, h: BlockHash, outcome: Outcome)
    requires SafeRun(cfg, tr, acts) && n < |tr| && Unclaimed(tr, acts, n, h, outcome)
    ensures !InFlight(tr[n], h)
  {
    ReadyExactly(cfg, tr, acts, n, h, outcome);
    RunKeepsInv(cfg, tr, acts, n);
    PendingExactly(tr[n], h);
  }

  lemma NobodyTakesOff(s: State, t: State, w: WorkerId, h: BlockHash)
    requires t.workers == s.workers[w := Free]
    ensures InFlight(t, h) ==> InFlight(s, h)
  {
    if v :| Flies(t, v, h) {
      assert Flies(s, v, h);
    }
  }

  /** A request for a prefetched block is called back at once with the outcome of
      that prefetch, and nothing is downloaded; a request for a block in flight
      waits; any other request downloads. */
  lemma FetchIsServedExactly(
      cfg: Config, tr: seq<State>, acts: seq<Action>, n: nat, w: WorkerId, r: Request, h: BlockHash, outcome: Outcome)
    requires SafeRun(cfg, tr, acts) && n < |acts| && acts[n] == Fetch(w, r, h)
    ensures Unclaimed(tr, acts, n, h, outcome) ==>
              && tr[n + 1].cache.completions == tr[n].cache.completions + [Completion(r, outcome)]
              && !InFlight(tr[n + 1], h) && tr[n + 1].workers[w] == Free
    ensures InFlight(tr[n], h) ==>
              && tr[n + 1].cache.completions == tr[n].cache.completions
              && tr[n + 1].workers[w] == Free
    ensures !InFlight(tr[n], h) && (forall o :: !Unclaimed(tr, acts, n, h, o)) ==>
              && tr[n + 1].cache.completions == tr[n].cache.completions
              && tr[n + 1].workers[w] == Fetching(h, r)
  {
    RunKeepsInv(cfg, tr, acts, n);
    PendingExactly(tr[n], h);
    ReadyExactly(cfg, tr, acts, n, h, outcome);
    if Unclaimed(tr, acts, n, h, outcome) {
      UnclaimedIsNotDownloaded(cfg, tr, acts, n, h, outcome);
      NobodyTakesOff(tr[n], tr[n + 1], w, h);
    }
    if h in tr[n].cache.entries && tr[n].cache.entries[h].Ready? {
      ReadyExactly(cfg, tr, acts, n, h, tr[n].cache.entries[h].outcome);
    }
  }

  // ------------------------------------------------- which prefetch downloads

  predicate Names(a: Action, h: BlockHash) {
    (a.Fetch? || a.Prefetch?) && a.h == h
  }

  /** From k on, every flush found a download of block h in flight. */
  ghost predicate SpannedSince(tr: seq<State>, acts: seq<Action>, k: nat, n: nat, h: BlockHash)
    requires n <= |acts| < |tr|
  {
    forall j :: k < j < n && acts[j].Flush? ==> InFlight(tr[j], h)
  }

  /** The block has been fetched or prefetched, and no flush has forgotten it. */
  ghost predicate Known(tr: seq<State>, acts: seq<Action>, n: nat, h: BlockHash)
    requires n <= |acts| < |tr|
  {
    exists k :: 0 <= k < n && Names(acts[k], h) && SpannedSince(tr, acts, k, n, h)
  }

  lemma KnownStep(tr: seq<State>, acts: seq<Action>, n: nat, h: BlockHash)
    requires n < |acts| < |tr|
    ensures Known(tr, acts, n + 1, h) <==>
            Names(acts[n], h) || (Known(tr, acts, n, h) && (acts[n].Flush? ==> InFlight(tr[n], h)))
  {
    if Names(acts[n], h) {
      assert SpannedSince(tr, acts, n, n + 1, h);
    }
    if Known(tr, acts, n, h) && (acts[n].Flush? ==> InFlight(tr[n], h)) {
      var k :| 0 <= k < n && Names(acts[k], h) && SpannedSince(tr, acts, k, n, h);
      assert SpannedSince(tr, acts, k, n + 1, h);
    }
    if Known(tr, acts, n + 1, h) {
      var k :| 0 <= k < n + 1 && Names(acts[k], h) && SpannedSince(tr, acts, k, n + 1, h);
      if k < n {
        assert SpannedSince(tr, acts, k, n, h);
      }
    }
  }

  lemma EntryStep(cfg: Config, s: State, a: Action, h: BlockHash)
    requires Inv(s) && Enabled(cfg, s, a) && Permitted(s, a)
    ensures h in Apply(cfg, s, a).cache.entries <==>
            Names(a, h) || (h in s.cache.entries && (a.Flush? ==> InFlight(s, h)))
  {
    PendingExactly(s, h);
    if a.FetchDone? || a.PrefetchDone? {
      var k := s.workers[a.w].hash;
      assert Flies(s, a.w, k) && PendingAt(s.cache, k);
    }
  }

  lemma EntryAt(cfg: Config, tr: seq<State>, acts: seq<Action>, n: nat, h: BlockHash)
    requires SafeRun(cfg, tr, acts) && n < |acts|
    ensures h in tr[n + 1].cache.entries <==>
            Names(acts[n], h) || (h in tr[n].cache.entries && (acts[n].Flush? ==> InFlight(tr[n], h)))
  {
    RunKeepsInv(cfg, tr, acts, n);
    EntryStep(cfg, tr[n], acts[n], h);
  }

  lemma {:induction false} EntriesAreKnown(cfg: Config, tr: seq<State>, acts: seq<Action>, n: nat, h: BlockHash)
    requires SafeRun(cfg, tr, acts) && n < |tr|
    ensures h in tr[n].cache.entries <==> Known(tr, acts, n, h)
  {
    if n > 0 {
      EntriesAreKnown(cfg, tr, acts, n - 1, h);
      EntryAt(cfg, tr, acts, n - 1, h);
      KnownStep(tr, acts, n - 1, h);
    }
  }

  /** A worker may prefetch exactly if the unclaimed blocks together are below
      the limit; a prefetch then downloads exactly if the block is not known. */
  lemma PrefetchDownloadsExactly(cfg: Config, tr: seq<State>, acts: seq<Action>, n: nat)
    requires SafeRun(cfg, tr, acts) && n < |acts|
    ensures acts[n].Check? ==>
              (tr[n + 1].workers[acts[n].w] == Armed <==> Held(tr[n].cache.entries) < cfg.maxMemory)
    ensures acts[n].Prefetch? ==>
              && tr[n + 1].workers[acts[n].w] ==
                 (if Known(tr, acts, n, acts[n].h) then Free else Prefetching(acts[n].h))
              && tr[n + 1].cache.completions == tr[n].cache.completions
  {
    RunKeepsInv(cfg, tr, acts, n);
    if acts[n].Prefetch? {
      EntriesAreKnown(cfg, tr, acts, n, acts[n].h);
    }
  }

  // -------------------------------------------- who is called back at the end

  /** The requests for block h of the steps from m up to n, in order. */
  function Asked(acts: seq<Action>, m: nat, n: nat, h: BlockHash): seq<Request>
    requires m <= n <= |acts|
  {
    if m == n then []
    else Asked(acts, m, n - 1, h) + (if AsksFor(acts[n - 1], h) then [acts[n - 1].r] else [])
  }

  predicate AsksFor(a: Action, h: BlockHash) {
    a.Fetch? && a.h == h
  }

  /** In step m worker w took off for block h, and has not landed at moment n. */
  ghost predicate TookOff(tr: seq<State>, acts: seq<Action>, m: nat, n: nat, w: WorkerId, h: BlockHash) {
    && m < n <= |acts| < |tr|
    && !Flies(tr[m], w, h) && forall k :: m < k <= n ==> Flies(tr[k], w, h)
  }

  lemma WaitersStep(cfg: Config, s: State, a: Action, w: WorkerId, h: BlockHash)
    requires Inv(s) && Enabled(cfg, s, a) && Permitted(s, a) && Flies(Apply(cfg, s, a), w, h)
    ensures WaitersAt(Apply(cfg, s, a).cache.entries, h) ==
            if !Flies(s, w, h) then []
            else WaitersAt(s.cache.entries, h) + (if AsksFor(a, h) then [a.r] else [])
  {
    PendingExactly(s, h);
    if a.FetchDone? || a.PrefetchDone? {
      var k := s.workers[a.w].hash;
      assert Flies(s, a.w, k) && PendingAt(s.cache, k);
    }
  }

  lemma JobStep(cfg: Config, s: State, a: Action, w: WorkerId, h: BlockHash)
    requires Enabled(cfg, s, a) && Flies(Apply(cfg, s, a), w, h) && !Apply(cfg, s, a).panicked
    ensures Apply(cfg, s, a).workers[w] ==
            if Flies(s, w, h) then s.workers[w] else if AsksFor(a, h) then Fetching(h, a.r) else Prefetching(h)
  {
  }

  lemma WaitersGrow(cfg: Config, tr: seq<State>, acts: seq<Action>, n: nat, w: WorkerId, h: BlockHash)
    requires SafeRun(cfg, tr, acts) && n < |acts| && Flies(tr[n + 1], w, h)
    ensures WaitersAt(tr[n + 1].cache.entries, h) ==
            if !Flies(tr[n], w, h) then []
            else WaitersAt(tr[n].cache.entries, h) + (if AsksFor(acts[n], h) then [acts[n].r] else [])
  {
    RunKeepsInv(cfg, tr, acts, n);
    WaitersStep(cfg, tr[n], acts[n], w, h);
  }

  lemma JobStays(cfg: Config, tr: seq<State>, acts: seq<Action>, n: nat, w: WorkerId, h: BlockHash)
    requires SafeRun(cfg, tr, acts) && n < |acts| && Flies(tr[n + 1], w, h)
    ensures tr[n + 1].workers[w] ==
            if Flies(tr[n], w, h) then tr[n].workers[w]
            else if AsksFor(acts[n], h) then Fetching(h, acts[n].r) else Prefetching(h)
  {
    OneDownloadPerBlock(cfg, tr, acts, n + 1);
    JobStep(cfg, tr[n], acts[n], w, h);
  }

  lemma {:induction false} AskedGrows(waiters: seq<seq<Request>>, acts: seq<Action>, m: nat, n: nat, h: BlockHash)
    requires m <= n <= |acts| && n < |waiters| && waiters[m] == []
    requires forall k :: m <= k < n ==>
               waiters[k + 1] == waiters[k] + (if AsksFor(acts[k], h) then [acts[k].r] else [])
    ensures waiters[n] == Asked(acts, m, n, h)
    decreases n
  {
    if m < n {
      AskedGrows(waiters, acts, m, n - 1, h);
      assert waiters[n - 1 + 1] == waiters[n - 1] + (if AsksFor(acts[n - 1], h) then [acts[n - 1].r] else []);
    }
  }

  /** Whoever has asked for a block since its download took off is waiting. */
  lemma WaitersAskedSince(
      cfg: Config, tr: seq<State>, acts: seq<Action>, m: nat, n: nat, w: WorkerId, h: BlockHash)
    requires SafeRun(cfg, tr, acts) && TookOff(tr, acts, m, n, w, h)
    ensures WaitersAt(tr[n].cache.entries, h) == Asked(acts, m + 1, n, h)
  {
    var waiters := seq(|tr|, k requires 0 <= k < |tr| => WaitersAt(tr[k].cache.entries, h));
    assert Flies(tr[m + 1], w, h);
    WaitersGrow(cfg, tr, acts, m, w, h);
    forall k | m + 1 <= k < n
      ensures waiters[k + 1] == waiters[k] + (if AsksFor(acts[k], h) then [acts[k].r] else [])
    {
      assert Flies(tr[k], w, h) && Flies(tr[k + 1], w, h);
      WaitersGrow(cfg, tr, acts, k, w, h);
    }
    AskedGrows(waiters, acts, m + 1, n, h);
  }

  lemma {:induction false} JobSince(
      cfg: Config, tr: seq<State>, acts: seq<Action>, m: nat, n: nat, w: WorkerId, h: BlockHash)
    requires SafeRun(cfg, tr, acts) && TookOff(tr, acts, m, n, w, h)
    ensures Flies(tr[n], w, h)
    ensures tr[n].workers[w] == if AsksFor(acts[m], h) then Fetching(h, acts[m].r) else Prefetching(h)
    decreases n
  {
    assert Flies(tr[n], w, h);
    JobStays(cfg, tr, acts, n - 1, w, h);
    if m + 1 < n {
      assert TookOff(tr, acts, m, n - 1, w, h);
      JobSince(cfg, tr, acts, m, n - 1, w, h);
    }
  }

  /** The calls made in step n are those for these requests, with this outcome. */
  ghost predicate CallsBack(tr: seq<State>, n: nat, requests: seq<Request>, outcome: Outcome)
    requires n + 1 < |tr|
  {
    var before, after := tr[n].cache.completions, tr[n + 1].cache.completions;
    && |after| == |before| + |requests| && after[..|before|] == before
    && forall i :: 0 <= i < |requests| ==> after[|before| + i] == Completion(requests[i], outcome)
  }

  lemma LandingStep(cfg: Config, s: State, a: Action, h: BlockHash)
    requires Inv(s) && Enabled(cfg, s, a) && Flies(s, a.w, h) && (a.FetchDone? || a.PrefetchDone?)
    ensures Apply(cfg, s, a).cache.completions ==
            s.cache.completions + Complete(Called(s, a, WaitersAt(s.cache.entries, h)), a.outcome)
  {
    assert PendingAt(s.cache, h);
  }

  /** Whom the step calls back, of those who asked. */
  function Called(s: State, a: Action, asked: seq<Request>): seq<Request>
    requires a.w in s.workers && Busy(s.workers[a.w]) && (a.FetchDone? ==> s.workers[a.w].Fetching?)
  {
    if a.FetchDone? then asked + [s.workers[a.w].request]
    else if |asked| <= 1 then asked
    else asked[1..|asked| - 1] + [asked[0]]
  }

  lemma LandingAt(cfg: Config, tr: seq<State>, acts: seq<Action>, n: nat, h: BlockHash)
    requires SafeRun(cfg, tr, acts) && n < |acts| && Flies(tr[n], acts[n].w, h)
    requires acts[n].FetchDone? || acts[n].PrefetchDone?
    ensures acts[n].FetchDone? ==> tr[n].workers[acts[n].w].Fetching?
    ensures CallsBack(tr, n, Called(tr[n], acts[n], WaitersAt(tr[n].cache.entries, h)), acts[n].outcome)
  {
    RunKeepsInv(cfg, tr, acts, n);
    LandingStep(cfg, tr[n], acts[n], h);
  }

  lemma CalledIs(s: State, a: Action, asked: seq<Request>, first: seq<Request>)
    requires a.w in s.workers && Busy(s.workers[a.w]) && (a.FetchDone? || a.PrefetchDone?)
    requires a.FetchDone? ==> s.workers[a.w].Fetching? && first == [s.workers[a.w].request]
    ensures Called(s, a, asked) ==
            if a.FetchDone? then asked + first
            else if |asked| <= 1 then asked
            else asked[1..|asked| - 1] + [asked[0]]
  {
  }

  lemma AskedOnce(acts: seq<Action>, m: nat, h: BlockHash)
    requires m < |acts|
    ensures Asked(acts, m, m + 1, h) == if AsksFor(acts[m], h) then [acts[m].r] else []
  {
    assert Asked(acts, m, m, h) == [];
  }

  /** The end of a fetch calls back everybody who asked during the download, in
      order, and the request that started it. The end of a prefetch calls back the
      only one who asked, or all but the last, the first one at the end. */
  lemma LandingCallsBackExactly(
      cfg: Config, tr: seq<State>, acts: seq<Action>, m: nat, n: nat, w: WorkerId, h: BlockHash, outcome: Outcome)
    requires SafeRun(cfg, tr, acts) && TookOff(tr, acts, m, n, w, h) && n < |acts|
    requires acts[n] == FetchDone(w, outcome) || acts[n] == PrefetchDone(w, outcome)
    ensures var asked := Asked(acts, m + 1, n, h);
            CallsBack(tr, n, if acts[n].FetchDone? then asked + Asked(acts, m, m + 1, h)
                             else if |asked| <= 1 then asked
                             else asked[1..|asked| - 1] + [asked[0]], outcome)
  {
    JobSince(cfg, tr, acts, m, n, w, h);
    LandingAt(cfg, tr, acts, n, h);
    WaitersAskedSince(cfg, tr, acts, m, n, w, h);
    AskedOnce(acts, m, h);
    CalledIs(tr[n], acts[n], Asked(acts, m + 1, n, h), Asked(acts, m, m + 1, h));
  }
}
