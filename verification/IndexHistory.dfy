/** What a session's flushes, queries and closing promise over whole runs in
    which nothing prunes, said in terms of the steps that went before. */
module IndexHistory {
  import opened StoreIndexes
  import opened Options
  import opened IndexPipeline

  ghost predicate PruneFreeRun(tr: seq<State>, acts: seq<Action>) {
    Run(tr, acts) && PruneFree(acts)
  }

  lemma TrackedAt(tr: seq<State>, acts: seq<Action>, n: nat, i: SessionId)
    requires PruneFreeRun(tr, acts) && n < |tr| && i in tr[n].sessions
    ensures Tracked(tr[n], tr[n].sessions[i])
  {
    RunTracks(tr, acts, n);
  }

  // ---------------------------------------------------------------- one step

  lemma StepAt(tr: seq<State>, acts: seq<Action>, n: nat) returns (s: State, a: Action, t: State)
    requires Run(tr, acts) && n < |acts|
    ensures s == tr[n] && a == acts[n] && t == tr[n + 1] && Enabled(s, a) && t == Apply(s, a)
  {
    s, a, t := tr[n], acts[n], tr[n + 1];
  }

  lemma OthersStay(s: State, a: Action, t: State, i: SessionId)
    requires Enabled(s, a) && t == Apply(s, a) && a.i != i
    ensures i in t.sessions <==> i in s.sessions
    ensures i in s.sessions ==> t.sessions[i] == s.sessions[i]
  {
    SessionsChange(s, a, t);
  }

  /** A step changes no session but its own. */
  lemma SessionsChange(s: State, a: Action, t: State)
    requires Enabled(s, a) && t == Apply(s, a)
    ensures a.i in t.sessions && t.sessions == s.sessions[a.i := t.sessions[a.i]]
  {
  }

  predicate IsPut(a: Action) {
    a.PutStart? || a.PutProbe? || a.PutWrite? || a.PutAnnounce? || a.PutAck? || a.PutFail?
  }

  lemma AccessStaysInPut(s: State, a: Action, t: State)
    requires Enabled(s, a) && t == Apply(s, a) && a.i in s.sessions && IsPut(a)
    ensures a.i in t.sessions && t.sessions[a.i].access == s.sessions[a.i].access
  {
  }

  lemma AccessStays(s: State, a: Action, t: State)
    requires Enabled(s, a) && t == Apply(s, a) && a.i in s.sessions
    ensures a.i in t.sessions && t.sessions[a.i].access == s.sessions[a.i].access
  {
    if IsPut(a) {
      AccessStaysInPut(s, a, t);
    }
  }

  lemma QueueStays(s: State, a: Action, t: State)
    requires Enabled(s, a) && t == Apply(s, a) && a.i in s.sessions && !a.PutAnnounce? && !a.Receive?
    ensures var x, y := s.sessions[a.i], t.sessions[a.i];
            y.queue == x.queue && y.announced == x.announced && y.received == x.received
  {
  }

  // ------------------------------------------------------------- the channel

  /** What the step adds to the channel of session i. */
  ghost function AnnouncedBy(s: State, a: Action, i: SessionId): seq<BlockHash>
    requires Enabled(s, a)
  {
    if a.PutAnnounce? && a.i == i then [s.sessions[i].puts[a.w].h] else []
  }

  /** The blocks that session i announces in the first n steps, in order. */
  ghost function Announcements(tr: seq<State>, acts: seq<Action>, i: SessionId, n: nat): seq<BlockHash>
    requires Run(tr, acts) && n <= |acts|
  {
    if n == 0 then [] else Announcements(tr, acts, i, n - 1) + AnnouncedBy(tr[n - 1], acts[n - 1], i)
  }

  /** How many of them the index worker has received. */
  function Receipts(acts: seq<Action>, i: SessionId, n: nat): nat
    requires n <= |acts|
  {
    if n == 0 then 0 else Receipts(acts, i, n - 1) + if acts[n - 1] == Receive(i) then 1 else 0
  }

  ghost predicate Channel(x: Session, announced: seq<BlockHash>, receipts: nat) {
    && receipts <= |announced| && x.queue == announced[receipts..]
    && x.received == Elements(announced[..receipts]) && x.announced == Elements(announced)
  }

  lemma ChannelReceives(x: Session, announced: seq<BlockHash>, receipts: nat)
    requires Channel(x, announced, receipts) && x.queue != []
    ensures Channel(Received(x), announced, receipts + 1)
  {
    assert announced[..receipts + 1] == announced[..receipts] + [x.queue[0]];
  }

  lemma ChannelAnnounces(x: Session, y: Session, announced: seq<BlockHash>, receipts: nat, h: BlockHash)
    requires Channel(x, announced, receipts)
    requires y.queue == x.queue + [h] && y.announced == x.announced + {h} && y.received == x.received
    ensures Channel(y, announced + [h], receipts)
  {
    assert (announced + [h])[receipts..] == announced[receipts..] + [h];
    assert (announced + [h])[..receipts] == announced[..receipts];
  }

  lemma ChannelStep(s: State, a: Action, t: State, i: SessionId, announced: seq<BlockHash>, receipts: nat)
    requires Enabled(s, a) && t == Apply(s, a) && i in s.sessions && Channel(s.sessions[i], announced, receipts)
    ensures i in t.sessions
    ensures Channel(t.sessions[i], announced + AnnouncedBy(s, a, i), receipts + if a == Receive(i) then 1 else 0)
  {
    assert announced + [] == announced;
    if a.i != i {
      OthersStay(s, a, t, i);
    } else if a.PutAnnounce? {
      ChannelAnnounces(s.sessions[i], t.sessions[i], announced, receipts, s.sessions[i].puts[a.w].h);
    } else if a.Receive? {
      ChannelReceives(s.sessions[i], announced, receipts);
    } else {
      AccessStays(s, a, t);
      QueueStays(s, a, t);
    }
  }

  lemma ChannelOpens(s: State, a: Action, t: State, i: SessionId)
    requires Enabled(s, a) && t == Apply(s, a) && i !in s.sessions
    ensures AnnouncedBy(s, a, i) == [] && a != Receive(i)
    ensures i in t.sessions ==> Channel(t.sessions[i], [], 0)
  {
    if a.i != i {
      OthersStay(s, a, t, i);
    }
  }

  ghost predicate ChannelAt(tr: seq<State>, acts: seq<Action>, n: nat, i: SessionId)
    requires Run(tr, acts) && n < |tr|
  {
    var announced, receipts := Announcements(tr, acts, i, n), Receipts(acts, i, n);
    if i in tr[n].sessions then Channel(tr[n].sessions[i], announced, receipts)
    else announced == [] && receipts == 0
  }

  /** The index worker receives the announced blocks in the order in which they
      were announced, each once. */
  lemma {:induction false} ChannelIsFifo(tr: seq<State>, acts: seq<Action>, n: nat, i: SessionId)
    requires Run(tr, acts) && n < |tr|
    ensures ChannelAt(tr, acts, n, i)
  {
    if n > 0 {
      ChannelIsFifo(tr, acts, n - 1, i);
      ChannelGoesOn(tr, acts, n - 1, i);
    }
  }

  lemma ChannelGoesOn(tr: seq<State>, acts: seq<Action>, n: nat, i: SessionId)
    requires Run(tr, acts) && n < |acts| && ChannelAt(tr, acts, n, i)
    ensures ChannelAt(tr, acts, n + 1, i)
  {
    var s, a, t := StepAt(tr, acts, n);
    if i in s.sessions {
      ChannelStep(s, a, t, i, Announcements(tr, acts, i, n), Receipts(acts, i, n));
    } else {
      ChannelOpens(s, a, t, i);
    }
  }

  // ----------------------------------------------------------------- flushes

  /** In step n a flush of session i replies that nothing went wrong. */
  ghost predicate RepliesWell(tr: seq<State>, acts: seq<Action>, n: nat, i: SessionId)
    requires Run(tr, acts) && n < |acts|
  {
    && i in tr[n].sessions && i in tr[n + 1].sessions
    && (|| (acts[n] == FlushStart(i) && tr[n].sessions[i].err.NoError? && tr[n + 1].sessions[i].phase.Idle?)
        || (acts[n].FlushEnd? && acts[n].i == i && acts[n].ok))
  }

  /** The blocks that session i's index worker has received in the first n steps. */
  ghost function ReceivedBlocks(tr: seq<State>, acts: seq<Action>, i: SessionId, n: nat): Index
    requires Run(tr, acts) && n <= |acts|
  {
    set k | 0 <= k < Receipts(acts, i, n) && k < |Announcements(tr, acts, i, n)| :: Announcements(tr, acts, i, n)[k]
  }

  lemma ReceivedExactly(tr: seq<State>, acts: seq<Action>, n: nat, i: SessionId)
    requires Run(tr, acts) && n < |tr| && i in tr[n].sessions
    ensures tr[n].sessions[i].received == ReceivedBlocks(tr, acts, i, n)
  {
    ChannelIsFifo(tr, acts, n, i);
    var announced, receipts := Announcements(tr, acts, i, n), Receipts(acts, i, n);
    assert forall h :: h in announced[..receipts] <==> exists k :: 0 <= k < receipts && announced[k] == h;
  }

  lemma WellRepliedStep(s: State, a: Action, t: State, i: SessionId)
    requires Enabled(s, a) && t == Apply(s, a) && i in s.sessions && Tracked(s, s.sessions[i])
    requires s.sessions[i].access != ReadOnly && i in t.sessions
    requires || (a == FlushStart(i) && s.sessions[i].err.NoError? && t.sessions[i].phase.Idle?)
             || (a.FlushEnd? && a.i == i && a.ok)
    ensures s.sessions[i].received <= t.remote && t.sessions[i].added == {}
  {
  }

  /** A flush of a writing session that replies without an error has published
      every block that the session received, in this flush or before, and leaves
      nothing pending. */
  lemma FlushPublishes(tr: seq<State>, acts: seq<Action>, n: nat, i: SessionId)
    requires PruneFreeRun(tr, acts) && n < |acts| && RepliesWell(tr, acts, n, i)
    requires tr[n].sessions[i].access != ReadOnly
    ensures ReceivedBlocks(tr, acts, i, n) <= tr[n + 1].remote
    ensures i in tr[n + 1].sessions && tr[n + 1].sessions[i].added == {}
  {
    TrackedAt(tr, acts, n, i);
    ReceivedExactly(tr, acts, n, i);
    var s, a, t := StepAt(tr, acts, n);
    AccessStays(s, a, t);
    WellRepliedStep(s, a, t, i);
  }

  // ----------------------------------------------------------------- queries

  /** Session i loads the index in step m and keeps one in memory up to moment n. */
  ghost predicate LoadedSince(tr: seq<State>, acts: seq<Action>, m: nat, n: nat, i: SessionId)
    requires Run(tr, acts)
  {
    && m < n < |tr| && acts[m] == Load(i, NoError) && tr[m].sessions[i].cached.None?
    && forall k :: m < k <= n ==> Caches(tr[k], i)
  }

  ghost predicate Caches(s: State, i: SessionId) {
    i in s.sessions && s.sessions[i].cached.Some?
  }

  /** What is in memory, and what an add in progress starts from, holds the index
      as it was when it was loaded, and nothing that is not in the remote index;
      a read-only session holds just that. */
  ghost predicate Current(s: State, i: SessionId, access: Access, loaded: Index) {
    && Caches(s, i)
    && var x := s.sessions[i];
       && x.access == access
       && loaded <= x.cached.value <= s.remote
       && (x.phase.Flushing? || x.phase.LastAdd? ==> loaded <= x.phase.base)
       && (access == ReadOnly ==> x.cached.value == loaded && OnlyReads(x))
  }

  lemma LoadMakesCurrent(s: State, t: State, i: SessionId)
    requires Enabled(s, Load(i, NoError)) && t == Apply(s, Load(i, NoError))
    requires s.sessions[i].cached.None? && FirstFlushIsSound(s)
    requires s.sessions[i].access == ReadOnly ==> OnlyReads(s.sessions[i])
    ensures Current(t, i, s.sessions[i].access, t.remote)
    ensures s.sessions[i].access == ReadOnly ==> t.remote == s.remote
  {
  }

  lemma StepKeepsCurrent(s: State, a: Action, t: State, i: SessionId, access: Access, loaded: Index)
    requires Enabled(s, a) && t == Apply(s, a) && !a.PruneStart?
    requires i in s.sessions && Tracked(s, s.sessions[i]) && s.remote <= t.remote
    requires Current(s, i, access, loaded) && Caches(t, i)
    ensures Current(t, i, access, loaded)
  {
    if a.i != i {
      OthersStay(s, a, t, i);
    } else {
      AccessStays(s, a, t);
    }
  }

  lemma OnlyPrunesShrink(s: State, a: Action, t: State)
    requires Enabled(s, a) && t == Apply(s, a)
    ensures a.PruneIndex? || s.remote <= t.remote
  {
  }

  lemma StepGrows(s: State, a: Action, t: State)
    requires Enabled(s, a) && t == Apply(s, a) && AllTracked(s)
    ensures s.remote <= t.remote
  {
    OnlyPrunesShrink(s, a, t);
    if a.PruneIndex? {
      assert Tracked(s, s.sessions[a.i]) && Prunes(s.sessions[a.i]);
    }
  }

  lemma StepKeepsPassive(s: State, a: Action, t: State, i: SessionId)
    requires Enabled(s, a) && t == Apply(s, a) && i in t.sessions && t.sessions[i].access == ReadOnly
    requires i in s.sessions && s.sessions[i].access == ReadOnly ==> OnlyReads(s.sessions[i])
    ensures OnlyReads(t.sessions[i])
  {
    if a.i != i {
      OthersStay(s, a, t, i);
    } else if i in s.sessions {
      AccessStays(s, a, t);
    }
  }

  lemma {:induction false} ReadersArePassive(tr: seq<State>, acts: seq<Action>, n: nat, i: SessionId)
    requires Run(tr, acts) && n < |tr|
    ensures i in tr[n].sessions && tr[n].sessions[i].access == ReadOnly ==> OnlyReads(tr[n].sessions[i])
  {
    if n > 0 {
      ReadersArePassive(tr, acts, n - 1, i);
      var s, a, t := StepAt(tr, acts, n - 1);
      if i in t.sessions && t.sessions[i].access == ReadOnly {
        StepKeepsPassive(s, a, t, i);
      }
    }
  }

  lemma LoadedAt(tr: seq<State>, acts: seq<Action>, m: nat, i: SessionId)
    requires PruneFreeRun(tr, acts) && m < |acts| && acts[m] == Load(i, NoError)
    requires i in tr[m].sessions && tr[m].sessions[i].cached.None?
    ensures Current(tr[m + 1], i, tr[m].sessions[i].access, tr[m + 1].remote)
    ensures tr[m].sessions[i].access == ReadOnly ==> tr[m + 1].remote == tr[m].remote
  {
    var s, a, t := StepAt(tr, acts, m);
    RunKeepsFirstFlushSound(tr, acts, m);
    ReadersArePassive(tr, acts, m, i);
    LoadMakesCurrent(s, t, i);
  }

  lemma CurrentAt(tr: seq<State>, acts: seq<Action>, n: nat, i: SessionId, access: Access, loaded: Index)
    requires PruneFreeRun(tr, acts) && n < |acts| && Current(tr[n], i, access, loaded) && Caches(tr[n + 1], i)
    ensures Current(tr[n + 1], i, access, loaded)
  {
    var s, a, t := StepAt(tr, acts, n);
    RunTracks(tr, acts, n);
    StepGrows(s, a, t);
    assert Tracked(s, s.sessions[i]);
    StepKeepsCurrent(s, a, t, i, access, loaded);
  }

  lemma {:induction false} KeptFrom(holds: seq<bool>, m: nat, n: nat)
    requires m <= n < |holds| && holds[m]
    requires forall k :: m <= k < n ==> (holds[k] ==> holds[k + 1])
    ensures holds[n]
    decreases n
  {
    if m < n {
      KeptFrom(holds, m, n - 1);
      assert holds[n - 1] ==> holds[n - 1 + 1];
    }
  }

  lemma StaysCurrent(tr: seq<State>, acts: seq<Action>, m: nat, n: nat, i: SessionId)
    requires PruneFreeRun(tr, acts) && LoadedSince(tr, acts, m, n, i)
    ensures Current(tr[n], i, tr[m].sessions[i].access, tr[m + 1].remote)
  {
    var access, loaded := tr[m].sessions[i].access, tr[m + 1].remote;
    var holds := seq(|tr|, k requires 0 <= k < |tr| => Current(tr[k], i, access, loaded));
    LoadedAt(tr, acts, m, i);
    forall k | m + 1 <= k < n
      ensures holds[k] ==> holds[k + 1]
    {
      if holds[k] {
        assert Caches(tr[k + 1], i);
        CurrentAt(tr, acts, k, i, access, loaded);
      }
    }
    KeptFrom(holds, m + 1, n);
  }

  /** The index that answers a session's queries lists everything that the remote
      index listed when it was loaded and everything pending, and nothing that
      is neither in the remote index nor pending. A read-only session answers
      with just the remote index as it was loaded. */
  lemma QueriesAreCurrent(tr: seq<State>, acts: seq<Action>, m: nat, n: nat, i: SessionId)
    requires PruneFreeRun(tr, acts) && LoadedSince(tr, acts, m, n, i)
    ensures i in tr[n].sessions
    ensures var x := tr[n].sessions[i];
            && tr[m + 1].remote + x.added <= View(x) <= tr[n].remote + x.added
            && (x.access == ReadOnly ==> View(x) == tr[m].remote)
  {
    StaysCurrent(tr, acts, m, n, i);
    LoadedAt(tr, acts, m, i);
  }

  // ----------------------------------------------------------------- closing

  /** In step m the session's index worker ends with an index error, or its last
      add fails. */
  ghost predicate EndsBadly(tr: seq<State>, acts: seq<Action>, m: nat, i: SessionId)
    requires Run(tr, acts) && m < |acts|
  {
    || (acts[m] == Finish(i) && tr[m].sessions[i].err.OtherError?)
    || acts[m] == FinishAdd(i, false)
  }

  lemma StaysOpen(s: State, a: Action, t: State, i: SessionId)
    requires Enabled(s, a) && t == Apply(s, a) && a.i == i && i in s.sessions && !a.Finish? && !a.FinishAdd?
    ensures i in t.sessions && (t.sessions[i].phase == Closed(false) <==> s.sessions[i].phase == Closed(false))
  {
  }

  lemma ClosingStep(s: State, a: Action, t: State, i: SessionId)
    requires Enabled(s, a) && t == Apply(s, a) && a.i == i && i in s.sessions
    ensures i in t.sessions
    ensures t.sessions[i].phase == Closed(false) <==>
            || s.sessions[i].phase == Closed(false)
            || (a == Finish(i) && s.sessions[i].err.OtherError?)
            || a == FinishAdd(i, false)
  {
    if !a.Finish? && !a.FinishAdd? {
      StaysOpen(s, a, t, i);
    }
  }

  ghost predicate ClosedBadly(s: State, i: SessionId) {
    i in s.sessions && s.sessions[i].phase == Closed(false)
  }

  lemma ClosingAt(tr: seq<State>, acts: seq<Action>, n: nat, i: SessionId)
    requires Run(tr, acts) && n < |acts|
    ensures ClosedBadly(tr[n + 1], i) <==> ClosedBadly(tr[n], i) || EndsBadly(tr, acts, n, i)
  {
    var s, a, t := StepAt(tr, acts, n);
    if a.i != i {
      OthersStay(s, a, t, i);
    } else if i in s.sessions {
      ClosingStep(s, a, t, i);
    }
  }

  /** Where bad[n] is what makes closed true from n + 1 on. */
  lemma {:induction false} ClosedSince(closed: seq<bool>, bad: seq<bool>, n: nat)
    requires |closed| == |bad| + 1 && n <= |bad| && !closed[0]
    requires forall k :: 0 <= k < |bad| ==> (closed[k + 1] <==> closed[k] || bad[k])
    ensures closed[n] <==> exists m :: 0 <= m < n && bad[m]
  {
    if n > 0 {
      ClosedSince(closed, bad, n - 1);
      assert closed[n - 1 + 1] <==> closed[n - 1] || bad[n - 1];
    }
  }

  /** A session closes with an error exactly if its index worker ended with one
      or its last add failed. */
  lemma ClosesBadlyExactly(tr: seq<State>, acts: seq<Action>, n: nat, i: SessionId)
    requires Run(tr, acts) && n < |tr|
    ensures ClosedBadly(tr[n], i) <==> exists m :: 0 <= m < n && EndsBadly(tr, acts, m, i)
  {
    var closed := seq(|tr|, k requires 0 <= k < |tr| => ClosedBadly(tr[k], i));
    var bad := seq(|acts|, k requires 0 <= k < |acts| => EndsBadly(tr, acts, k, i));
    forall k | 0 <= k < |acts|
      ensures closed[k + 1] <==> closed[k] || bad[k]
    {
      ClosingAt(tr, acts, k, i);
    }
    ClosedSince(closed, bad, n);
    assert forall m :: 0 <= m < n ==> (bad[m] <==> EndsBadly(tr, acts, m, i));
  }
}
