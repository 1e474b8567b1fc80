/** The worker pool that deletes unused blocks. Each worker borrows a client,
    deletes one object, sends its result on one channel and hands the client
    back on another, so the main loop may pair one worker's result with another
    worker's client. Free clients are kept in `slots[active..]`. */
module BlockDeletion {

  /** `broken(i)`: deleting the i-th object fails. A dry run deletes nothing
      and cannot fail. */
  datatype Job = Job(workers: nat, names: seq<string>, dryRun: bool, broken: nat -> bool)

  function ClientCount(j: Job): nat {
    if j.workers > |j.names| then |j.names| else j.workers
  }

  predicate Fails(j: Job, i: nat) {
    !j.dryRun && j.broken(i)
  }

  predicate Deletes(j: Job, i: nat) {
    !j.dryRun && !j.broken(i)
  }

  /** What to do after taking a client. */
  datatype Back = ToLaunch | ToPoll | ToDrain

  /** TakingClient: the result of deletion i has been received, and the loop
      waits for a client. */
  datatype Phase = Admitting | Launching | Polling | Draining | Returned | TakingClient(i: nat, back: Back)

  /** `holders` maps each unfinished worker to its client; `sent` are those of
      them that have sent their result. `deletions` logs the deletions made. */
  datatype State = State(
    phase: Phase, next: nat, active: int, slots: seq<nat>, holders: map<nat, nat>, sent: set<nat>,
    results: seq<nat>, returned: seq<nat>, deletions: seq<nat>, err: bool)

  datatype Action = Delete(i: nat) | HandBack(i: nat) | Admit | TakeClient | Launch | Poll | Drain

  function LoopHead(j: Job, s: State): State {
    s.(phase := if s.err || s.next >= |j.names| then Draining else Admitting)
  }

  function Initial(j: Job): State {
    LoopHead(j, State(Admitting, 0, 0, seq(ClientCount(j), (i: nat) => i), map[], {}, [], [], [], false))
  }

  predicate Running(s: State, i: nat) {
    i in s.holders && i !in s.sent
  }

  predicate Enabled(j: Job, s: State, a: Action) {
    match a
    case Delete(i) => Running(s, i)
    case HandBack(i) => i in s.holders && i in s.sent
    case Admit => s.phase.Admitting? && (s.active == ClientCount(j) ==> s.results != [])
    case TakeClient => s.phase.TakingClient? && s.returned != [] && 1 <= s.active <= |s.slots|
    case Launch => s.phase.Launching? && 0 <= s.active < |s.slots|
    case Poll => s.phase.Polling?
    case Drain => s.phase.Draining? && (s.active > 0 ==> s.results != [])
  }

  function TakeResult(s: State, back: Back): State
    requires s.results != []
  {
    s.(phase := TakingClient(s.results[0], back), results := s.results[1..])
  }

  function PhaseAfter(back: Back, failed: bool): Phase {
    match back
    case ToLaunch => if failed then Draining else Launching
    case ToPoll => Polling
    case ToDrain => Draining
  }

  function Apply(j: Job, s: State, a: Action): State
    requires Enabled(j, s, a)
  {
    match a
    case Delete(i) =>
      s.(sent := s.sent + {i},
         results := s.results + [i],
         deletions := if Deletes(j, i) then s.deletions + [i] else s.deletions)
    case HandBack(i) =>
      s.(holders := s.holders - {i}, sent := s.sent - {i}, returned := s.returned + [s.holders[i]])
    case Admit =>
      if s.active == ClientCount(j) then TakeResult(s, ToLaunch) else s.(phase := Launching)
    case TakeClient =>
      s.(phase := PhaseAfter(s.phase.back, Fails(j, s.phase.i)),
         active := s.active - 1,
         slots := s.slots[s.active - 1 := s.returned[0]],
         returned := s.returned[1..],
         err := s.err || Fails(j, s.phase.i))
    case Launch =>
      s.(phase := Polling,
         next := s.next + 1,
         active := s.active + 1,
         holders := s.holders[s.next := s.slots[s.active]])
    case Poll => if s.active > 0 && s.results != [] then TakeResult(s, ToPoll) else LoopHead(j, s)
    case Drain => if s.active > 0 then TakeResult(s, ToDrain) else s.(phase := Returned)
  }

  ghost predicate Run(j: Job, tr: seq<State>, acts: seq<Action>) {
    && |tr| == |acts| + 1 && tr[0] == Initial(j)
    && forall k :: 0 <= k < |acts| ==> Enabled(j, tr[k], acts[k]) && tr[k + 1] == Apply(j, tr[k], acts[k])
  }

  function Last(tr: seq<State>): State
    requires tr != []
  {
    tr[|tr| - 1]
  }

  // ---------------------------------------------------------------- clients

  predicate Distinct(q: seq<nat>) {
    forall x, y :: 0 <= x < y < |q| ==> q[x] != q[y]
  }

  predicate Injective(m: map<nat, nat>) {
    forall x, y :: x in m && y in m && x != y ==> m[x] != m[y]
  }

  /** Each of the n clients is in exactly one place, once: free, held by one
      worker, or on its way back. */
  ghost predicate Placed(free: seq<nat>, held: map<nat, nat>, back: seq<nat>, n: nat) {
    && Distinct(free) && Distinct(back) && Injective(held)
    && (forall c: nat :: c < n <==> c in free || c in held.Values || c in back)
    && (forall c :: c in free ==> c !in held.Values && c !in back)
    && (forall c :: c in back ==> c !in held.Values)
  }

  ghost predicate ClientsInv(j: Job, s: State) {
    && |s.slots| == ClientCount(j) && 0 <= s.active <= |s.slots|
    && Placed(s.slots[s.active..], s.holders, s.returned, ClientCount(j))
    && s.active == |s.holders| + |s.returned|
  }

  lemma HoldersAfterLaunch(held: map<nat, nat>, i: nat, c: nat)
    requires i !in held
    ensures held[i := c].Values == held.Values + {c} && |held[i := c]| == |held| + 1
  {
    var more := held[i := c];
    assert more[i] == c;
    assert forall k :: k in held ==> more[k] == held[k];
    assert more.Keys == held.Keys + {i};
    assert |held| == |held.Keys| && |more| == |more.Keys|;
  }

  lemma HoldersAfterHandBack(held: map<nat, nat>, i: nat)
    requires i in held && Injective(held)
    ensures (held - {i}).Values == held.Values - {held[i]} && |held - {i}| == |held| - 1
  {
    var fewer := held - {i};
    assert forall k :: k in fewer ==> fewer[k] == held[k] != held[i];
    forall c | c in held.Values - {held[i]}
      ensures c in fewer.Values
    {
      var k :| k in held && held[k] == c;
      assert k in fewer && fewer[k] == c;
    }
    assert fewer.Keys == held.Keys - {i};
    assert |held| == |held.Keys| && |fewer| == |fewer.Keys|;
  }

  lemma FirstOff(q: seq<nat>)
    requires Distinct(q) && q != []
    ensures Distinct(q[1..]) && q[0] !in q[1..] && forall x :: x in q <==> x == q[0] || x in q[1..]
  {
    assert q == [q[0]] + q[1..];
  }

  lemma PlacedAfterLaunch(free: seq<nat>, held: map<nat, nat>, back: seq<nat>, n: nat, i: nat)
    requires Placed(free, held, back, n) && free != [] && i !in held
    ensures Placed(free[1..], held[i := free[0]], back, n)
  {
    FirstOff(free);
    HoldersAfterLaunch(held, i, free[0]);
    BorrowedByOne(held, i, free[0]);
  }

  lemma BorrowedByOne(held: map<nat, nat>, i: nat, c: nat)
    requires Injective(held) && i !in held && c !in held.Values
    ensures Injective(held[i := c])
  {
    assert forall k :: k in held ==> held[k] in held.Values;
  }

  lemma PlacedAfterHandBack(free: seq<nat>, held: map<nat, nat>, back: seq<nat>, n: nat, i: nat)
    requires Placed(free, held, back, n) && i in held
    ensures Placed(free, held - {i}, back + [held[i]], n)
  {
    HoldersAfterHandBack(held, i);
    assert held[i] in held.Values;
  }

  lemma PlacedAfterTake(free: seq<nat>, held: map<nat, nat>, back: seq<nat>, n: nat)
    requires Placed(free, held, back, n) && back != []
    ensures Placed([back[0]] + free, held, back[1..], n)
  {
    var c := back[0];
    FirstOff(back);
    assert c in back && c !in free;
    assert forall x :: x in [c] + free <==> x == c || x in free;
  }

  lemma LaunchKeepsClients(j: Job, s: State)
    requires ClientsInv(j, s) && Enabled(j, s, Launch) && s.next !in s.holders
    ensures ClientsInv(j, Apply(j, s, Launch))
  {
    var free := s.slots[s.active..];
    assert free[0] == s.slots[s.active] && free[1..] == s.slots[s.active + 1..];
    PlacedAfterLaunch(free, s.holders, s.returned, ClientCount(j), s.next);
    HoldersAfterLaunch(s.holders, s.next, free[0]);
  }

  lemma HandBackKeepsClients(j: Job, s: State, i: nat)
    requires ClientsInv(j, s) && Enabled(j, s, HandBack(i))
    ensures ClientsInv(j, Apply(j, s, HandBack(i)))
  {
    PlacedAfterHandBack(s.slots[s.active..], s.holders, s.returned, ClientCount(j), i);
    HoldersAfterHandBack(s.holders, i);
  }

  lemma TakeKeepsClients(j: Job, s: State)
    requires ClientsInv(j, s) && Enabled(j, s, TakeClient)
    ensures ClientsInv(j, Apply(j, s, TakeClient))
  {
    var t := Apply(j, s, TakeClient);
    assert t.slots[t.active..] == [s.returned[0]] + s.slots[s.active..];
    PlacedAfterTake(s.slots[s.active..], s.holders, s.returned, ClientCount(j));
  }

  // ------------------------------------------------------------------- jobs

  predicate Taking(s: State, i: nat) {
    s.phase.TakingClient? && s.phase.i == i
  }

  /** Deletion i was launched and its result has been received in full. */
  predicate Settled(s: State, i: nat) {
    i < s.next && !Running(s, i) && i !in s.results && !Taking(s, i)
  }

  ghost predicate JobsInv(j: Job, s: State) {
    && (forall i :: i in s.holders ==> i < s.next) && s.sent <= s.holders.Keys
    && Distinct(s.results) && (forall i :: i in s.results ==> i < s.next && !Running(s, i) && !Taking(s, i))
    && (s.phase.TakingClient? ==> s.phase.i < s.next && !Running(s, s.phase.i))
    && Distinct(s.deletions)
    && (forall i: nat :: i in s.deletions <==> i < s.next && !Running(s, i) && Deletes(j, i))
    && (s.err <==> exists i :: Settled(s, i) && Fails(j, i))
  }

  /** A worker whose result is outstanding holds a place in `active`. */
  predicate CountInv(s: State) {
    |s.holders| - |s.sent| + |s.results| + (if s.phase.TakingClient? then 1 else 0) == s.active
  }

  predicate PhaseInv(j: Job, s: State) {
    && s.next <= |j.names|
    && (s.phase.Admitting? || s.phase.Launching? ==> s.next < |j.names| && !s.err)
    && (s.phase.Launching? ==> s.active < ClientCount(j))
    && (s.phase.TakingClient? && s.phase.back.ToLaunch? ==> s.next < |j.names| && !s.err)
    && (s.phase.Draining? || s.phase.Returned? ==> s.err || s.next == |j.names|)
    && (s.phase.TakingClient? && s.phase.back.ToDrain? ==> s.err || s.next == |j.names|)
    && (s.phase.Returned? ==> s.active == 0)
  }

  ghost predicate Inv(j: Job, s: State) {
    ClientsInv(j, s) && JobsInv(j, s) && CountInv(s) && PhaseInv(j, s)
  }

  lemma SameSettled(j: Job, s: State, t: State)
    requires forall i :: Settled(s, i) <==> Settled(t, i)
    ensures (exists i :: Settled(s, i) && Fails(j, i)) <==> (exists i :: Settled(t, i) && Fails(j, i))
  {}

  lemma InitialInv(j: Job)
    ensures Inv(j, Initial(j))
  {
    var s := Initial(j);
    assert s.slots[0..] == s.slots;
    forall c: nat | c < ClientCount(j)
      ensures c in s.slots
    {
      assert s.slots[c] == c;
    }
    assert forall i :: !Settled(s, i);
  }

  lemma DeleteKeepsJobs(j: Job, s: State, i: nat)
    requires JobsInv(j, s) && CountInv(s) && Enabled(j, s, Delete(i))
    ensures JobsInv(j, Apply(j, s, Delete(i))) && CountInv(Apply(j, s, Delete(i)))
  {
    var t := Apply(j, s, Delete(i));
    assert forall k :: Running(t, k) <==> Running(s, k) && k != i;
    assert i !in s.results && i !in s.deletions;
    assert forall k :: k in t.results <==> k in s.results || k == i;
    assert forall k :: Settled(s, k) <==> Settled(t, k);
    SameSettled(j, s, t);
    assert |t.sent| == |s.sent| + 1;
  }

  lemma HandBackKeepsJobs(j: Job, s: State, i: nat)
    requires JobsInv(j, s) && CountInv(s) && Injective(s.holders) && Enabled(j, s, HandBack(i))
    ensures JobsInv(j, Apply(j, s, HandBack(i))) && CountInv(Apply(j, s, HandBack(i)))
  {
    var t := Apply(j, s, HandBack(i));
    HoldersAfterHandBack(s.holders, i);
    assert forall k :: Running(t, k) <==> Running(s, k);
    assert forall k :: Settled(s, k) <==> Settled(t, k);
    SameSettled(j, s, t);
    assert |t.sent| == |s.sent| - 1;
  }

  lemma LaunchKeepsJobs(j: Job, s: State)
    requires JobsInv(j, s) && CountInv(s) && Enabled(j, s, Launch)
    ensures JobsInv(j, Apply(j, s, Launch)) && CountInv(Apply(j, s, Launch))
  {
    var t := Apply(j, s, Launch);
    HoldersAfterLaunch(s.holders, s.next, s.slots[s.active]);
    assert s.next !in s.sent;
    assert forall k :: Running(t, k) <==> Running(s, k) || k == s.next;
    assert forall k :: Settled(s, k) <==> Settled(t, k);
    SameSettled(j, s, t);
  }

  lemma TakeResultKeepsJobs(j: Job, s: State, back: Back)
    requires JobsInv(j, s) && CountInv(s) && s.results != [] && !s.phase.TakingClient?
    ensures JobsInv(j, TakeResult(s, back)) && CountInv(TakeResult(s, back))
  {
    var t := TakeResult(s, back);
    assert s.results == [s.results[0]] + t.results && s.results[0] in s.results;
    assert forall k :: k in s.results <==> k in t.results || k == s.results[0];
    assert forall k :: Settled(s, k) <==> Settled(t, k);
    SameSettled(j, s, t);
  }

  lemma TakeClientKeepsJobs(j: Job, s: State)
    requires JobsInv(j, s) && CountInv(s) && Enabled(j, s, TakeClient)
    ensures JobsInv(j, Apply(j, s, TakeClient)) && CountInv(Apply(j, s, TakeClient))
  {
    var t := Apply(j, s, TakeClient);
    var i := s.phase.i;
    assert forall k :: Running(t, k) <==> Running(s, k);
    assert i !in s.results;
    assert forall k :: Settled(t, k) <==> Settled(s, k) || k == i;
    if s.err {
      var k :| Settled(s, k) && Fails(j, k);
      assert Settled(t, k);
    }
  }

  lemma PhaseKeepsJobs(j: Job, s: State, p: Phase)
    requires JobsInv(j, s) && CountInv(s) && !s.phase.TakingClient? && !p.TakingClient?
    ensures JobsInv(j, s.(phase := p)) && CountInv(s.(phase := p))
  {
    var t := s.(phase := p);
    assert forall k :: Settled(s, k) <==> Settled(t, k);
    SameSettled(j, s, t);
  }

  lemma StepKeepsClients(j: Job, s: State, a: Action)
    requires ClientsInv(j, s) && JobsInv(j, s) && Enabled(j, s, a)
    ensures ClientsInv(j, Apply(j, s, a))
  {
    match a
    case HandBack(i) => HandBackKeepsClients(j, s, i);
    case TakeClient => TakeKeepsClients(j, s);
    case Launch => LaunchKeepsClients(j, s);
    case _ =>
  }

  lemma StepKeepsJobs(j: Job, s: State, a: Action)
    requires Injective(s.holders) && JobsInv(j, s) && CountInv(s) && Enabled(j, s, a)
    ensures JobsInv(j, Apply(j, s, a)) && CountInv(Apply(j, s, a))
  {
    match a
    case Delete(i) => DeleteKeepsJobs(j, s, i);
    case HandBack(i) => HandBackKeepsJobs(j, s, i);
    case TakeClient => TakeClientKeepsJobs(j, s);
    case Launch => LaunchKeepsJobs(j, s);
    case _ =>
      var t := Apply(j, s, a);
      if t.phase.TakingClient? {
        TakeResultKeepsJobs(j, s, t.phase.back);
      } else {
        PhaseKeepsJobs(j, s, t.phase);
      }
  }

  lemma StepKeepsInv(j: Job, s: State, a: Action)
    requires Inv(j, s) && Enabled(j, s, a)
    ensures Inv(j, Apply(j, s, a))
  {
    StepKeepsClients(j, s, a);
    StepKeepsJobs(j, s, a);
    StepKeepsPhase(j, s, a);
  }

  lemma StepKeepsPhase(j: Job, s: State, a: Action)
    requires PhaseInv(j, s) && 0 <= s.active <= ClientCount(j) && Enabled(j, s, a)
    ensures PhaseInv(j, Apply(j, s, a))
  {}

  lemma {:induction false} RunKeepsInv(j: Job, tr: seq<State>, acts: seq<Action>, k: nat)
    requires Run(j, tr, acts) && k < |tr|
    ensures Inv(j, tr[k])
  {
    if k == 0 {
      InitialInv(j);
    } else {
      RunKeepsInv(j, tr, acts, k - 1);
      StepKeepsInv(j, tr[k - 1], acts[k - 1]);
    }
  }

  // --------------------------------------------------------------- theorems

  /** No two workers ever share a client, and none is lost: in every reachable
      state each client is free, held by one worker or on its way back. */
  lemma ClientsAreNeverShared(j: Job, tr: seq<State>, acts: seq<Action>, k: nat)
    requires Run(j, tr, acts) && k < |tr|
    ensures |tr[k].slots| == if |j.names| < j.workers then |j.names| else j.workers
    ensures 0 <= tr[k].active <= |tr[k].slots|
    ensures Placed(tr[k].slots[tr[k].active..], tr[k].holders, tr[k].returned, |tr[k].slots|)
  {
    RunKeepsInv(j, tr, acts, k);
  }

  lemma NothingOutstanding(j: Job, s: State)
    requires Inv(j, s) && s.active == 0
    ensures s.holders == map[] && s.returned == [] && s.results == [] && !s.phase.TakingClient?
  {
    SubsetSize(s.sent, s.holders.Keys);
    assert |s.holders| == |s.holders.Keys|;
  }

  lemma SubsetSize(a: set<nat>, b: set<nat>)
    requires a <= b
    ensures |a| <= |b|
  {
    assert b == a + (b - a);
  }

  /** When the pool is done, every client is back in its slots; of the objects
      that were got to exactly those whose deletion does not fail are deleted,
      each once, and none by a dry run. An error is reported exactly if some
      deletion fails, and without an error all objects were got to. */
  lemma DeletesExactly(j: Job, tr: seq<State>, acts: seq<Action>)
    requires Run(j, tr, acts) && Last(tr).phase.Returned?
    ensures var s := Last(tr);
            && Distinct(s.slots) && (forall c: nat :: c in s.slots <==> c < |s.slots|)
            && (s.err <==> !j.dryRun && exists i: nat :: i < |j.names| && j.broken(i))
            && Distinct(s.deletions) && s.next <= |j.names|
            && (forall i: nat :: i in s.deletions <==> i < s.next && !j.dryRun && !j.broken(i))
            && (!s.err ==> s.next == |j.names|)
  {
    RunKeepsInv(j, tr, acts, |acts|);
    var s := Last(tr);
    NothingOutstanding(j, s);
    assert s.slots[0..] == s.slots;
    assert forall i: nat :: Settled(s, i) <==> i < s.next;
    if s.err {
      var i :| Settled(s, i) && Fails(j, i);
      assert j.broken(i);
    }
    if i: nat :| i < |j.names| && j.broken(i) {
      assert s.next == |j.names| ==> Settled(s, i);
      assert !j.dryRun ==> Fails(j, i);
    }
  }

  /** The loop polls on as long as there is a result, and then goes to its head. */
  lemma PollsUntilEmpty(j: Job, tr: seq<State>, acts: seq<Action>, k: nat)
    requires Run(j, tr, acts) && k < |acts| && acts[k].Poll?
    ensures if tr[k].results != [] then tr[k + 1].phase == TakingClient(tr[k].results[0], ToPoll)
            else tr[k + 1].phase == if tr[k].err || tr[k].next == |j.names| then Draining else Admitting
  {
    RunKeepsInv(j, tr, acts, k);
    SubsetSize(tr[k].sent, tr[k].holders.Keys);
    assert |tr[k].holders| == |tr[k].holders.Keys|;
  }

  lemma NothingStarts(j: Job, s: State, a: Action)
    requires PhaseInv(j, s) && s.err && Enabled(j, s, a)
    ensures var t := Apply(j, s, a); t.err && t.next == s.next
  {
  }

  lemma NothingStartsAt(j: Job, tr: seq<State>, acts: seq<Action>, k: nat)
    requires Run(j, tr, acts) && k < |acts| && tr[k].err
    ensures tr[k + 1].err && tr[k + 1].next == tr[k].next
  {
    RunStaysInBounds(j, tr, acts, k);
    NothingStarts(j, tr[k], acts[k]);
  }

  lemma {:induction false} StandsStill(tr: seq<State>, m: nat, n: nat)
    requires m <= n < |tr| && tr[m].err
    requires forall k :: m <= k < n && tr[k].err ==> AfterAnError(tr[k], tr[k + 1])
    ensures AfterAnError(tr[m], tr[n])
    decreases n
  {
    if m < n {
      StandsStill(tr, m, n - 1);
      assert AfterAnError(tr[n - 1], tr[n - 1 + 1]);
    }
  }

  predicate AfterAnError(s: State, t: State) {
    t.err && t.next == s.next
  }

  /** Once a failure has been seen no deletion is started. */
  lemma NothingStartsAfterAnError(j: Job, tr: seq<State>, acts: seq<Action>, m: nat, n: nat)
    requires Run(j, tr, acts) && m <= n < |tr| && tr[m].err
    ensures tr[n].err && tr[n].next == tr[m].next
  {
    forall k | m <= k < n && tr[k].err
      ensures AfterAnError(tr[k], tr[k + 1])
    {
      NothingStartsAt(j, tr, acts, k);
    }
    StandsStill(tr, m, n);
  }

  function Rank(p: Phase): nat {
    match p
    case Returned => 0
    case Draining => 1
    case Launching => 1
    case Admitting => 2
    case Polling => 3
    case TakingClient(_, back) => if back.ToPoll? then 4 else 2
  }

  function Work(j: Job, s: State): int {
    7 * (|j.names| - s.next) + 4 * (|s.holders| - |s.sent|) + |s.sent| + 2 * |s.results| + Rank(s.phase)
  }

  lemma LaunchWorks(j: Job, s: State)
    requires s.next !in s.holders && Enabled(j, s, Launch)
    ensures Work(j, Apply(j, s, Launch)) < Work(j, s)
  {
    HoldersAfterLaunch(s.holders, s.next, s.slots[s.active]);
    assert |Apply(j, s, Launch).holders| == |s.holders| + 1;
  }

  lemma HandBackWorks(j: Job, s: State, i: nat)
    requires Injective(s.holders) && Enabled(j, s, HandBack(i))
    ensures Work(j, Apply(j, s, HandBack(i))) < Work(j, s)
  {
    HoldersAfterHandBack(s.holders, i);
    assert |s.sent - {i}| == |s.sent| - 1;
    assert |Apply(j, s, HandBack(i)).holders| == |s.holders| - 1;
  }

  lemma DeleteWorks(j: Job, s: State, i: nat)
    requires Enabled(j, s, Delete(i))
    ensures Work(j, Apply(j, s, Delete(i))) < Work(j, s)
  {
    assert |s.sent + {i}| == |s.sent| + 1;
  }

  lemma StepWorks(j: Job, s: State, a: Action)
    requires Injective(s.holders) && s.next !in s.holders && Enabled(j, s, a)
    ensures Work(j, Apply(j, s, a)) < Work(j, s)
  {
    match a
    case Delete(i) => DeleteWorks(j, s, i);
    case HandBack(i) => HandBackWorks(j, s, i);
    case Launch => LaunchWorks(j, s);
    case _ =>
      assert Apply(j, s, a).holders == s.holders && Apply(j, s, a).sent == s.sent;
  }

  lemma RunStaysInBounds(j: Job, tr: seq<State>, acts: seq<Action>, k: nat)
    requires Run(j, tr, acts) && k < |tr|
    ensures PhaseInv(j, tr[k]) && Injective(tr[k].holders) && tr[k].next !in tr[k].holders
    ensures tr[k].active <= ClientCount(j) && |tr[k].sent| <= |tr[k].holders|
  {
    RunKeepsInv(j, tr, acts, k);
    SubsetSize(tr[k].sent, tr[k].holders.Keys);
    assert |tr[k].holders| == |tr[k].holders.Keys|;
  }

  lemma RunStepWorks(j: Job, tr: seq<State>, acts: seq<Action>, k: nat)
    requires Run(j, tr, acts) && k < |acts|
    ensures Work(j, tr[k + 1]) < Work(j, tr[k])
  {
    RunStaysInBounds(j, tr, acts, k);
    StepWorks(j, tr[k], acts[k]);
  }

  lemma {:induction false} RunWorks(j: Job, tr: seq<State>, acts: seq<Action>, k: nat)
    requires Run(j, tr, acts) && k < |tr|
    ensures k + Work(j, tr[k]) <= 7 * |j.names| + 2
  {
    if k > 0 {
      RunWorks(j, tr, acts, k - 1);
      RunStepWorks(j, tr, acts, k - 1);
    }
  }

  lemma ResultsArrive(j: Job, s: State)
    requires Inv(j, s) && s.holders == map[] && s.active > 0
    ensures s.returned != [] && (s.results != [] || s.phase.TakingClient?)
  {
    assert s.sent == {};
  }

  /** With at least one worker the pool always finishes, although the loop
      waits for results and for clients on separate channels. */
  lemma DeletionTerminates(j: Job, tr: seq<State>, acts: seq<Action>)
    requires j.workers >= 1 && Run(j, tr, acts)
    ensures |acts| <= 7 * |j.names| + 2
    ensures Last(tr).phase.Returned? || exists a :: Enabled(j, Last(tr), a)
  {
    RunWorks(j, tr, acts, |acts|);
    RunStaysInBounds(j, tr, acts, |acts|);
    RunKeepsInv(j, tr, acts, |acts|);
    var s := Last(tr);
    if i :| i in s.holders {
      if i in s.sent {
        assert Enabled(j, s, HandBack(i));
      } else {
        assert Enabled(j, s, Delete(i));
      }
    } else {
      assert s.holders == map[];
      if s.active > 0 {
        ResultsArrive(j, s);
      }
      TheLoopGoesOn(j, s);
    }
  }

  lemma TheLoopGoesOn(j: Job, s: State)
    requires Inv(j, s) && s.holders == map[] && j.workers >= 1
    requires s.active > 0 ==> s.returned != [] && (s.results != [] || s.phase.TakingClient?)
    ensures s.phase.Returned? || exists a :: Enabled(j, s, a)
  {
    match s.phase
    case Admitting => assert Enabled(j, s, Admit);
    case Launching => assert Enabled(j, s, Launch);
    case Polling => assert Enabled(j, s, Poll);
    case Draining => assert Enabled(j, s, Drain);
    case TakingClient(_, _) => assert Enabled(j, s, TakeClient);
    case Returned =>
  }

  /** Asked to use no worker at all, the loop waits for ever. */
  lemma NoWorkersHang(j: Job, tr: seq<State>, acts: seq<Action>)
    requires j.workers == 0 && j.names != [] && Run(j, tr, acts)
    ensures acts == [] && !Last(tr).phase.Returned? && forall a :: !Enabled(j, Last(tr), a)
  {
    assert acts != [] ==> Enabled(j, tr[0], acts[0]);
  }
}
