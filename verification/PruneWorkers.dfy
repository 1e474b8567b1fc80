/** The bounded worker pool that gathers the blocks to keep: one worker per
    source version, at most `limit` at a time, results through one channel.
    gatherBlocksToKeep and gatherBlocksToKeepFromStoreIndex run the same loop;
    this is that loop as a machine, with the workers finishing in any order. */
module PruneWorkers {
  import opened StoreIndexes

  /** What a worker reports; an invalid version that is skipped keeps nothing. */
  datatype Outcome = Failed | Kept(blocks: Index)

  /** An empty path is passed over. */
  datatype Job = Job(limit: nat, paths: seq<string>, outcome: nat -> Outcome)

  /** Where the gathering loop is: at its head (where it waits if the limit is
      reached), launching, polling the channel, or draining it at the end. */
  datatype Phase = Admitting | Launching | Polling | Draining | Returned

  /** `channel` holds the results sent and not yet received. `received` and
      `receipts` say whose results were received, and how many receives there
      were; `throttled` is what the throttled receive took. */
  datatype State = State(
    phase: Phase, next: nat, active: int, running: set<nat>, channel: seq<nat>, received: set<nat>, receipts: nat,
    throttled: set<nat>, used: Index, err: bool)

  datatype Action = Complete(i: nat) | Admit | Launch | Poll | Drain

  function LoopHead(j: Job, s: State): State {
    s.(phase := if s.err || s.next >= |j.paths| then Draining else Admitting)
  }

  function Initial(j: Job): State {
    LoopHead(j, State(Admitting, 0, 0, {}, [], {}, 0, {}, {}, false))
  }

  predicate Enabled(j: Job, s: State, a: Action) {
    match a
    case Complete(i) => i in s.running
    case Admit => s.phase.Admitting? && (s.active == j.limit ==> s.channel != [])
    case Launch => s.phase.Launching?
    case Poll => s.phase.Polling?
    case Drain => s.phase.Draining? && (s.active > 0 ==> s.channel != [])
  }

  /** Take the next result. The throttled receive ignores a failure. */
  function Receive(j: Job, s: State, throttle: bool): State
    requires s.channel != []
  {
    var i := s.channel[0];
    var r := j.outcome(i);
    s.(channel := s.channel[1..],
       received := s.received + {i},
       receipts := s.receipts + 1,
       active := s.active - 1,
       throttled := if throttle then s.throttled + {i} else s.throttled,
       used := if r.Kept? then s.used + r.blocks else s.used,
       err := s.err || (r.Failed? && !throttle))
  }

  function Apply(j: Job, s: State, a: Action): State
    requires Enabled(j, s, a)
  {
    match a
    case Complete(i) => s.(running := s.running - {i}, channel := s.channel + [i])
    case Admit => (if s.active == j.limit then Receive(j, s, true) else s).(phase := Launching)
    case Launch =>
      if GetsWorker(j, s.next) then
        s.(phase := Polling, next := s.next + 1, active := s.active + 1, running := s.running + {s.next})
      else
        s.(phase := Polling, next := s.next + 1)
    case Poll => if s.active > 0 && s.channel != [] then Receive(j, s, false) else LoopHead(j, s)
    case Drain => if s.active > 0 then Receive(j, s, false) else s.(phase := Returned)
  }

  ghost predicate Run(j: Job, tr: seq<State>, acts: seq<Action>) {
    && |tr| == |acts| + 1 && tr[0] == Initial(j)
    && forall k :: 0 <= k < |acts| ==> Enabled(j, tr[k], acts[k]) && tr[k + 1] == Apply(j, tr[k], acts[k])
  }

  function Last(tr: seq<State>): State
    requires tr != []
  {
    tr[|tr| - 1]
  }

  // ---------------------------------------------------------------- invariant

  function Elements(q: seq<nat>): set<nat> {
    set i | i in q
  }

  predicate Distinct(q: seq<nat>) {
    forall x, y :: 0 <= x < y < |q| ==> q[x] != q[y]
  }

  predicate GetsWorker(j: Job, i: nat) {
    i < |j.paths| && j.paths[i] != ""
  }

  /** The versions among the first n paths that get a worker. */
  function Launched(j: Job, n: nat): set<nat> {
    set i: nat | i < n && GetsWorker(j, i)
  }

  function Failing(j: Job): set<nat> {
    set i | i in Launched(j, |j.paths|) && j.outcome(i).Failed?
  }

  /** The union of the blocks of all versions of ws that did not fail. */
  function KeptBy(j: Job, ws: set<nat>): Index {
    set i, h | i in ws && j.outcome(i).Kept? && h in j.outcome(i).blocks :: h
  }

  /** A failure was received outside the throttled receive. */
  predicate Noticed(j: Job, s: State) {
    exists i :: i in s.received && i !in s.throttled && j.outcome(i).Failed?
  }

  /** Every launched worker is in exactly one of three places. */
  ghost predicate Split(running: set<nat>, sent: set<nat>, received: set<nat>, launched: set<nat>) {
    && (forall i :: i in launched <==> i in running || i in sent || i in received)
    && (forall i :: i in running ==> i !in sent && i !in received)
    && (forall i :: i in sent ==> i !in received)
  }

  ghost predicate Inv(j: Job, s: State) {
    && WorkersInv(j, s)
    && s.used == KeptBy(j, s.received)
    && (s.err <==> Noticed(j, s))
    && PhaseInv(j, s)
    && ThrottleInv(j, s)
  }

  ghost predicate WorkersInv(j: Job, s: State) {
    && Distinct(s.channel)
    && Split(s.running, Elements(s.channel), s.received, Launched(j, s.next))
    && s.active == |s.running| + |s.channel| <= j.limit
    && |s.received| == s.receipts
  }

  predicate PhaseInv(j: Job, s: State) {
    && s.next <= |j.paths|
    && (s.phase.Admitting? || s.phase.Launching? ==> s.next < |j.paths| && !s.err)
    && (s.phase.Launching? ==> s.active < j.limit)
    && (s.phase.Draining? || s.phase.Returned? ==> s.err || s.next == |j.paths|)
    && (s.phase.Returned? ==> s.active == 0)
  }

  /** Each throttled receive leaves a full pool behind it that was launched
      before the last path. */
  predicate ThrottleInv(j: Job, s: State) {
    && s.throttled <= s.received
    && s.receipts + s.active == |Launched(j, s.next)|
    && (s.throttled != {} ==>
          && |j.paths| > 0 && s.throttled <= Launched(j, |j.paths| - 1)
          && |s.throttled| + j.limit <= |Launched(j, |j.paths| - 1)| + 1)
  }

  lemma SubsetSize(a: set<nat>, b: set<nat>)
    requires a <= b
    ensures |b - a| == |b| - |a|
  {
    assert b == a + (b - a);
  }

  lemma LaunchedGrows(j: Job, n: nat, m: nat)
    requires n <= m
    ensures Launched(j, n) <= Launched(j, m) && |Launched(j, n)| <= |Launched(j, m)|
  {
    SubsetSize(Launched(j, n), Launched(j, m));
  }

  lemma LaunchedNext(j: Job, n: nat)
    requires n < |j.paths|
    ensures n !in Launched(j, n)
    ensures Launched(j, n + 1) == Launched(j, n) + (if GetsWorker(j, n) then {n} else {})
    ensures |Launched(j, n + 1)| == |Launched(j, n)| + (if GetsWorker(j, n) then 1 else 0)
  {
    assert Launched(j, n + 1) == Launched(j, n) + (if GetsWorker(j, n) then {n} else {});
  }

  lemma InitialInv(j: Job)
    ensures Inv(j, Initial(j))
  {
    assert Launched(j, 0) == {};
  }

  lemma CompleteKeeps(j: Job, s: State, i: nat)
    requires Inv(j, s) && i in s.running
    ensures Inv(j, Apply(j, s, Complete(i)))
  {
    assert WorkersInv(j, Apply(j, s, Complete(i))) by {
      assert Elements(s.channel + [i]) == Elements(s.channel) + {i};
      assert i !in Elements(s.channel);
      assert |s.running - {i}| == |s.running| - 1;
    }
  }

  lemma FirstOut(q: seq<nat>)
    requires q != [] && Distinct(q)
    ensures Distinct(q[1..]) && q[0] !in q[1..] && q[0] in Elements(q) && Elements(q[1..]) == Elements(q) - {q[0]}
  {
    assert q == [q[0]] + q[1..];
  }

  lemma KeptMore(j: Job, ws: set<nat>, i: nat)
    ensures KeptBy(j, ws + {i}) == KeptBy(j, ws) + (if j.outcome(i).Kept? then j.outcome(i).blocks else {})
  {}

  lemma ReceiveKeepsWorkers(j: Job, s: State, throttle: bool)
    requires WorkersInv(j, s) && s.channel != []
    ensures WorkersInv(j, Receive(j, s, throttle)) && s.channel[0] in Launched(j, s.next) && s.channel[0] !in s.received
  {
    var i := s.channel[0];
    FirstOut(s.channel);
    assert i !in s.received && |s.received + {i}| == s.receipts + 1;
  }

  lemma ReceiveKeepsAccounts(j: Job, s: State, throttle: bool)
    requires s.channel != [] && s.channel[0] !in s.received && s.throttled <= s.received
    requires s.used == KeptBy(j, s.received) && (s.err <==> Noticed(j, s))
    ensures var t := Receive(j, s, throttle); t.used == KeptBy(j, t.received) && (t.err <==> Noticed(j, t))
  {
    var i := s.channel[0];
    KeptMore(j, s.received, i);
    var t := Receive(j, s, throttle);
    if Noticed(j, s) {
      var x :| x in s.received && x !in s.throttled && j.outcome(x).Failed?;
      assert x in t.received && x !in t.throttled;
    }
    assert !throttle && j.outcome(i).Failed? ==> i in t.received && i !in t.throttled;
  }

  lemma ReceiveKeepsThrottle(j: Job, s: State, throttle: bool)
    requires s.channel != [] && s.channel[0] in Launched(j, s.next) && s.channel[0] !in s.received
    requires |s.received| == s.receipts && ThrottleInv(j, s)
    requires throttle ==> s.next < |j.paths| && s.active == j.limit
    ensures ThrottleInv(j, Receive(j, s, throttle))
  {
    var i := s.channel[0];
    if throttle {
      LaunchedGrows(j, s.next, |j.paths| - 1);
      assert |s.throttled + {i}| == |s.throttled| + 1;
      SubsetSize(s.throttled, s.received);
    }
  }

  lemma ReceiveKeeps(j: Job, s: State, throttle: bool)
    requires Inv(j, s) && s.channel != []
    requires if throttle then s.phase.Admitting? && s.active == j.limit else s.phase.Polling? || s.phase.Draining?
    ensures Inv(j, Receive(j, s, throttle).(phase := if throttle then Launching else s.phase))
  {
    ReceiveKeepsWorkers(j, s, throttle);
    ReceiveKeepsAccounts(j, s, throttle);
    ReceiveKeepsThrottle(j, s, throttle);
    var t := Receive(j, s, throttle);
    var u := t.(phase := if throttle then Launching else s.phase);
    assert Noticed(j, t) <==> Noticed(j, u);
  }

  lemma LaunchKeepsWorkers(j: Job, s: State)
    requires WorkersInv(j, s) && s.phase.Launching? && s.next < |j.paths| && s.active < j.limit
    ensures WorkersInv(j, Apply(j, s, Launch))
  {
    LaunchedNext(j, s.next);
    var t := Apply(j, s, Launch);
    assert s.next !in s.running;
    assert Split(t.running, Elements(t.channel), t.received, Launched(j, t.next));
  }

  lemma LaunchKeepsThrottle(j: Job, s: State)
    requires ThrottleInv(j, s) && s.phase.Launching? && s.next < |j.paths|
    ensures ThrottleInv(j, Apply(j, s, Launch))
  {
    LaunchedNext(j, s.next);
    var t := Apply(j, s, Launch);
    assert t.receipts + t.active == |Launched(j, t.next)|;
    assert t.throttled == s.throttled && t.received == s.received;
  }

  lemma LaunchKeeps(j: Job, s: State)
    requires Inv(j, s) && Enabled(j, s, Launch)
    ensures Inv(j, Apply(j, s, Launch))
  {
    LaunchKeepsWorkers(j, s);
    LaunchKeepsThrottle(j, s);
    assert Noticed(j, Apply(j, s, Launch)) <==> Noticed(j, s);
  }

  lemma StepKeepsInv(j: Job, s: State, a: Action)
    requires Inv(j, s) && Enabled(j, s, a)
    ensures Inv(j, Apply(j, s, a))
  {
    match a
    case Complete(i) => CompleteKeeps(j, s, i);
    case Admit =>
      if s.active == j.limit {
        ReceiveKeeps(j, s, true);
      }
    case Launch => LaunchKeeps(j, s);
    case Poll =>
      if s.active > 0 && s.channel != [] {
        ReceiveKeeps(j, s, false);
      }
    case Drain =>
      if s.active > 0 {
        ReceiveKeeps(j, s, false);
      }
  }

  lemma {:induction false} RunKeepsInv(j: Job, tr: seq<State>, acts: seq<Action>, k: nat)
    requires Run(j, tr, acts) && k < |tr|
    ensures Inv(j, tr[k])
  {
    if k == 0 {
      InitialInv(j);
    } else {
      RunKeepsInv(j, tr, acts, k - 1);
      StepKeepsInv(j, tr[k - 1], acts[k - 1]);
    }
  }

  // ----------------------------------------------------------------- theorems

  /** At no moment are more than `limit` workers out, counting those whose
      result waits in the channel: a buffer of `limit` results never blocks. */
  lemma WorkersAreLimited(j: Job, tr: seq<State>, acts: seq<Action>, k: nat)
    requires Run(j, tr, acts) && k < |tr|
    ensures |tr[k].running| + |tr[k].channel| == tr[k].active <= j.limit
  {
    RunKeepsInv(j, tr, acts, k);
  }

  /** When the loop returns, the result of every version with a path that was
      got to has been received, each once. An error is reported exactly if a
      failure was received by another than the throttled receive. Without an
      error every version was got to and the keep-set is exactly the union over
      all versions that did not fail. */
  lemma GatherIsExact(j: Job, tr: seq<State>, acts: seq<Action>)
    requires Run(j, tr, acts) && Last(tr).phase.Returned?
    ensures var s := Last(tr);
            && s.running == {} && s.channel == [] && s.next <= |j.paths|
            && (forall i: nat :: i in s.received <==> i < s.next && j.paths[i] != "")
            && s.receipts == |s.received|
            && (s.err <==> exists i: nat :: i in s.received && i !in s.throttled && j.outcome(i).Failed?)
            && (!s.err ==> s.next == |j.paths|)
            && (forall h :: h in s.used <==> exists i: nat :: i in s.received && Keeps(j.outcome(i), h))
  {
    RunKeepsInv(j, tr, acts, |tr| - 1);
    var s := Last(tr);
    assert forall i: nat :: i in s.received <==> i in Launched(j, s.next);
    assert forall h :: h in KeptBy(j, s.received) <==> exists i: nat :: i in s.received && Keeps(j.outcome(i), h);
  }

  predicate Keeps(r: Outcome, h: BlockHash) {
    r.Kept? && h in r.blocks
  }

  /** The loop polls on as long as there is a result, and then goes to its head. */
  lemma PollsUntilEmpty(j: Job, tr: seq<State>, acts: seq<Action>, k: nat)
    requires Run(j, tr, acts) && k < |acts| && acts[k].Poll?
    ensures tr[k + 1].phase == if tr[k].channel != [] then Polling
                               else if tr[k].err || tr[k].next == |j.paths| then Draining else Admitting
  {
    RunKeepsInv(j, tr, acts, k);
  }

  lemma NothingStarts(j: Job, s: State, a: Action)
    requires PhaseInv(j, s) && s.err && Enabled(j, s, a)
    ensures var t := Apply(j, s, a); t.err && t.next == s.next && t.running <= s.running
  {
  }

  lemma NothingStartsAt(j: Job, tr: seq<State>, acts: seq<Action>, k: nat)
    requires Run(j, tr, acts) && k < |acts| && tr[k].err
    ensures tr[k + 1].err && tr[k + 1].next == tr[k].next && tr[k + 1].running <= tr[k].running
  {
    RunStaysInBounds(j, tr, acts, k);
    NothingStarts(j, tr[k], acts[k]);
  }

  lemma {:induction false} StandsStill(tr: seq<State>, m: nat, n: nat)
    requires m <= n < |tr| && tr[m].err
    requires forall k :: m <= k < n && tr[k].err ==> AfterAnError(tr[k], tr[k + 1])
    ensures AfterAnError(tr[m], tr[n])
    decreases n
  {
    if m < n {
      StandsStill(tr, m, n - 1);
      assert AfterAnError(tr[n - 1], tr[n - 1 + 1]);
    }
  }

  predicate AfterAnError(s: State, t: State) {
    t.err && t.next == s.next && t.running <= s.running
  }

  /** Once a failure has been noticed no worker is started. */
  lemma NothingStartsAfterAnError(j: Job, tr: seq<State>, acts: seq<Action>, m: nat, n: nat)
    requires Run(j, tr, acts) && m <= n < |tr| && tr[m].err
    ensures tr[n].err && tr[n].next == tr[m].next && tr[n].running <= tr[m].running
  {
    forall k | m <= k < n && tr[k].err
      ensures AfterAnError(tr[k], tr[k + 1])
    {
      NothingStartsAt(j, tr, acts, k);
    }
    StandsStill(tr, m, n);
  }

  // -------------------------------------------------------------- termination

  function Rank(p: Phase): nat {
    match p
    case Returned => 0
    case Draining => 1
    case Launching => 1
    case Admitting => 2
    case Polling => 3
  }

  /** The steps still to come are at most this many. */
  function Work(j: Job, s: State): int {
    5 * (|j.paths| - s.next) + 2 * |s.running| + |s.channel| + Rank(s.phase)
  }

  lemma StepWorks(j: Job, s: State, a: Action)
    requires PhaseInv(j, s) && s.next !in s.running && Enabled(j, s, a)
    ensures Work(j, Apply(j, s, a)) < Work(j, s)
  {
    if a.Complete? {
      assert |s.running - {a.i}| == |s.running| - 1;
    } else if a.Launch? {
      assert |s.running + {s.next}| == |s.running| + 1;
    }
  }

  lemma RunStaysInBounds(j: Job, tr: seq<State>, acts: seq<Action>, k: nat)
    requires Run(j, tr, acts) && k < |tr|
    ensures PhaseInv(j, tr[k]) && tr[k].next !in tr[k].running
  {
    RunKeepsInv(j, tr, acts, k);
    assert tr[k].next !in Launched(j, tr[k].next);
  }

  lemma RunStepWorks(j: Job, tr: seq<State>, acts: seq<Action>, k: nat)
    requires Run(j, tr, acts) && k < |acts|
    ensures Work(j, tr[k + 1]) < Work(j, tr[k])
  {
    RunStaysInBounds(j, tr, acts, k);
    StepWorks(j, tr[k], acts[k]);
  }

  lemma {:induction false} RunWorks(j: Job, tr: seq<State>, acts: seq<Action>, k: nat)
    requires Run(j, tr, acts) && k < |tr|
    ensures k + Work(j, tr[k]) <= 5 * |j.paths| + 2
  {
    if k > 0 {
      RunWorks(j, tr, acts, k - 1);
      RunStepWorks(j, tr, acts, k - 1);
    }
  }

  /** With a limit of at least 1 the loop always returns: no run is longer than
      the bound, and until the loop returns there is a step to take. */
  lemma GatherTerminates(j: Job, tr: seq<State>, acts: seq<Action>)
    requires j.limit >= 1 && Run(j, tr, acts)
    ensures |acts| <= 5 * |j.paths| + 2
    ensures Last(tr).phase.Returned? || exists a :: Enabled(j, Last(tr), a)
  {
    RunWorks(j, tr, acts, |acts|);
    RunStaysInBounds(j, tr, acts, |acts|);
    RunKeepsInv(j, tr, acts, |acts|);
    var s := Last(tr);
    if !s.phase.Returned? {
      assert Work(j, s) >= 0;
      if s.running != {} {
        var i :| i in s.running;
        assert Enabled(j, s, Complete(i));
      } else {
        var a := match s.phase
          case Admitting => Admit
          case Launching => Launch
          case Polling => Poll
          case _ => Drain;
        assert Enabled(j, s, a);
      }
    }
  }

  /** With a limit of 0 and any path, the loop waits for ever before its first
      launch. */
  lemma LimitZeroHangs(j: Job, tr: seq<State>, acts: seq<Action>)
    requires j.limit == 0 && j.paths != [] && Run(j, tr, acts)
    ensures acts == [] && !Last(tr).phase.Returned? && forall a :: !Enabled(j, Last(tr), a)
  {
    assert acts != [] ==> Enabled(j, tr[0], acts[0]);
  }

  // ------------------------------------------------- failures that are ignored

  /** Every failure can be taken by a throttled receive: the failing versions
      are not the last path, and so many workers are launched before the last
      path that there is a throttled receive for each. */
  predicate CanIgnoreAllFailures(j: Job) {
    && |j.paths| > 0
    && Failing(j) <= Launched(j, |j.paths| - 1)
    && |Failing(j)| + j.limit <= |Launched(j, |j.paths| - 1)| + 1
  }

  lemma IgnoredFailuresFit(j: Job, tr: seq<State>, acts: seq<Action>)
    requires Run(j, tr, acts) && Last(tr).phase.Returned? && !Last(tr).err && Failing(j) != {}
    ensures CanIgnoreAllFailures(j)
  {
    GatherIsExact(j, tr, acts);
    RunKeepsInv(j, tr, acts, |tr| - 1);
    var s := Last(tr);
    assert Failing(j) <= s.throttled;
    SubsetSize(Failing(j), s.throttled);
  }

  ghost predicate Reaches(j: Job, tr: seq<State>, acts: seq<Action>, s: State) {
    Run(j, tr, acts) && Last(tr) == s
  }

  lemma Extend(j: Job, tr: seq<State>, acts: seq<Action>, a: Action) returns (longer: seq<State>, more: seq<Action>)
    requires Run(j, tr, acts) && Enabled(j, Last(tr), a)
    ensures Reaches(j, longer, more, Apply(j, Last(tr), a))
  {
    longer, more := tr + [Apply(j, Last(tr), a)], acts + [a];
  }

  /** The failures not yet ignored still fit: there is a throttled receive to
      come for each. */
  predicate StillFits(j: Job, s: State) {
    && |j.paths| > 0 && s.next < |j.paths|
    && Failing(j) <= Launched(j, |j.paths| - 1)
    && (Left(j, s) == 0 || Left(j, s) <= Receives(j, s))
  }

  /** How many failures have not been received, and how many throttled
      receives are to come if nothing else receives. */
  function Left(j: Job, s: State): nat {
    |Failing(j) - s.received|
  }

  function Receives(j: Job, s: State): int
    requires |j.paths| > 0
  {
    s.active + |Launched(j, |j.paths| - 1)| - |Launched(j, s.next)| + 1 - j.limit
  }

  predicate Quiet(s: State, p: Phase) {
    s.phase == p && s.channel == [] && !s.err
  }

  lemma UnlaunchedFit(j: Job, s: State)
    requires |j.paths| > 0 && s.next < |j.paths| && Failing(j) <= Launched(j, |j.paths| - 1)
    requires Inv(j, s) && s.channel == [] && s.running !! Failing(j)
    ensures Left(j, s) <= |Launched(j, |j.paths| - 1)| - |Launched(j, s.next)|
  {
    var early, launched := Launched(j, |j.paths| - 1), Launched(j, s.next);
    LaunchedGrows(j, s.next, |j.paths| - 1);
    assert Failing(j) - s.received <= early - launched;
    SubsetSize(launched, early);
    SubsetSize(Failing(j) - s.received, early - launched);
  }

  /** A full pool ignores the result of worker i. */
  function IgnoreOne(j: Job, s: State, i: nat): State {
    var r := j.outcome(i);
    s.(phase := Launching, running := s.running - {i}, received := s.received + {i}, receipts := s.receipts + 1,
       active := s.active - 1, throttled := s.throttled + {i},
       used := if r.Kept? then s.used + r.blocks else s.used)
  }

  lemma IgnoringIsTwoSteps(j: Job, s: State, i: nat)
    requires Quiet(s, Admitting) && s.active == j.limit && i in s.running
    ensures var t := Apply(j, s, Complete(i)); Enabled(j, t, Admit) && Apply(j, t, Admit) == IgnoreOne(j, s, i)
  {
    assert ([] + [i])[1..] == [];
  }

  lemma IgnoringAFailureFits(j: Job, s: State, i: nat)
    requires s.active == j.limit && StillFits(j, s) && i in Failing(j) && i !in s.received
    ensures StillFits(j, IgnoreOne(j, s, i))
  {
    var left := Failing(j) - s.received;
    assert Failing(j) - (s.received + {i}) == left - {i} && i in left;
  }

  lemma IgnoringASuccessFits(j: Job, s: State, i: nat)
    requires s.active == j.limit && StillFits(j, s) && i !in Failing(j)
    requires Left(j, s) <= |Launched(j, |j.paths| - 1)| - |Launched(j, s.next)|
    ensures StillFits(j, IgnoreOne(j, s, i))
  {
    var t := IgnoreOne(j, s, i);
    assert Failing(j) - t.received == Failing(j) - s.received;
    assert Left(j, t) == Left(j, s);
    assert Receives(j, t) == Receives(j, s) - 1;
  }

  /** Whose result a full pool should ignore: a failing worker's, if one is out. */
  lemma ChooseIgnored(j: Job, s: State) returns (i: nat)
    requires j.limit >= 1 && Inv(j, s) && Quiet(s, Admitting) && s.active == j.limit && StillFits(j, s)
    ensures i in s.running && StillFits(j, IgnoreOne(j, s, i))
  {
    assert s.running != {};
    if s.running !! Failing(j) {
      i :| i in s.running;
      UnlaunchedFit(j, s);
      IgnoringASuccessFits(j, s, i);
    } else {
      i :| i in s.running && i in Failing(j);
      IgnoringAFailureFits(j, s, i);
    }
  }

  lemma MakeRoom(j: Job, tr: seq<State>, acts: seq<Action>) returns (longer: seq<State>, more: seq<Action>)
    requires j.limit >= 1 && Run(j, tr, acts)
    requires Quiet(Last(tr), Admitting) && StillFits(j, Last(tr))
    ensures Run(j, longer, more) && Last(longer).next == Last(tr).next
    ensures Quiet(Last(longer), Launching) && StillFits(j, Last(longer))
  {
    var s := Last(tr);
    if s.active == j.limit {
      RunKeepsInv(j, tr, acts, |acts|);
      var i := ChooseIgnored(j, s);
      IgnoringIsTwoSteps(j, s, i);
      longer, more := Extend(j, tr, acts, Complete(i));
      longer, more := Extend(j, longer, more, Admit);
    } else {
      longer, more := Extend(j, tr, acts, Admit);
      assert Last(longer).received == s.received;
    }
  }

  lemma OneOnFits(j: Job, s: State, t: State)
    requires StillFits(j, s) && s.next + 1 < |j.paths| && t.next == s.next + 1 && t.received == s.received
    requires t.active == s.active + if GetsWorker(j, s.next) then 1 else 0
    ensures StillFits(j, t)
  {
    LaunchedNext(j, s.next);
    assert Receives(j, t) == Receives(j, s);
  }

  lemma LaunchingFits(j: Job, s: State)
    requires s.phase.Launching? && StillFits(j, s) && s.next + 1 < |j.paths|
    ensures StillFits(j, Apply(j, s, Launch))
  {
    OneOnFits(j, s, Apply(j, s, Launch));
  }

  lemma NoneIsLeft(j: Job, s: State)
    requires StillFits(j, s) && s.next + 1 == |j.paths| && s.active < j.limit
    ensures Failing(j) <= s.received
  {
    assert Receives(j, s) <= 0 && Left(j, s) == 0;
    forall i | i in Failing(j)
      ensures i in s.received
    {
      assert i !in Failing(j) - s.received;
    }
  }

  /** The head of the loop, or the end of it with no failure left. */
  predicate QuietHead(j: Job, t: State) {
    if t.next < |j.paths| then Quiet(t, Admitting) && StillFits(j, t)
    else Quiet(t, Draining) && Failing(j) <= t.received
  }

  lemma LaunchQuietly(j: Job, s: State)
    requires PhaseInv(j, s) && Quiet(s, Launching) && StillFits(j, s)
    ensures var t := Apply(j, s, Launch); t.phase.Polling? && t.channel == [] && QuietHead(j, LoopHead(j, t))
  {
    var t := Apply(j, s, Launch);
    assert t.next == s.next + 1 && t.received == s.received;
    if s.next + 1 < |j.paths| {
      LaunchingFits(j, s);
      assert LoopHead(j, t) == t.(phase := Admitting);
      assert Left(j, LoopHead(j, t)) == Left(j, t) && Receives(j, LoopHead(j, t)) == Receives(j, t);
    } else {
      NoneIsLeft(j, s);
    }
  }

  /** One turn of the loop in which nothing but the throttled receive finds a
      result in the channel. */
  lemma QuietTurn(j: Job, tr: seq<State>, acts: seq<Action>) returns (longer: seq<State>, more: seq<Action>)
    requires j.limit >= 1 && Run(j, tr, acts)
    requires Quiet(Last(tr), Admitting) && StillFits(j, Last(tr))
    ensures Run(j, longer, more) && Last(longer).next == Last(tr).next + 1 && QuietHead(j, Last(longer))
  {
    longer, more := MakeRoom(j, tr, acts);
    RunStaysInBounds(j, longer, more, |more|);
    LaunchQuietly(j, Last(longer));
    longer, more := Extend(j, longer, more, Launch);
    longer, more := Extend(j, longer, more, Poll);
  }

  lemma {:induction false} QuietTurns(j: Job, tr: seq<State>, acts: seq<Action>)
      returns (longer: seq<State>, more: seq<Action>)
    requires j.limit >= 1 && Run(j, tr, acts)
    requires Quiet(Last(tr), Admitting) && StillFits(j, Last(tr))
    ensures Run(j, longer, more) && Quiet(Last(longer), Draining) && Failing(j) <= Last(longer).received
    decreases |j.paths| - Last(tr).next
  {
    longer, more := QuietTurn(j, tr, acts);
    if Last(longer).next < |j.paths| {
      longer, more := QuietTurns(j, longer, more);
    }
  }

  /** Once no failure is left, draining reports none. */
  lemma {:induction false} DrainQuietly(j: Job, tr: seq<State>, acts: seq<Action>)
      returns (longer: seq<State>, more: seq<Action>)
    requires Run(j, tr, acts) && Quiet(Last(tr), Draining) && Failing(j) <= Last(tr).received
    ensures Run(j, longer, more) && Last(longer).phase.Returned? && !Last(longer).err
    decreases |Last(tr).running|
  {
    var s := Last(tr);
    RunKeepsInv(j, tr, acts, |acts|);
    if s.running == {} {
      longer, more := Extend(j, tr, acts, Drain);
    } else {
      var i :| i in s.running;
      assert i in Launched(j, s.next) && i !in Failing(j);
      longer, more := Extend(j, tr, acts, Complete(i));
      longer, more := Extend(j, longer, more, Drain);
      assert Last(longer).running == s.running - {i};
      longer, more := DrainQuietly(j, longer, more);
    }
  }

  lemma IgnoreAllFailures(j: Job) returns (tr: seq<State>, acts: seq<Action>)
    requires j.limit >= 1 && CanIgnoreAllFailures(j)
    ensures Run(j, tr, acts) && Last(tr).phase.Returned? && !Last(tr).err
  {
    tr, acts := [Initial(j)], [];
    assert Launched(j, 0) == {} && Failing(j) - {} == Failing(j);
    tr, acts := QuietTurns(j, tr, acts);
    tr, acts := DrainQuietly(j, tr, acts);
  }

  ghost predicate ReportsError(j: Job, tr: seq<State>, acts: seq<Action>) {
    Run(j, tr, acts) && Last(tr).phase.Returned? ==> Last(tr).err
  }

  /** A failing version is certain to be reported, whatever the order in which
      the workers finish, exactly if the failures are too many or too late for
      the throttled receive. */
  lemma FailuresAreReportedExactly(j: Job)
    requires j.limit >= 1 && Failing(j) != {}
    ensures (forall tr, acts :: ReportsError(j, tr, acts)) <==> !CanIgnoreAllFailures(j)
  {
    if CanIgnoreAllFailures(j) {
      var tr, acts := IgnoreAllFailures(j);
      assert !ReportsError(j, tr, acts);
    } else {
      forall tr, acts
        ensures ReportsError(j, tr, acts)
      {
        if Run(j, tr, acts) && Last(tr).phase.Returned? && !Last(tr).err {
          IgnoredFailuresFit(j, tr, acts);
        }
      }
    }
  }

  /** Without a failing version no run reports an error, and every run returns
      the union over all versions. */
  lemma CleanVersionsAreGathered(j: Job, tr: seq<State>, acts: seq<Action>)
    requires Run(j, tr, acts) && Last(tr).phase.Returned? && Failing(j) == {}
    ensures !Last(tr).err && Last(tr).used == KeptBy(j, Launched(j, |j.paths|))
  {
    GatherIsExact(j, tr, acts);
    var s := Last(tr);
    RunKeepsInv(j, tr, acts, |acts|);
    LaunchedGrows(j, s.next, |j.paths|);
    forall i | i in Launched(j, s.next)
      ensures !j.outcome(i).Failed?
    {
      assert i !in Failing(j);
    }
  }

  /** Two versions, one worker, and the first version cannot be read: the run
      may succeed and lose the blocks the first version needs. */
  lemma AnUnreadableVersionIsLost(blocks: Index) returns (j: Job, tr: seq<State>, acts: seq<Action>)
    ensures j.limit == 1 && j.paths == ["a", "b"] && j.outcome(0).Failed?
    ensures Run(j, tr, acts) && Last(tr).phase.Returned? && !Last(tr).err && Last(tr).used == blocks
  {
    j := Job(1, ["a", "b"], i => if i == 0 then Failed else Kept(blocks));
    assert Failing(j) == {0} && Launched(j, 1) == {0};
    tr, acts := IgnoreAllFailures(j);
    GatherIsExact(j, tr, acts);
    assert Launched(j, 2) == {0, 1};
  }
}
