/** Puts, flushes, prunes and closing of remote store sessions: how a block gets
    from a put to its object, through the session's channel and its pending
    blocks into the remote index, and out again when it is pruned.

    The remote index is the union of the index files; what one flush does to it
    in steps of its own is the subject of LockFreeIndex and LockedIndex, and what
    a prune does to it that of IndexOverwrite. FlushEnd and PruneIndex rely on
    what is proved there. */
module IndexPipeline {
  import opened StoreIndexes
  import opened Options

  type SessionId = nat
  type WorkerId = nat

  datatype Access = Init | ReadWrite | ReadOnly

  /** A worker putting block h: checking for the object, writing it (after so
      many refused writes), announcing it, reporting success. PutFail: making
      the object's handle, serialising the block, or copying its block index
      fails. */
  datatype Put =
    | Checking(h: BlockHash)
    | Writing(h: BlockHash, refused: nat)
    | Announcing(h: BlockHash)
    | Acking(h: BlockHash)

  /** What the session's index worker is doing. */
  datatype Phase =
    | Idle
    | Flushing(base: Index)
    | Overwriting(current: Index, pruned: Index)
    | Deleting(todo: Index, pruned: Index)
    | LastAdd(base: Index)
    | Closed(ok: bool)

  /** The error an index operation left behind; one that says that something
      does not exist is passed over when the session ends. */
  datatype IndexError = NoError | NotExist | OtherError

  /** `queue` is the channel of announced blocks, `added` the blocks waiting for
      a flush, `cached` the index kept in memory, `err` a pending error.
      `announced`, `received` and `acked` record history. */
  datatype Session = Session(
    access: Access,
    puts: map<WorkerId, Put>,
    queue: seq<BlockHash>,
    added: Index,
    cached: Option<Index>,
    err: IndexError,
    phase: Phase,
    closing: bool,
    announced: Index,
    received: Index,
    acked: Index)

  /** `present`: with locking, whether `store.lsi` exists. */
  datatype State = State(
    objects: Index,
    remote: Index,
    locking: bool,
    present: bool,
    sessions: map<SessionId, Session>)

  datatype WriteResult = Written | Refused | WriteError

  datatype Action =
    | Open(i: SessionId, access: Access)
    | PutStart(i: SessionId, w: WorkerId, h: BlockHash)
    | PutProbe(i: SessionId, w: WorkerId, error: bool)
    | PutWrite(i: SessionId, w: WorkerId, result: WriteResult)
    | PutAnnounce(i: SessionId, w: WorkerId)
    | PutAck(i: SessionId, w: WorkerId)
    | PutFail(i: SessionId, w: WorkerId)
    | Receive(i: SessionId)
    | Load(i: SessionId, err: IndexError)
    | FlushStart(i: SessionId)
    | FlushEnd(i: SessionId, ok: bool, seen: Index)
    | PruneStart(i: SessionId, keep: Index)
    | PruneIndex(i: SessionId, remote: Index)
    | PruneIndexed(i: SessionId, err: IndexError)
    | PruneDelete(i: SessionId, h: BlockHash, ok: bool)
    | PruneEnd(i: SessionId)
    | CloseStart(i: SessionId)
    | Finish(i: SessionId)
    | FinishAdd(i: SessionId, ok: bool)

  function Elements(q: seq<BlockHash>): Index {
    set h | h in q
  }

  function New(access: Access): Session {
    Session(access, map[], [], {}, None, NoError, Idle, false, {}, {}, {})
  }

  /** The index that answers queries: the cached index and the pending blocks. */
  function View(x: Session): Index {
    if x.cached.Some? then x.cached.value + x.added else x.added
  }

  ghost predicate Enabled(s: State, a: Action) {
    if a.Open? then
      a.i !in s.sessions
    else
      && a.i in s.sessions
      && var x := s.sessions[a.i];
         match a
         case PutStart(_, w, _) => x.access != ReadOnly && !x.closing && w !in x.puts
         case PutProbe(_, w, _) => w in x.puts && x.puts[w].Checking?
         case PutWrite(_, w, _) => w in x.puts && x.puts[w].Writing?
         case PutAnnounce(_, w) => w in x.puts && x.puts[w].Announcing?
         case PutAck(_, w) => w in x.puts && x.puts[w].Acking?
         case PutFail(_, w) => w in x.puts && !x.puts[w].Acking?
         case Receive(_) => x.phase.Idle? && x.queue != []
         case Load(_, _) => x.phase.Idle?
         case FlushStart(_) => x.phase.Idle?
         case FlushEnd(_, _, seen) => x.phase.Flushing? && x.phase.base <= seen <= s.remote
         case PruneStart(_, _) => x.phase.Idle? && x.access != ReadOnly && x.cached.Some?
         case PruneIndex(_, remote) => x.phase.Overwriting? && x.phase.pruned <= remote <= s.remote + x.phase.pruned
         case PruneIndexed(_, err) => x.phase.Overwriting? && (err.NoError? ==> x.phase.pruned <= s.remote)
         case PruneDelete(_, h, _) => x.phase.Deleting? && h in x.phase.todo
         case PruneEnd(_) => x.phase.Deleting? && x.phase.todo == {}
         case CloseStart(_) => !x.closing
         case Finish(_) => x.phase.Idle? && x.closing && x.puts == map[] && x.queue == []
         case FinishAdd(_, _) => x.phase.LastAdd?
  }

  // ---------------------------------------------- one session's share of a step

  /** A refused write is retried three times. */
  function PutAfterWrite(p: Put, result: WriteResult): Option<Put>
    requires p.Writing?
  {
    match result
    case Written => Some(Announcing(p.h))
    case Refused => if p.refused == 3 then None else Some(Writing(p.h, p.refused + 1))
    case WriteError => None
  }

  /** How a put ends whose n-th write attempt has the given outcome; None: with
      an error. */
  function PutFinally(p: Put, outcome: nat -> WriteResult): Option<Put>
    requires p.Writing? && p.refused <= 3
    decreases 4 - p.refused
  {
    match PutAfterWrite(p, outcome(p.refused))
    case None => None
    case Some(q) => if q.Writing? then PutFinally(q, outcome) else Some(q)
  }

  /** From attempt `first` on, refused writes are followed by an accepted one, in
      the first attempt or one of its three retries. */
  ghost predicate AcceptedIn(outcome: nat -> WriteResult, first: nat) {
    exists n :: first <= n <= 3 && AcceptedAt(outcome, first, n)
  }

  predicate AcceptedAt(outcome: nat -> WriteResult, first: nat, n: nat) {
    outcome(n) == Written && forall k :: first <= k < n ==> outcome(k) == Refused
  }

  /** A put writes its object exactly if one of its four attempts is accepted and
      all before it were refused. */
  lemma {:induction false} PutEndsWellExactly(p: Put, outcome: nat -> WriteResult)
    requires p.Writing? && p.refused <= 3
    ensures PutFinally(p, outcome) == Some(Announcing(p.h)) <==> AcceptedIn(outcome, p.refused)
    ensures PutFinally(p, outcome) in {None, Some(Announcing(p.h))}
    decreases 4 - p.refused
  {
    var r := p.refused;
    if outcome(r) == Written {
      assert AcceptedAt(outcome, r, r);
    } else if outcome(r) == Refused && r < 3 {
      PutEndsWellExactly(Writing(p.h, r + 1), outcome);
      if AcceptedIn(outcome, r + 1) {
        var n :| r + 1 <= n <= 3 && AcceptedAt(outcome, r + 1, n);
        assert AcceptedAt(outcome, r, n);
      }
      if AcceptedIn(outcome, r) {
        var n :| r <= n <= 3 && AcceptedAt(outcome, r, n);
        assert AcceptedAt(outcome, r + 1, n);
      }
    }
  }

  /** An error from the existence check skips the write like an existing object. */
  function PutAfterProbe(p: Put, error: bool, present: bool): Put
    requires p.Checking?
  {
    if error || present then Announcing(p.h) else Writing(p.h, 0)
  }

  function WithPut(x: Session, w: WorkerId, p: Option<Put>): Session {
    x.(puts := if p.Some? then x.puts[w := p.value] else x.puts - {w})
  }

  function Received(x: Session): Session
    requires x.queue != []
  {
    x.(queue := x.queue[1..], added := x.added + {x.queue[0]}, received := x.received + {x.queue[0]})
  }

  /** Load the index unless it is cached; any error drops what is cached. */
  function Loaded(x: Session, err: IndexError, index: Index): Session {
    if !err.NoError? then x.(cached := None, err := err)
    else x.(cached := Some(if x.cached.Some? then x.cached.value else index), err := NoError)
  }

  /** What a session that rebuilds the index from blocks, or reads it, loads. */
  function LoadableIndex(s: State, access: Access): Index {
    if access.Init? then
      if s.locking && !s.present then s.objects else s.remote + s.objects
    else s.remote
  }

  function FlushBegun(x: Session, remote: Index): Session {
    if !x.err.NoError? then x.(err := NoError)
    else if x.added != {} && x.access != ReadOnly then x.(phase := Flushing(remote))
    else x
  }

  /** The add succeeded and gave back an index, or none after the first write
      of an absent `store.lsi`. */
  function FlushDone(x: Session, returned: Option<Index>): Session {
    x.(added := {}, cached := if returned.Some? then returned else x.cached, phase := Idle)
  }

  function Finished(x: Session, remote: Index): Session {
    x.(phase :=
         if x.err.OtherError? then Closed(false)
         else if x.access == Init || (x.added != {} && x.access != ReadOnly) then LastAdd(remote)
         else Closed(true))
  }

  function Put1(s: State, i: SessionId, x: Session): State {
    s.(sessions := s.sessions[i := x])
  }

  ghost function Apply(s: State, a: Action): State
    requires Enabled(s, a)
  {
    if a.Open? then
      Put1(s, a.i, New(a.access))
    else
      var x := s.sessions[a.i];
      match a
      case PutStart(i, w, h) => Put1(s, i, WithPut(x, w, Some(Checking(h))))
      case PutProbe(i, w, error) =>
        Put1(s, i, WithPut(x, w, Some(PutAfterProbe(x.puts[w], error, x.puts[w].h in s.objects))))
      case PutWrite(i, w, result) =>
        Put1(s, i, WithPut(x, w, PutAfterWrite(x.puts[w], result)))
          .(objects := if result.Written? then s.objects + {x.puts[w].h} else s.objects)
      case PutAnnounce(i, w) =>
        var h := x.puts[w].h;
        Put1(s, i, WithPut(x, w, Some(Acking(h))).(queue := x.queue + [h], announced := x.announced + {h}))
      case PutAck(i, w) => Put1(s, i, WithPut(x, w, None).(acked := x.acked + {x.puts[w].h}))
      case PutFail(i, w) => Put1(s, i, WithPut(x, w, None))
      case Receive(i) => Put1(s, i, Received(x))
      case Load(i, err) =>
        var index := LoadableIndex(s, x.access);
        var t := Put1(s, i, Loaded(x, err, index));
        if err.NoError? && x.cached.None? && x.access.Init? then
          t.(remote := s.remote + s.objects, present := true)
        else t
      case FlushStart(i) => Put1(s, i, FlushBegun(x, s.remote))
      case FlushEnd(i, ok, seen) =>
        if !ok then Put1(s, i, x.(phase := Idle))
        else
          var returned := if s.locking && !s.present then None else Some(seen + x.added);
          Put1(s, i, FlushDone(x, returned)).(remote := s.remote + x.added, present := true)
      case PruneStart(i, keep) => Put1(s, i, x.(phase := Overwriting(View(x), View(x) * keep)))
      case PruneIndex(i, remote) => s.(remote := remote, present := true)
      case PruneIndexed(i, err) =>
        if err.NoError? then Put1(s, i, x.(phase := Deleting(Doomed(x), x.phase.pruned)))
        else Put1(s, i, x.(phase := Idle, err := err))
      case PruneDelete(i, h, ok) =>
        Put1(s, i, x.(phase := x.phase.(todo := x.phase.todo - {h})))
          .(objects := if ok then s.objects - {h} else s.objects)
      case PruneEnd(i) => Put1(s, i, x.(phase := Idle, cached := Some(x.phase.pruned), err := NoError))
      case CloseStart(i) => Put1(s, i, x.(closing := true))
      case Finish(i) => Put1(s, i, Finished(x, s.remote))
      case FinishAdd(i, ok) =>
        if ok then
          Put1(s, i, x.(added := {}, phase := Closed(true))).(remote := s.remote + x.added, present := true)
        else Put1(s, i, x.(phase := Closed(false)))
  }

  // --------------------------------------------------------- nothing dangles

  /** The block of a put that no longer needs its object checked or written. */
  ghost predicate Stored(p: Put, objects: Index) {
    (p.Announcing? || p.Acking?) ==> p.h in objects
  }

  ghost predicate Active(x: Session) {
    x.access != ReadOnly && !x.phase.Closed?
  }

  ghost predicate Prunes(x: Session) {
    x.phase.Overwriting? || x.phase.Deleting?
  }

  ghost predicate SessionSound(s: State, x: Session) {
    && (forall w :: w in x.puts ==> Stored(x.puts[w], s.objects))
    && (forall k :: 0 <= k < |x.queue| ==> x.queue[k] in s.objects)
    && x.added <= s.objects
    && (x.cached.Some? && !x.phase.Deleting? ==> x.cached.value <= s.objects)
    && (Prunes(x) ==> x.puts == map[] && x.queue == [] && x.added == {} && x.phase.pruned <= s.objects)
    && (x.phase.Overwriting? ==> x.phase.current == View(x) && x.phase.pruned <= x.phase.current)
    && (x.phase.Deleting? ==> x.phase.todo !! s.remote && x.phase.todo !! x.phase.pruned)
  }

  /** A read-only session refuses puts and so never writes an index. */
  ghost predicate OnlyReads(x: Session) {
    && x.puts == map[] && x.queue == [] && x.added == {} && x.announced == {} && x.received == {}
    && (x.phase.Idle? || x.phase.Closed?)
  }

  /** Every block that the index, a channel or a pending list of an active
      session mentions has its object; a pruning session is the only active
      one. */
  ghost predicate NothingDangles(s: State) {
    && s.remote <= s.objects
    && (forall i :: i in s.sessions && Active(s.sessions[i]) ==> SessionSound(s, s.sessions[i]))
    && (forall i, j :: i in s.sessions && j in s.sessions && i != j && Prunes(s.sessions[i]) ==> !Active(s.sessions[j]))
    && (forall i :: i in s.sessions && s.sessions[i].access == ReadOnly ==> OnlyReads(s.sessions[i]))
  }

  /** The side conditions: existence checks do not fail on missing objects; a
      prune starts with no puts, queued or pending blocks of its session and no
      other active session, none is active until it ends, and it goes on to
      delete objects only if no index file that lists them is left. */
  ghost predicate Permitted(s: State, a: Action)
    requires Enabled(s, a)
  {
    && (a.PutProbe? ==> ProbeIsSound(s, a))
    && (a.PutStart? ==> !Prunes(s.sessions[a.i]))
    && (a.PruneStart? ==> Quiet(s, a.i))
    && (a.PruneIndexed? && a.err.NoError? ==> s.remote !! Doomed(s.sessions[a.i]))
    && (forall i :: i in s.sessions && Prunes(s.sessions[i]) && i != a.i ==> Harmless(s, a))
  }

  ghost predicate ProbeIsSound(s: State, a: Action)
    requires Enabled(s, a) && a.PutProbe?
  {
    a.error ==> s.sessions[a.i].puts[a.w].h in s.objects
  }

  /** The objects that a prune is going to delete. */
  function Doomed(x: Session): Index
    requires x.phase.Overwriting?
  {
    x.phase.current - x.phase.pruned
  }

  ghost predicate Harmless(s: State, a: Action) {
    if a.Open? then a.access == ReadOnly
    else a.i in s.sessions && !Active(s.sessions[a.i])
  }

  ghost predicate Quiet(s: State, i: SessionId) {
    && i in s.sessions
    && s.sessions[i].puts == map[] && s.sessions[i].queue == [] && s.sessions[i].added == {}
    && (forall j :: j in s.sessions && j != i ==> !Active(s.sessions[j]))
  }

  // ------------------------------------------------------ one step keeps it

  lemma OthersStaySound(s: State, t: State, x: Session)
    requires SessionSound(s, x) && s.objects <= t.objects
    requires x.phase.Deleting? ==> t.remote <= s.remote
    ensures SessionSound(t, x)
  {
  }

  /** After a step of an active session that removes no object, it is enough to
      look at that session. */
  lemma GrowingStepKeeps(s: State, t: State, i: SessionId)
    requires NothingDangles(s)
    requires s.objects <= t.objects && t.remote <= t.objects
    requires i in t.sessions && s.sessions.Keys <= t.sessions.Keys <= s.sessions.Keys + {i}
    requires forall j :: j in s.sessions && j != i ==> t.sessions[j] == s.sessions[j]
    requires Active(t.sessions[i]) ==> SessionSound(t, t.sessions[i])
    requires forall j :: j in s.sessions && j != i && Prunes(s.sessions[j]) ==>
               !Active(t.sessions[i]) && t.remote == s.remote
    requires t.sessions[i].access == ReadOnly ==> OnlyReads(t.sessions[i])
    requires Prunes(t.sessions[i]) ==> forall j :: j in s.sessions && j != i ==> !Active(s.sessions[j])
    ensures NothingDangles(t)
  {
    forall j | j in t.sessions && j != i && Active(t.sessions[j])
      ensures SessionSound(t, t.sessions[j])
    {
      OthersStaySound(s, t, s.sessions[j]);
    }
  }

  lemma PutStartKeeps(s: State, a: Action)
    requires NothingDangles(s) && Enabled(s, a) && Permitted(s, a) && a.PutStart?
    ensures NothingDangles(Apply(s, a))
  {
    GrowingStepKeeps(s, Apply(s, a), a.i);
  }

  lemma PutEndKeeps(s: State, a: Action)
    requires NothingDangles(s) && Enabled(s, a) && Permitted(s, a) && (a.PutAck? || a.PutFail?)
    ensures NothingDangles(Apply(s, a))
  {
    GrowingStepKeeps(s, Apply(s, a), a.i);
  }

  lemma PutProbeKeeps(s: State, a: Action)
    requires NothingDangles(s) && Enabled(s, a) && Permitted(s, a) && a.PutProbe?
    ensures NothingDangles(Apply(s, a))
  {
    GrowingStepKeeps(s, Apply(s, a), a.i);
  }

  lemma PutWriteKeeps(s: State, a: Action)
    requires NothingDangles(s) && Enabled(s, a) && Permitted(s, a) && a.PutWrite?
    ensures NothingDangles(Apply(s, a))
  {
    GrowingStepKeeps(s, Apply(s, a), a.i);
  }

  lemma PutAnnounceKeeps(s: State, a: Action)
    requires NothingDangles(s) && Enabled(s, a) && Permitted(s, a) && a.PutAnnounce?
    ensures NothingDangles(Apply(s, a))
  {
    GrowingStepKeeps(s, Apply(s, a), a.i);
  }

  lemma PutStepKeeps(s: State, a: Action)
    requires NothingDangles(s) && Enabled(s, a) && Permitted(s, a)
    requires a.PutStart? || a.PutProbe? || a.PutWrite? || a.PutAnnounce? || a.PutAck? || a.PutFail?
    ensures NothingDangles(Apply(s, a))
  {
    if a.PutProbe? {
      PutProbeKeeps(s, a);
    } else if a.PutWrite? {
      PutWriteKeeps(s, a);
    } else if a.PutAnnounce? {
      PutAnnounceKeeps(s, a);
    } else if a.PutStart? {
      PutStartKeeps(s, a);
    } else {
      PutEndKeeps(s, a);
    }
  }

  lemma OpenStepKeeps(s: State, a: Action)
    requires NothingDangles(s) && Enabled(s, a) && Permitted(s, a) && a.Open?
    ensures NothingDangles(Apply(s, a))
  {
    GrowingStepKeeps(s, Apply(s, a), a.i);
  }

  lemma ReceiveStepKeeps(s: State, a: Action)
    requires NothingDangles(s) && Enabled(s, a) && Permitted(s, a) && a.Receive?
    ensures NothingDangles(Apply(s, a))
  {
    GrowingStepKeeps(s, Apply(s, a), a.i);
  }

  lemma FlushStartKeeps(s: State, a: Action)
    requires NothingDangles(s) && Enabled(s, a) && Permitted(s, a) && a.FlushStart?
    ensures NothingDangles(Apply(s, a))
  {
    GrowingStepKeeps(s, Apply(s, a), a.i);
  }

  lemma CloseStepKeeps(s: State, a: Action)
    requires NothingDangles(s) && Enabled(s, a) && Permitted(s, a) && (a.CloseStart? || a.Finish?)
    ensures NothingDangles(Apply(s, a))
  {
    GrowingStepKeeps(s, Apply(s, a), a.i);
  }

  /** A flush publishes pending blocks. */
  lemma FlushEndKeeps(s: State, a: Action)
    requires NothingDangles(s) && Enabled(s, a) && Permitted(s, a) && a.FlushEnd?
    ensures NothingDangles(Apply(s, a))
  {
    var x := s.sessions[a.i];
    assert Active(x) && SessionSound(s, x);
    assert x.added <= s.objects && a.seen <= s.objects;
    GrowingStepKeeps(s, Apply(s, a), a.i);
  }

  /** So does the last add at closing. */
  lemma FinishAddKeeps(s: State, a: Action)
    requires NothingDangles(s) && Enabled(s, a) && Permitted(s, a) && a.FinishAdd?
    ensures NothingDangles(Apply(s, a))
  {
    var x := s.sessions[a.i];
    assert Active(x) && SessionSound(s, x);
    assert x.added <= s.objects;
    GrowingStepKeeps(s, Apply(s, a), a.i);
  }

  lemma LoadedIsSound(s: State, x: Session, err: IndexError, index: Index, t: State)
    requires SessionSound(s, x) && x.phase.Idle? && index <= s.objects && t.objects == s.objects
    ensures SessionSound(t, Loaded(x, err, index))
  {}

  lemma LoadStepKeeps(s: State, a: Action)
    requires NothingDangles(s) && Enabled(s, a) && Permitted(s, a) && a.Load?
    ensures NothingDangles(Apply(s, a))
  {
    var x := s.sessions[a.i];
    assert Active(x) ==> SessionSound(s, x);
    assert LoadableIndex(s, x.access) <= s.objects;
    if Active(x) {
      LoadedIsSound(s, x, a.err, LoadableIndex(s, x.access), Apply(s, a));
    }
    GrowingStepKeeps(s, Apply(s, a), a.i);
  }

  lemma PruneStartKeeps(s: State, a: Action)
    requires NothingDangles(s) && Enabled(s, a) && Permitted(s, a) && (a.PruneStart? || a.PruneIndexed? || a.PruneEnd?)
    ensures NothingDangles(Apply(s, a))
  {
    GrowingStepKeeps(s, Apply(s, a), a.i);
  }

  lemma PruneIndexKeeps(s: State, a: Action)
    requires NothingDangles(s) && Enabled(s, a) && Permitted(s, a) && a.PruneIndex?
    ensures NothingDangles(Apply(s, a))
  {
    GrowingStepKeeps(s, Apply(s, a), a.i);
  }

  lemma PruneDeleteKeeps(s: State, a: Action)
    requires NothingDangles(s) && Enabled(s, a) && Permitted(s, a) && a.PruneDelete?
    ensures NothingDangles(Apply(s, a))
  {
    var t := Apply(s, a);
    var x := s.sessions[a.i];
    assert Active(x) && SessionSound(s, x);
    assert SessionSound(t, t.sessions[a.i]);
    assert forall j :: j in t.sessions && j != a.i ==> !Active(t.sessions[j]);
  }

  lemma StepKeepsNothingDangles(s: State, a: Action)
    requires NothingDangles(s) && Enabled(s, a) && Permitted(s, a)
    ensures NothingDangles(Apply(s, a))
  {
    match a {
      case PutStart(_, _, _) => PutStepKeeps(s, a);
      case PutProbe(_, _, _) => PutStepKeeps(s, a);
      case PutWrite(_, _, _) => PutStepKeeps(s, a);
      case PutAnnounce(_, _) => PutStepKeeps(s, a);
      case PutAck(_, _) => PutStepKeeps(s, a);
      case PutFail(_, _) => PutStepKeeps(s, a);
      case Load(_, _) => LoadStepKeeps(s, a);
      case PruneStart(_, _) => PruneStartKeeps(s, a);
      case PruneIndexed(_, _) => PruneStartKeeps(s, a);
      case PruneEnd(_) => PruneStartKeeps(s, a);
      case PruneIndex(_, _) => PruneIndexKeeps(s, a);
      case PruneDelete(_, _, _) => PruneDeleteKeeps(s, a);
      case FlushEnd(_, _, _) => FlushEndKeeps(s, a);
      case FinishAdd(_, _) => FinishAddKeeps(s, a);
      case CloseStart(_) => CloseStepKeeps(s, a);
      case Finish(_) => CloseStepKeeps(s, a);
      case Open(_, _) => OpenStepKeeps(s, a);
      case Receive(_) => ReceiveStepKeeps(s, a);
      case FlushStart(_) => FlushStartKeeps(s, a);
    }
  }

  // ------------------------------------------------------------- whole runs

  ghost predicate Initial(s: State) {
    s.sessions == map[] && s.remote <= s.objects
  }

  ghost predicate Run(tr: seq<State>, acts: seq<Action>) {
    && |tr| == |acts| + 1
    && Initial(tr[0])
    && (forall i :: 0 <= i < |acts| ==> Enabled(tr[i], acts[i]) && tr[i + 1] == Apply(tr[i], acts[i]))
  }

  ghost predicate AllPermitted(tr: seq<State>, acts: seq<Action>)
    requires Run(tr, acts)
  {
    forall i :: 0 <= i < |acts| ==> Permitted(tr[i], acts[i])
  }

  /** At every intermediate step of every interleaving of puts, flushes, prunes
      and closes, every block in the remote index, and every block that an
      active session has announced or has pending, has its object. */
  lemma {:induction false} NothingEverDangles(tr: seq<State>, acts: seq<Action>, n: nat)
    requires Run(tr, acts) && AllPermitted(tr, acts) && n < |tr|
    ensures NothingDangles(tr[n])
    ensures tr[n].remote <= tr[n].objects
  {
    if n > 0 {
      NothingEverDangles(tr, acts, n - 1);
      StepKeepsNothingDangles(tr[n - 1], acts[n - 1]);
    }
  }

  // ------------------------------------- when a prune or a probe leaves danglers

  /** Every block that the remote index lists, or that an active session has
      announced and not yet published, has its object. */
  ghost predicate Backed(s: State) {
    && s.remote <= s.objects
    && forall i :: i in s.sessions && Active(s.sessions[i]) ==>
         && (forall h :: h in s.sessions[i].queue ==> h in s.objects)
         && s.sessions[i].added <= s.objects
  }

  /** A run that goes on from state s under the side conditions. */
  ghost predicate GoesOn(s: State, tr: seq<State>, acts: seq<Action>) {
    && |tr| == |acts| + 1 && tr[0] == s
    && forall n :: 0 <= n < |acts| ==>
         Enabled(tr[n], acts[n]) && Permitted(tr[n], acts[n]) && tr[n + 1] == Apply(tr[n], acts[n])
  }

  ghost predicate StaysBacked(s: State) {
    forall tr, acts, n: nat :: GoesOn(s, tr, acts) && n < |tr| ==> Backed(tr[n])
  }

  lemma {:induction false} GoingOnKeepsNothingDangles(s: State, tr: seq<State>, acts: seq<Action>, n: nat)
    requires NothingDangles(s) && GoesOn(s, tr, acts) && n < |tr|
    ensures NothingDangles(tr[n])
  {
    if n > 0 {
      GoingOnKeepsNothingDangles(s, tr, acts, n - 1);
      StepKeepsNothingDangles(tr[n - 1], acts[n - 1]);
    }
  }

  lemma NothingDanglesIsBacked(s: State)
    requires NothingDangles(s)
    ensures Backed(s)
  {
    forall i, h | i in s.sessions && Active(s.sessions[i]) && h in s.sessions[i].queue
      ensures h in s.objects
    {
      assert SessionSound(s, s.sessions[i]);
    }
  }

  /** The put of worker w announces its block, whose object is missing. */
  lemma AnnouncingUnbacked(s: State, i: SessionId, w: WorkerId)
    requires Enabled(s, PutAnnounce(i, w)) && Active(s.sessions[i]) && s.sessions[i].puts[w].h !in s.objects
    ensures !Backed(Apply(s, PutAnnounce(i, w)))
  {
    var x := s.sessions[i];
    var t := Apply(s, PutAnnounce(i, w));
    var y := t.sessions[i];
    assert y.queue[|x.queue|] == x.puts[w].h;
    assert x.puts[w].h in y.queue && x.puts[w].h !in t.objects;
  }

  /** After an existence check that fails, every run that goes on keeps all
      announced and indexed blocks backed by their objects exactly if the object
      was there; if it was not, the announcement alone breaks that. */
  lemma FailedProbeExactly(s: State, i: SessionId, w: WorkerId)
    requires NothingDangles(s) && Enabled(s, PutProbe(i, w, true)) && Active(s.sessions[i])
    requires forall j :: j in s.sessions && j != i ==> !Prunes(s.sessions[j])
    ensures StaysBacked(Apply(s, PutProbe(i, w, true))) <==> s.sessions[i].puts[w].h in s.objects
  {
    var a := PutProbe(i, w, true);
    var t := Apply(s, a);
    if s.sessions[i].puts[w].h in s.objects {
      PutStepKeeps(s, a);
      forall tr, acts, n: nat | GoesOn(t, tr, acts) && n < |tr|
        ensures Backed(tr[n])
      {
        GoingOnKeepsNothingDangles(t, tr, acts, n);
        NothingDanglesIsBacked(tr[n]);
      }
    } else {
      var b := PutAnnounce(i, w);
      assert Enabled(t, b) && Permitted(t, b);
      AnnouncingUnbacked(t, i, w);
      var tr, acts := [t, Apply(t, b)], [b];
      assert GoesOn(t, tr, acts) && !Backed(tr[1]);
    }
  }

  /** Delete what the prune has doomed, object by object, and end it. */
  ghost function DeleteDoomed(s: State, i: SessionId): (t: State)
    requires i in s.sessions && s.sessions[i].phase.Deleting?
    ensures t.objects == s.objects - s.sessions[i].phase.todo && t.remote == s.remote
    ensures i in t.sessions && t.sessions[i].added == s.sessions[i].added && t.sessions[i].phase.Idle?
    decreases |s.sessions[i].phase.todo|
  {
    if s.sessions[i].phase.todo == {} then Apply(s, PruneEnd(i))
    else var h :| h in s.sessions[i].phase.todo; DeleteDoomed(Apply(s, PruneDelete(i, h, true)), i)
  }

  /** A whole prune; the overwrite leaves `remote` in the index files. */
  ghost function Pruned(s: State, i: SessionId, keep: Index, remote: Index): State
    requires Enabled(s, PruneStart(i, keep))
    requires View(s.sessions[i]) * keep <= remote <= s.remote + View(s.sessions[i]) * keep
  {
    var begun := Apply(s, PruneStart(i, keep));
    var overwritten := Apply(begun, PruneIndex(i, remote));
    DeleteDoomed(Apply(overwritten, PruneIndexed(i, NoError)), i)
  }

  /** After a prune that starts with pending blocks they all still have their
      objects exactly if all of them were to be kept; and the index files that
      were left list no missing object exactly if they list nothing that was
      cached but not kept. */
  lemma PruneExactly(s: State, i: SessionId, keep: Index, remote: Index)
    requires Enabled(s, PruneStart(i, keep))
    requires View(s.sessions[i]) * keep <= remote <= s.remote + View(s.sessions[i]) * keep
    requires s.sessions[i].added <= s.objects && remote <= s.objects
    ensures var t := Pruned(s, i, keep, remote);
            && i in t.sessions
            && (t.sessions[i].added <= t.objects <==> s.sessions[i].added <= keep)
            && (t.remote <= t.objects <==> remote * View(s.sessions[i]) <= keep)
  {
    var begun := Apply(s, PruneStart(i, keep));
    var overwritten := Apply(begun, PruneIndex(i, remote));
    var deleting := Apply(overwritten, PruneIndexed(i, NoError));
    var x := s.sessions[i];
    assert deleting.sessions[i].phase.todo == View(x) - keep;
    assert x.added <= View(x);
  }

  // ------------------------------------------------ no announced block is lost

  /** Where the blocks that a session has announced are, while nothing prunes. */
  ghost predicate Tracked(s: State, x: Session) {
    && (forall h :: h in x.announced <==> h in x.received || h in x.queue)
    && x.added <= x.received <= x.added + s.remote
    && x.acked <= x.announced
    && (forall w :: w in x.puts && x.puts[w].Acking? ==> x.puts[w].h in x.announced)
    && (x.phase.Flushing? || x.phase.LastAdd? ==> x.phase.base <= s.remote && x.received <= x.added + x.phase.base)
    && (x.phase.LastAdd? || x.phase.Closed? ==> x.closing && x.queue == [] && x.puts == map[])
    && (x.phase == Closed(true) && x.access != ReadOnly ==> x.announced <= s.remote)
    && !Prunes(x)
  }

  ghost predicate AllTracked(s: State) {
    forall i :: i in s.sessions ==> Tracked(s, s.sessions[i])
  }

  lemma OthersStayTracked(s: State, t: State, x: Session)
    requires Tracked(s, x) && s.remote <= t.remote
    ensures Tracked(t, x)
  {
  }

  lemma PutStepTracks(s: State, a: Action)
    requires AllTracked(s) && Enabled(s, a)
    requires a.PutStart? || a.PutProbe? || a.PutWrite? || a.PutAnnounce? || a.PutAck? || a.PutFail?
    ensures Tracked(Apply(s, a), Apply(s, a).sessions[a.i])
  {
    var x := s.sessions[a.i];
    var y := Apply(s, a).sessions[a.i];
    assert Tracked(s, x);
    if a.PutAnnounce? {
      assert y.queue == x.queue + [x.puts[a.w].h];
    }
  }

  lemma ReceiveTracks(s: State, i: SessionId)
    requires AllTracked(s) && Enabled(s, Receive(i))
    ensures Tracked(Apply(s, Receive(i)), Apply(s, Receive(i)).sessions[i])
  {
    var x := s.sessions[i];
    var y := Apply(s, Receive(i)).sessions[i];
    assert Tracked(s, x);
    assert x.queue == [x.queue[0]] + y.queue;
  }

  lemma LoadTracks(s: State, a: Action)
    requires AllTracked(s) && Enabled(s, a) && a.Load?
    ensures Tracked(Apply(s, a), Apply(s, a).sessions[a.i])
  {
    assert Tracked(s, s.sessions[a.i]);
  }

  lemma FlushStartTracks(s: State, a: Action)
    requires AllTracked(s) && Enabled(s, a) && a.FlushStart?
    ensures Tracked(Apply(s, a), Apply(s, a).sessions[a.i])
  {
    assert Tracked(s, s.sessions[a.i]);
  }

  lemma FlushEndTracks(s: State, a: Action)
    requires AllTracked(s) && Enabled(s, a) && a.FlushEnd?
    ensures Tracked(Apply(s, a), Apply(s, a).sessions[a.i])
  {
    var x := s.sessions[a.i];
    assert Tracked(s, x) && !a.ok ==> Tracked(s, x.(phase := Idle));
  }

  lemma CloseStepTracks(s: State, a: Action)
    requires AllTracked(s) && Enabled(s, a) && (a.CloseStart? || a.Finish? || a.FinishAdd?)
    ensures Tracked(Apply(s, a), Apply(s, a).sessions[a.i])
  {
    assert Tracked(s, s.sessions[a.i]);
  }

  lemma OpenTracks(s: State, a: Action)
    requires AllTracked(s) && Enabled(s, a) && a.Open?
    ensures Tracked(Apply(s, a), Apply(s, a).sessions[a.i])
  {}

  lemma StepTracks(s: State, a: Action)
    requires AllTracked(s) && Enabled(s, a) && !a.PruneStart?
    ensures AllTracked(Apply(s, a)) && s.remote <= Apply(s, a).remote
  {
    var t := Apply(s, a);
    assert a.i in s.sessions ==> Tracked(s, s.sessions[a.i]);
    match a {
      case PutStart(_, _, _) => PutStepTracks(s, a);
      case PutProbe(_, _, _) => PutStepTracks(s, a);
      case PutWrite(_, _, _) => PutStepTracks(s, a);
      case PutAnnounce(_, _) => PutStepTracks(s, a);
      case PutAck(_, _) => PutStepTracks(s, a);
      case PutFail(_, _) => PutStepTracks(s, a);
      case Receive(i) => ReceiveTracks(s, i);
      case Load(_, _) => LoadTracks(s, a);
      case FlushStart(_) => FlushStartTracks(s, a);
      case FlushEnd(_, _, _) => FlushEndTracks(s, a);
      case CloseStart(_) => CloseStepTracks(s, a);
      case Finish(_) => CloseStepTracks(s, a);
      case FinishAdd(_, _) => CloseStepTracks(s, a);
      case Open(_, _) => OpenTracks(s, a);
      case _ =>
    }
    forall i | i in t.sessions && i != a.i
      ensures Tracked(t, t.sessions[i])
    {
      OthersStayTracked(s, t, s.sessions[i]);
    }
  }

  ghost predicate PruneFree(acts: seq<Action>) {
    forall i :: 0 <= i < |acts| ==> !acts[i].PruneStart?
  }

  lemma {:induction false} RunTracks(tr: seq<State>, acts: seq<Action>, n: nat)
    requires Run(tr, acts) && PruneFree(acts) && n < |tr|
    ensures AllTracked(tr[n])
  {
    if n > 0 {
      RunTracks(tr, acts, n - 1);
      StepTracks(tr[n - 1], acts[n - 1]);
    }
  }

  /** In prune-free runs every announced block is in the channel, pending, or in
      the remote index; and once a writing session has closed without an index
      error, every put that it acknowledged is in the remote index. */
  lemma NoAnnouncedBlockIsLost(tr: seq<State>, acts: seq<Action>, n: nat, i: SessionId)
    requires Run(tr, acts) && PruneFree(acts) && n < |tr| && i in tr[n].sessions
    ensures var x := tr[n].sessions[i];
            && (forall h :: h in x.announced ==> h in x.queue || h in x.added || h in tr[n].remote)
            && (x.phase == Closed(true) && x.access != ReadOnly ==> x.acked <= tr[n].remote)
  {
    RunTracks(tr, acts, n);
    var x := tr[n].sessions[i];
    assert Tracked(tr[n], x);
  }

  // ------------------------------------------- the cached index keeps up

  /** While the session is open, the index that would answer a query lists every
      block received. */
  ghost predicate Answers(x: Session) {
    x.cached.Some? && !x.phase.Closed? ==> x.received <= View(x)
  }

  /** A flush gives no index back when it is the first write of `store.lsi`; a
      cached index then stays in use, without the flushed blocks. */
  ghost predicate CacheKeepsUp(s: State, a: Action)
    requires Enabled(s, a)
  {
    a.FlushEnd? && a.ok && s.locking && !s.present && s.sessions[a.i].cached.Some? ==>
      s.sessions[a.i].added <= s.sessions[a.i].cached.value
  }

  /** After a successful flush the cached index lists all received blocks
      exactly if it was not the first locked write, or nothing was cached, or
      the cached index listed the flushed blocks anyway. */
  lemma FlushKeepsUpExactly(s: State, i: SessionId, seen: Index)
    requires Enabled(s, FlushEnd(i, true, seen)) && Tracked(s, s.sessions[i]) && Answers(s.sessions[i])
    ensures Answers(Apply(s, FlushEnd(i, true, seen)).sessions[i]) <==> CacheKeepsUp(s, FlushEnd(i, true, seen))
  {
    var x := s.sessions[i];
    assert Tracked(s, x);
    var y := Apply(s, FlushEnd(i, true, seen)).sessions[i];
    if s.locking && !s.present {
      assert x.cached.Some? ==> View(y) == x.cached.value;
    } else {
      assert View(y) == seen + x.added;
    }
  }

  /** Before `store.lsi` is first written, every indexed block has its object;
      a session that rebuilds the index then finds all of them. */
  ghost predicate FirstFlushIsSound(s: State) {
    !s.present ==> s.remote <= s.objects
  }

  lemma StepKeepsFirstFlushSound(s: State, a: Action)
    requires AllTracked(s) && FirstFlushIsSound(s) && Enabled(s, a) && !a.PruneStart?
    ensures FirstFlushIsSound(Apply(s, a))
  {
    assert a.i in s.sessions ==> Tracked(s, s.sessions[a.i]);
  }

  lemma {:induction false} RunKeepsFirstFlushSound(tr: seq<State>, acts: seq<Action>, n: nat)
    requires Run(tr, acts) && PruneFree(acts) && n < |tr|
    ensures FirstFlushIsSound(tr[n])
  {
    if n > 0 {
      RunKeepsFirstFlushSound(tr, acts, n - 1);
      RunTracks(tr, acts, n - 1);
      StepKeepsFirstFlushSound(tr[n - 1], acts[n - 1]);
    }
  }

  lemma LoadAnswers(s: State, i: SessionId, err: IndexError)
    requires Enabled(s, Load(i, err)) && Tracked(s, s.sessions[i]) && FirstFlushIsSound(s) && Answers(s.sessions[i])
    ensures Answers(Loaded(s.sessions[i], err, LoadableIndex(s, s.sessions[i].access)))
  {
    var x := s.sessions[i];
    var index := LoadableIndex(s, x.access);
    assert Tracked(s, x) && s.remote <= index;
    assert err.NoError? && x.cached.None? ==> View(Loaded(x, err, index)) == index + x.added;
    assert err.NoError? && x.cached.Some? ==> View(Loaded(x, err, index)) == View(x);
  }

  lemma OtherStepAnswers(s: State, a: Action, t: State)
    requires Enabled(s, a) && t == Apply(s, a)
    requires a.i in s.sessions && Tracked(s, s.sessions[a.i]) && Answers(s.sessions[a.i])
    requires !a.PruneStart? && !a.Load? && !(a.FlushEnd? && a.ok)
    ensures Answers(t.sessions[a.i])
  {
  }

  lemma StepAnswers(s: State, a: Action, t: State)
    requires Enabled(s, a) && t == Apply(s, a)
    requires FirstFlushIsSound(s) && CacheKeepsUp(s, a) && !a.PruneStart?
    requires a.i in s.sessions ==> Tracked(s, s.sessions[a.i]) && Answers(s.sessions[a.i])
    ensures a.i in t.sessions && Answers(t.sessions[a.i])
  {
    if a.i in s.sessions {
      if a.FlushEnd? && a.ok {
        FlushKeepsUpExactly(s, a.i, a.seen);
      } else if a.Load? {
        LoadAnswers(s, a.i, a.err);
      } else {
        OtherStepAnswers(s, a, t);
      }
    }
  }

  ghost predicate AllKeepUp(tr: seq<State>, acts: seq<Action>)
    requires Run(tr, acts)
  {
    forall i :: 0 <= i < |acts| ==> CacheKeepsUp(tr[i], acts[i])
  }

  /** Before and after any number of flushes, the index that answers a session's
      queries lists every block index that its index worker has received. */
  lemma {:induction false} QueriesSeeEverythingReceived(tr: seq<State>, acts: seq<Action>, n: nat, i: SessionId)
    requires Run(tr, acts) && PruneFree(acts) && AllKeepUp(tr, acts)
    requires n < |tr| && i in tr[n].sessions
    ensures Answers(tr[n].sessions[i])
  {
    if n > 0 {
      var s, a := tr[n - 1], acts[n - 1];
      if i in s.sessions {
        QueriesSeeEverythingReceived(tr, acts, n - 1, i);
      }
      if a.i == i {
        RunTracks(tr, acts, n - 1);
        RunKeepsFirstFlushSound(tr, acts, n - 1);
        StepAnswers(s, a, tr[n]);
      }
    }
  }

  // ------------------------------------------- what goes wrong, from the start

  ghost predicate Reaches(tr: seq<State>, acts: seq<Action>, s: State) {
    Run(tr, acts) && tr[|tr| - 1] == s
  }

  lemma Extend(tr: seq<State>, acts: seq<Action>, s: State, a: Action) returns (longer: seq<State>, more: seq<Action>)
    requires Reaches(tr, acts, s) && Enabled(s, a)
    ensures Reaches(longer, more, Apply(s, a)) && more == acts + [a]
  {
    longer, more := tr + [Apply(s, a)], acts + [a];
  }

  /** The only session is session 0. */
  function Alone(objects: Index, remote: Index, locking: bool, present: bool, x: Session): State {
    State(objects, remote, locking, present, map[0 := x])
  }

  /** A step that only changes the session, from x to y. */
  lemma ExtendAlone(
      tr: seq<State>, acts: seq<Action>, objects: Index, locking: bool, x: Session, a: Action, y: Session)
    returns (longer: seq<State>, more: seq<Action>)
    requires var s := Alone(objects, {}, locking, false, x);
             Reaches(tr, acts, s) && Enabled(s, a) && Apply(s, a) == Put1(s, 0, y)
    ensures Reaches(longer, more, Alone(objects, {}, locking, false, y)) && more == acts + [a]
  {
    assert map[0 := x][0 := y] == map[0 := y];
    longer, more := Extend(tr, acts, Alone(objects, {}, locking, false, x), a);
  }

  function Putting(p: Put, cached: Option<Index>): Session {
    New(ReadWrite).(puts := map[0 := p], cached := cached)
  }

  lemma PutMoves(p: Put, q: Put, cached: Option<Index>)
    ensures WithPut(Putting(p, cached), 0, Some(q)) == Putting(q, cached)
    ensures WithPut(New(ReadWrite).(cached := cached), 0, Some(q)) == Putting(q, cached)
  {
    assert map[0 := p][0 := q] == map[0 := q];
  }

  /** The session that has announced and acknowledged block h; then received it. */
  function Announced(h: BlockHash, cached: Option<Index>): Session {
    New(ReadWrite).(queue := [h], announced := {h}, acked := {h}, cached := cached)
  }

  function Waiting(h: BlockHash, cached: Option<Index>): Session {
    New(ReadWrite).(added := {h}, received := {h}, announced := {h}, acked := {h}, cached := cached)
  }

  lemma Announces(
      tr: seq<State>, acts: seq<Action>, h: BlockHash, objects: Index, locking: bool, cached: Option<Index>)
    returns (longer: seq<State>, more: seq<Action>)
    requires Reaches(tr, acts, Alone(objects, {}, locking, false, Putting(Announcing(h), cached)))
    ensures Reaches(longer, more, Alone(objects, {}, locking, false, Announced(h, cached)))
    ensures more == acts + [PutAnnounce(0, 0), PutAck(0, 0)]
  {
    var x := Putting(Announcing(h), cached);
    var y := Putting(Acking(h), cached).(queue := [h], announced := {h});
    assert [] + [h] == [h] && {} + {h} == {h};
    PutMoves(Announcing(h), Acking(h), cached);
    longer, more := ExtendAlone(tr, acts, objects, locking, x, PutAnnounce(0, 0), y);
    assert map[0 := Acking(h)] - {0} == map[];
    longer, more := ExtendAlone(longer, more, objects, locking, y, PutAck(0, 0), Announced(h, cached));
  }

  lemma ReceivesAndFlushes(
      tr: seq<State>, acts: seq<Action>, h: BlockHash, objects: Index, locking: bool, cached: Option<Index>)
    returns (longer: seq<State>, more: seq<Action>)
    requires Reaches(tr, acts, Alone(objects, {}, locking, false, Announced(h, cached)))
    ensures Reaches(longer, more, Alone(objects, {}, locking, false, Waiting(h, cached).(phase := Flushing({}))))
    ensures more == acts + [Receive(0), FlushStart(0)]
  {
    assert [h][1..] == [] && {} + {h} == {h};
    longer, more := ExtendAlone(tr, acts, objects, locking, Announced(h, cached), Receive(0), Waiting(h, cached));
    assert h in Waiting(h, cached).added;
    longer, more := ExtendAlone(longer, more, objects, locking, Waiting(h, cached), FlushStart(0),
                                Waiting(h, cached).(phase := Flushing({})));
  }

  /** A session that has to put block h, over an empty store. */
  lemma StartsToPut(h: BlockHash, locking: bool, cached: Option<Index>) returns (tr: seq<State>, acts: seq<Action>)
    requires cached == None || cached == Some({})
    ensures Reaches(tr, acts, Alone({}, {}, locking, false, Putting(Checking(h), cached)))
    ensures acts == [Open(0, ReadWrite)] + (if cached.Some? then [Load(0, NoError)] else []) + [PutStart(0, 0, h)]
  {
    var s := State({}, {}, locking, false, map[]);
    tr, acts := [s], [];
    tr, acts := Extend(tr, acts, s, Open(0, ReadWrite));
    assert Apply(s, Open(0, ReadWrite)) == Alone({}, {}, locking, false, New(ReadWrite));
    if cached.Some? {
      tr, acts := ExtendAlone(tr, acts, {}, locking, New(ReadWrite), Load(0, NoError),
                              New(ReadWrite).(cached := cached));
    }
    PutMoves(Checking(h), Checking(h), cached);
    assert New(ReadWrite).(cached := None) == New(ReadWrite);
    tr, acts := ExtendAlone(tr, acts, {}, locking, New(ReadWrite).(cached := cached), PutStart(0, 0, h),
                            Putting(Checking(h), cached));
  }

  /** The flush publishes block h. */
  lemma Publishes(
      tr: seq<State>, acts: seq<Action>, h: BlockHash, objects: Index, locking: bool, cached: Option<Index>)
    returns (longer: seq<State>, more: seq<Action>, t: State)
    requires Reaches(tr, acts, Alone(objects, {}, locking, false, Waiting(h, cached).(phase := Flushing({}))))
    ensures Reaches(longer, more, t) && more == acts + [FlushEnd(0, true, {})]
    ensures 0 in t.sessions && t.objects == objects && t.remote == {h}
    ensures t.sessions[0] == Waiting(h, cached).(added := {}, cached := if locking then cached else Some({h}))
  {
    var s := Alone(objects, {}, locking, false, Waiting(h, cached).(phase := Flushing({})));
    assert {} + {h} == {h};
    longer, more := Extend(tr, acts, s, FlushEnd(0, true, {}));
    t := Apply(s, FlushEnd(0, true, {}));
  }

  /** A session opens and starts to put block h, its existence check fails, and
      the flush lists a block that was never written. */
  lemma FailedProbeDangles(h: BlockHash) returns (tr: seq<State>, acts: seq<Action>, s: State)
    ensures Reaches(tr, acts, s)
    ensures acts == [Open(0, ReadWrite), PutStart(0, 0, h), PutProbe(0, 0, true), PutAnnounce(0, 0), PutAck(0, 0),
                     Receive(0), FlushStart(0), FlushEnd(0, true, {})]
    ensures s.objects == {} && s.remote == {h} && 0 in s.sessions && s.sessions[0].acked == {h}
  {
    tr, acts := StartsToPut(h, false, None);
    PutMoves(Checking(h), Announcing(h), None);
    tr, acts := ExtendAlone(tr, acts, {}, false, Putting(Checking(h), None), PutProbe(0, 0, true),
                            Putting(Announcing(h), None));
    tr, acts := Announces(tr, acts, h, {}, false, None);
    tr, acts := ReceivesAndFlushes(tr, acts, h, {}, false, None);
    tr, acts, s := Publishes(tr, acts, h, {}, false, None);
  }

  lemma Writes(tr: seq<State>, acts: seq<Action>, h: BlockHash, cached: Option<Index>)
    returns (longer: seq<State>, more: seq<Action>)
    requires Reaches(tr, acts, Alone({}, {}, true, false, Putting(Checking(h), cached)))
    ensures Reaches(longer, more, Alone({h}, {}, true, false, Putting(Announcing(h), cached)))
    ensures more == acts + [PutProbe(0, 0, false), PutWrite(0, 0, Written)]
  {
    PutMoves(Checking(h), Writing(h, 0), cached);
    PutMoves(Writing(h, 0), Announcing(h), cached);
    longer, more := ExtendAlone(tr, acts, {}, true, Putting(Checking(h), cached), PutProbe(0, 0, false),
                                Putting(Writing(h, 0), cached));
    var s := Alone({}, {}, true, false, Putting(Writing(h, 0), cached));
    longer, more := Extend(longer, more, s, PutWrite(0, 0, Written));
    assert map[0 := s.sessions[0]][0 := Putting(Announcing(h), cached)] == map[0 := Putting(Announcing(h), cached)];
    assert {} + {h} == {h};
  }

  /** A session queries an empty locked store, puts block h and flushes: its next
      answers miss the block that it has just flushed. */
  lemma FirstLockedFlushFallsBehind(h: BlockHash) returns (tr: seq<State>, acts: seq<Action>, s: State)
    ensures Reaches(tr, acts, s)
    ensures acts == [Open(0, ReadWrite), Load(0, NoError), PutStart(0, 0, h), PutProbe(0, 0, false),
                     PutWrite(0, 0, Written), PutAnnounce(0, 0), PutAck(0, 0), Receive(0), FlushStart(0),
                     FlushEnd(0, true, {})]
    ensures s.remote == {h} && 0 in s.sessions && s.sessions[0].phase.Idle? && View(s.sessions[0]) == {}
  {
    tr, acts := StartsToPut(h, true, Some({}));
    tr, acts := Writes(tr, acts, h, Some({}));
    tr, acts := Announces(tr, acts, h, {h}, true, Some({}));
    tr, acts := ReceivesAndFlushes(tr, acts, h, {h}, true, Some({}));
    tr, acts, s := Publishes(tr, acts, h, {h}, true, Some({}));
  }
}
