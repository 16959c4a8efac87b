/** What every run of the write-behind engine guarantees about the target and the backlog. */
module Convergence {
  import opened Files
  import opened Ranges
  import opened Queue
  import opened Renames
  import opened WriteBehind
  import opened WriteBehindInvariant

  /**
    In every reachable state a byte the mount wrote is on the target, or its
    write is still to be enqueued, or it is dirty, or in flight, or its last
    send was dropped; unless it is tainted, which claiming it again ends.
   */
  lemma EveryByteAccounted(s: System, p: Path, o: nat)
    requires Reachable(s) && Loc(p, o) !in s.tainted && Loc(p, o) in s.written
    ensures Agree(s, p, o) || Unqueued(s, p, o) || DirtyAt(s, p, o) || FlightAt(s, p, o) || Loc(p, o) in s.lost
  {
    ReachableInv(s);
    assert ByteOk(s, p, o);
  }

  // ----- what one write does

  ghost predicate Stored(s: System, t: nat) {
    t < |s.threads| && s.threads[t].Writing? && s.threads[t].done == |s.threads[t].data|
  }

  /** Nothing of the write is stored yet. */
  ghost predicate Begun(s: System, t: nat, path: Path, off: nat, data: File) {
    t < |s.threads| && s.threads[t] == Writing(path, off, data, 0)
  }

  lemma BeginWriteBegins(s: System, t: nat, path: Path, off: nat, data: File)
    requires Inv(s) && Enabled(s, BeginWrite(t, path, off, data))
    ensures var s' := Do(s, BeginWrite(t, path, off, data));
      && Inv(s') && Begun(s', t, path, off, data) && s'.q == s.q
      && forall p :: FileAt(s'.cache, p) == FileAt(s.cache, p)
  {
    StepInv(s, BeginWrite(t, path, off, data));
  }

  lemma AllParts(s: System, t: nat, path: Path, off: nat, data: File, parts: seq<Step>)
    requires Inv(s) && Begun(s, t, path, off, data) && Runs(s, parts)
    requires forall k | 0 <= k < |parts| :: parts[k].WriteSome? && parts[k].t == t
    requires Stored(Exec(s, parts), t)
    ensures Inv(Exec(s, parts)) && Exec(s, parts).threads[t] == Writing(path, off, data, |data|)
    ensures FileAt(Exec(s, parts).cache, path) == WriteAt(FileAt(s.cache, path), off, data)
  {
    RunInv(s, parts);
    PartsAreTheWrite(s, t, parts);
    assert data[0..|data|] == data;
  }

  /**
    In whatever parts a thread stores its write, the data ends up at its offset of
    its cache file, and the enqueue then makes exactly those bytes dirty besides the
    ones that are.
   */
  lemma WriteIsQueued(s: System, t: nat, path: Path, off: nat, data: File, parts: seq<Step>, p: Path, o: nat)
    requires Reachable(s) && Enabled(s, BeginWrite(t, path, off, data))
    requires Runs(Do(s, BeginWrite(t, path, off, data)), parts)
    requires forall k | 0 <= k < |parts| :: parts[k].WriteSome? && parts[k].t == t
    requires Stored(Exec(Do(s, BeginWrite(t, path, off, data)), parts), t)
    ensures var s' := Exec(Do(s, BeginWrite(t, path, off, data)), parts);
      && FileAt(s'.cache, path) == WriteAt(FileAt(s.cache, path), off, data)
      && (DirtyAt(DoEnqueue(s', t), p, o)
          <==> DirtyAt(s', p, o) || (p == path && off <= o < off + |data|))
  {
    ReachableInv(s);
    BeginWriteBegins(s, t, path, off, data);
    var s1 := Do(s, BeginWrite(t, path, off, data));
    AllParts(s1, t, path, off, data, parts);
    EnqueueDirtyAt(Exec(s1, parts), t, p, o);
  }

  /** A write the cache refuses goes to the target instead: what landed is there, the queue never sees it. */
  lemma DirectWriteLands(s: System, t: nat, landed: nat, o: nat)
    requires Enabled(s, FailWrite(t, landed)) && s.threads[t].path in s.target
    ensures var th, s' := s.threads[t], Do(s, FailWrite(t, landed));
      && s'.q == s.q && s'.cache == s.cache
      && (th.off <= o < th.off + landed ==>
            o < |FileAt(s'.target, th.path)| && FileAt(s'.target, th.path)[o] == th.data[o - th.off])
  {
    var th := s.threads[t];
    WriteAtEffect(s.target[th.path], th.off, th.data[..landed], o);
  }

  /** No claim is made before the pause that a failed send opened is over, unless another piece is answered. */
  lemma RetryWaits(s: System, piece: Piece, steps: seq<Step>, batch: seq<Piece>)
    requires Enabled(s, FinishPiece(piece, Retry)) && Runs(Do(s, FinishPiece(piece, Retry)), steps)
    requires forall k | 0 <= k < |steps| :: !steps[k].FinishPiece?
    requires Enabled(Exec(Do(s, FinishPiece(piece, Retry)), steps), TakeBatch(batch))
    ensures Exec(Do(s, FinishPiece(piece, Retry)), steps).now >= s.now + Min(2 * Max(s.q.backoffMs, 100), 2000)
  {
    RetryAfterStays(Do(s, FinishPiece(piece, Retry)), steps);
  }

  lemma RetryAfterStep(s: System, step: Step)
    requires Enabled(s, step) && !step.FinishPiece?
    ensures Do(s, step).q.retryAfter == s.q.retryAfter
  {
    match step
    case TakeBatch(batch) => BatchKeepsRest(s.q, batch);
    case PassDrain(_, _) => assert Do(s, step).q == s.q;
    case _ =>
  }

  lemma {:induction false} RetryAfterStays(s: System, steps: seq<Step>)
    requires Runs(s, steps) && forall k | 0 <= k < |steps| :: !steps[k].FinishPiece?
    ensures Exec(s, steps).q.retryAfter == s.q.retryAfter
    decreases |steps|
  {
    if steps == [] {
    } else {
      RetryAfterStep(s, steps[0]);
      assert forall k | 0 <= k < |steps| - 1 :: steps[1..][k] == steps[k + 1];
      RetryAfterStays(Do(s, steps[0]), steps[1..]);
    }
  }

  // ----- runs without permanent failures

  /** The rename reaches both sides or neither, and leaves nothing queued under an old name. */
  ghost predicate CleanRename(s: System, from: Path, to: Path, done: bool) {
    && (Movable(s.cache, from, to) <==> done && Movable(s.target, from, to))
    && EmptyBelow(s.q, from) && EmptyBelow(s.q, to)
  }

  /** No piece is dropped, no cache write fails, every rename is clean. */
  ghost predicate CleanStep(s: System, step: Step)
    requires Enabled(s, step)
  {
    match step
    case FinishPiece(_, outcome) => outcome != Drop
    case FailWrite(_, _) => false
    case PassDrain(t, done) =>
      var op := s.threads[t].op; op.Rename? ==> CleanRename(s, op.path, op.to, done)
    case _ => true
  }

  ghost predicate CleanRun(s: System, steps: seq<Step>)
    requires Runs(s, steps)
    decreases |steps|
  {
    steps == [] || (CleanStep(s, steps[0]) && CleanRun(Do(s, steps[0]), steps[1..]))
  }

  /** The drain and the empty queue below leave nothing pending at or below either name. */
  lemma NothingPending(q: State, from: Path, to: Path, startErrors: nat)
    requires EmptyBelow(q, from) && EmptyBelow(q, to) && DrainPoll(q, [from, to], startErrors) == Drained
    ensures AtOrBelow(QueuedLocs(q.inflight), from, to) == {} && AtOrBelow(PendingLocs(q), from, to) == {}
  {
    assert [from, to][0] == from && [from, to][1] == to;
    forall p | Under(from, p) || Under(to, p) ensures Get(q.dirty, p) == [] && Get(q.inflight, p) == [] {
      assert p == from || p == to || Below(from, p) || Below(to, p);
    }
  }

  lemma CleanStepKeeps(s: System, step: Step)
    requires Enabled(s, step) && CleanStep(s, step) && s.lost == {} && s.tainted == {}
    ensures Do(s, step).lost == {} && Do(s, step).tainted == {}
  {
    if step.PassDrain? && s.threads[step.t].op.Rename? {
      var op := s.threads[step.t].op;
      NothingPending(s.q, op.path, op.to, s.threads[step.t].startErrors);
      assert MoveLocs({}, op.path, op.to) == {};
    }
  }

  lemma {:induction false} CleanRunKeeps(s: System, steps: seq<Step>)
    requires Runs(s, steps) && CleanRun(s, steps) && s.lost == {} && s.tainted == {}
    ensures Exec(s, steps).lost == {} && Exec(s, steps).tainted == {}
    decreases |steps|
  {
    if steps == [] {
    } else {
      CleanStepKeeps(s, steps[0]);
      CleanRunKeeps(Do(s, steps[0]), steps[1..]);
    }
  }

  /**
    After any clean run, however tasks interleaved, rewrote, retried or landed
    in part: once nothing is being written, dirty or in flight, the target holds
    every written byte.
   */
  lemma QuietMeansConverged(s0: System, steps: seq<Step>)
    requires Init(s0) && s0.tainted == {} && Runs(s0, steps) && CleanRun(s0, steps)
    requires var s := Exec(s0, steps);
      s.q.dirty == map[] && s.q.inflight == map[] && forall t | 0 <= t < |s.threads| :: !s.threads[t].Writing?
    ensures var s := Exec(s0, steps); forall l | l in s.written :: Agree(s, l.path, l.off)
  {
    var s := Exec(s0, steps);
    CleanRunKeeps(s0, steps);
    forall l | l in s.written ensures Agree(s, l.path, l.off) {
      EveryByteAccounted(s, l.path, l.off);
      assert !Unqueued(s, l.path, l.off);
    }
  }

  // ----- drains

  /**
    When a drain lets a TRUNCATE, RENAME, flush or fsync through, every byte
    already enqueued for its paths, and never dropped, is on the target.
   */
  lemma DrainSound(s: System, t: nat, done: bool, p: Path, o: nat)
    requires Reachable(s) && Enabled(s, PassDrain(t, done)) && p in DrainPaths(s.threads[t].op)
    requires Loc(p, o) !in s.tainted && Loc(p, o) in s.written && Loc(p, o) !in s.lost && !Unqueued(s, p, o)
    ensures Agree(s, p, o)
    ensures forall piece | piece in s.jobs :: piece.path != p
  {
    ReachableInv(s);
    DrainedPath(s, DrainPaths(s.threads[t].op), s.threads[t].startErrors, p, o);
    EveryByteAccounted(s, p, o);
  }

  /**
    A truncate that reaches the target leaves cache and target byte for byte the
    same, if every byte below the new size had been written.
   */
  lemma TruncateMakesIdentical(s: System, t: nat)
    requires Reachable(s) && Enabled(s, PassDrain(t, true)) && s.threads[t].op.Truncate?
    requires var op := s.threads[t].op;
      && op.path in s.cache && op.path in s.target
      && forall o: nat | o < op.size :: var l := Loc(op.path, o); l in s.written && l !in s.lost && l !in s.tainted
    ensures var op, s' := s.threads[t].op, Do(s, PassDrain(t, true));
      s'.cache[op.path] == s'.target[op.path] && |s'.target[op.path]| == op.size
  {
    var op, s' := s.threads[t].op, Do(s, PassDrain(t, true));
    ReachableInv(s);
    TruncateQuiet(s, op.path, op.size, s.threads[t].startErrors);
    SetLenEffect(s.cache[op.path], op.size, 0);
    SetLenEffect(s.target[op.path], op.size, 0);
    forall o: nat | o < op.size ensures At(s'.cache[op.path], o) == At(s'.target[op.path], o) {
      EveryByteAccounted(s, op.path, o);
      assert Loc(op.path, o) in s.written;
      assert !Unqueued(s, op.path, o) && Agree(s, op.path, o);
      SetLenEffect(s.cache[op.path], op.size, o);
      SetLenEffect(s.target[op.path], op.size, o);
    }
    SameFile(s'.cache[op.path], s'.target[op.path]);
  }

  /**
    A rename that reaches both sides carries every written byte, agreeing, to the
    new name, for the named file and for each file below a named directory; only
    bytes still queued under an old name below it are left behind.
   */
  lemma RenameCarries(s: System, t: nat, p: Path, o: nat)
    requires Reachable(s) && Enabled(s, PassDrain(t, true)) && s.threads[t].op.Rename?
    requires var op := s.threads[t].op;
      Movable(s.cache, op.path, op.to) && Movable(s.target, op.path, op.to) && Under(op.path, p)
    requires Loc(p, o) in s.written && Loc(p, o) !in s.lost && Loc(p, o) !in s.tainted
    requires p == s.threads[t].op.path || (!DirtyAt(s, p, o) && !FlightAt(s, p, o))
    ensures var op, s' := s.threads[t].op, Do(s, PassDrain(t, true));
      && Agree(s', Rebase(p, op.path, op.to), o)
      && FileAt(s'.target, Rebase(p, op.path, op.to)) == FileAt(s.target, p)
      && p !in s'.cache && p !in s'.target
  {
    var op := s.threads[t].op;
    var q := Rebase(p, op.path, op.to);
    ReachableInv(s);
    RebaseBack(p, op.path, op.to);
    MovableApart(s.cache, op.path, op.to);
    if Under(op.to, p) {
      UnderBoth(op.path, op.to, p);
    }
    MoveAt(s.cache, op.path, op.to, q);
    MoveAt(s.target, op.path, op.to, q);
    MoveAt(s.cache, op.path, op.to, p);
    MoveAt(s.target, op.path, op.to, p);
    EveryByteAccounted(s, p, o);
    DrainedPath(s, DrainPaths(op), s.threads[t].startErrors, op.path, o);
    assert Touches(op, p) && !Unqueued(s, p, o);
  }

  /**
    A rename of a file, once its drain passes, happens: in the cache always, and on
    the target if the request lands. The old name is gone there, and the new one
    has the content, replacing what was there.
   */
  lemma FileRenameLands(s: System, t: nat, done: bool)
    requires Enabled(s, PassDrain(t, done)) && s.threads[t].op.Rename?
    ensures var a, b, s' := s.threads[t].op.path, s.threads[t].op.to, Do(s, PassDrain(t, done));
      && (FileCanMove(s.cache, a, b) ==> b in s'.cache && s'.cache[b] == s.cache[a] && a !in s'.cache)
      && (done && FileCanMove(s.target, a, b) ==> b in s'.target && s'.target[b] == s.target[a] && a !in s'.target)
      && (!done ==> s'.target == s.target)
  {
    var op := s.threads[t].op;
    if FileCanMove(s.cache, op.path, op.to) {
      FileMoves(s.cache, op.path, op.to);
    }
    if FileCanMove(s.target, op.path, op.to) {
      FileMoves(s.target, op.path, op.to);
    }
  }

  // ----- sends in flight

  /** Rewrite ordering, counters and size limits hold in every reachable state. */
  lemma SendsNeverOverlap(s: System, p: Path, o: nat)
    requires Reachable(s)
    ensures p !in s.q.blocked ==> !(DirtyAt(s, p, o) && FlightAt(s, p, o))
    ensures p in s.q.blocked ==> exists piece :: piece in s.jobs && piece.path == p
    ensures forall a, b | a in s.jobs && b in s.jobs && a.path == b.path == p
                          && Within(o, a.range) && Within(o, b.range) :: a == b
  {
    ReachableInv(s);
    assert PathOk(s.q, p);
    AtBytes(Get(s.q.dirty, p), o);
    AtBytes(Get(s.q.inflight, p), o);
    EntryHasJob(s, p);
    forall a, b | a in s.jobs && b in s.jobs && a.path == b.path == p && Within(o, a.range) && Within(o, b.range)
      ensures a == b
    {
      JobsDisjoint(s, a, b, o);
    }
  }

  lemma CountersReachable(s: System)
    requires Reachable(s)
    ensures s.q.inflightBytes == FlightSize(s.q) <= WRITE_WINDOW
    ensures DirtySize(s.q) <= s.q.dirtyBytes && (s.acct == Corrected ==> s.q.dirtyBytes == DirtySize(s.q))
    ensures forall piece | piece in s.jobs ::
              var size := piece.range.hi - piece.range.lo;
              0 < size <= MAX_DIRECT_FILE_BYTES && Base64Length(size) <= MAX_DIRECT_FILE_BASE64_BYTES
  {
    ReachableInv(s);
    forall piece | piece in s.jobs
      ensures var size := piece.range.hi - piece.range.lo;
              0 < size <= MAX_DIRECT_FILE_BYTES && Base64Length(size) <= MAX_DIRECT_FILE_BASE64_BYTES
    {
      PieceFits(s.q, s.acct, piece.path, piece.range);
    }
  }

  /** The backoff is one of the schedule's, and claims pause for two seconds at most. */
  ghost predicate BackoffOk(s: System) {
    (exists k: nat :: s.q.backoffMs == BackoffAfter(k)) && s.q.retryAfter <= s.now + 2000
  }

  lemma FinishBackoff(s: System, piece: Piece, outcome: Outcome, k: nat)
    requires Inv(s) && Enabled(s, FinishPiece(piece, outcome)) && BackoffOk(s) && s.q.backoffMs == BackoffAfter(k)
    ensures BackoffOk(DoFinish(s, piece, outcome))
  {
    BackoffSteps(s.q, s.acct, piece.path, piece.range, s.now, k);
    assert DoFinish(s, piece, outcome).q.backoffMs in {BackoffAfter(k), BackoffAfter(k + 1), BackoffAfter(0)};
  }

  lemma StepBackoff(s: System, step: Step)
    requires Inv(s) && Enabled(s, step) && BackoffOk(s)
    ensures BackoffOk(Do(s, step))
  {
    var k: nat :| s.q.backoffMs == BackoffAfter(k);
    match step
    case TakeBatch(batch) => BatchKeepsRest(s.q, batch);
    case FinishPiece(piece, outcome) => FinishBackoff(s, piece, outcome, k);
    case PassDrain(_, _) => assert Do(s, step).q == s.q;
    case _ =>
  }

  lemma {:induction false} RunBackoff(s: System, steps: seq<Step>)
    requires Inv(s) && Runs(s, steps) && BackoffOk(s)
    ensures BackoffOk(Exec(s, steps))
    decreases |steps|
  {
    if steps == [] {
    } else {
      StepInv(s, steps[0]);
      StepBackoff(s, steps[0]);
      RunBackoff(Do(s, steps[0]), steps[1..]);
    }
  }

  /** In every reachable state the pause is on the schedule and over within two seconds. */
  lemma BackoffReachable(s: System)
    requires Reachable(s)
    ensures exists k: nat :: s.q.backoffMs == BackoffAfter(k)
    ensures s.q.retryAfter <= s.now + 2000
  {
    var s0, steps :| Init(s0) && Runs(s0, steps) && Exec(s0, steps) == s;
    InitInv(s0);
    assert s0.q.backoffMs == BackoffAfter(0);
    RunBackoff(s0, steps);
  }

  /** The WRITE_ATs of some send tasks, in the order the target happens to run them. */
  ghost function WritesOf(s: System, order: seq<Piece>): seq<Write>
    requires forall i | 0 <= i < |order| :: order[i] in s.jobs
  {
    seq(|order|, i requires 0 <= i < |order| => Write(order[i].range.lo, s.jobs[order[i]].got))
  }

  ghost predicate Schedule(s: System, p: Path, order: seq<Piece>) {
    && (forall i | 0 <= i < |order| :: order[i] in s.jobs && order[i].path == p)
    && (forall i, j | 0 <= i < j < |order| :: order[i] != order[j])
  }

  lemma ScheduleApart(s: System, p: Path, order: seq<Piece>)
    requires Inv(s) && Schedule(s, p, order)
    ensures PairwiseApart(WritesOf(s, order))
  {
    var ws := WritesOf(s, order);
    forall i, j | 0 <= i < j < |ws| ensures Apart(ws[i], ws[j]) {
      var a, b := order[i], order[j];
      var o := Max(a.range.lo, b.range.lo);
      JobRange(s, a);
      JobRange(s, b);
      if Within(o, a.range) && Within(o, b.range) {
        JobsDisjoint(s, a, b, o);
      }
    }
  }

  /** Two schedules of the same send tasks leave the same file on the target. */
  lemma SchedulesAgree(s: System, p: Path, f: File, a: seq<Piece>, b: seq<Piece>)
    requires Reachable(s) && Schedule(s, p, a) && Schedule(s, p, b)
    requires forall piece :: piece in a <==> piece in b
    ensures ApplyAll(f, WritesOf(s, a)) == ApplyAll(f, WritesOf(s, b))
  {
    ReachableInv(s);
    ScheduleApart(s, p, a);
    ScheduleApart(s, p, b);
    var ws, vs := WritesOf(s, a), WritesOf(s, b);
    forall w ensures w in ws <==> w in vs {
      WriteOfTask(s, p, a, w);
      WriteOfTask(s, p, b, w);
    }
    OrderIrrelevant(f, ws, vs);
  }

  lemma WriteOfTask(s: System, p: Path, order: seq<Piece>, w: Write)
    requires Schedule(s, p, order)
    ensures w in WritesOf(s, order)
       <==> exists piece :: piece in order && piece in s.jobs && w == Write(piece.range.lo, s.jobs[piece].got)
  {
    var ws := WritesOf(s, order);
    if w in ws {
      var i :| 0 <= i < |ws| && ws[i] == w;
      assert order[i] in order && order[i] in s.jobs;
    }
    if piece :| piece in order && piece in s.jobs && w == Write(piece.range.lo, s.jobs[piece].got) {
      var i :| 0 <= i < |order| && order[i] == piece;
      assert ws[i] == w;
    }
  }

  // ----- the backlog is bounded

  ghost function Waiters(threads: seq<Thread>): nat {
    if threads == [] then 0 else (if threads[0].Waiting? then 1 else 0) + Waiters(threads[1..])
  }

  lemma {:induction false} WaitersSet(threads: seq<Thread>, t: nat, th: Thread)
    requires t < |threads|
    ensures Waiters(threads[t := th])
         == Waiters(threads) - (if threads[t].Waiting? then 1 else 0) + (if th.Waiting? then 1 else 0)
  {
    if t == 0 {
      assert threads[t := th][1..] == threads[1..];
    } else {
      WaitersSet(threads[1..], t - 1, th);
      assert threads[t := th][1..] == threads[1..][t - 1 := th];
    }
  }

  lemma {:induction false} WaitersBound(threads: seq<Thread>)
    ensures Waiters(threads) <= |threads|
  {
    if threads == [] {
    } else {
      WaitersBound(threads[1..]);
    }
  }

  ghost function Backlog(s: System): nat { DirtySize(s.q) + FlightSize(s.q) }

  /** The bytes of n of the largest writes. */
  function Writes(n: nat): nat { n * 0x40_0000 }

  ghost predicate BacklogOk(s: System) {
    Backlog(s) <= QUEUE_CAP + WRITE_WINDOW + Writes(Waiters(s.threads))
  }

  lemma EnqueueBacklog(s: System, t: nat)
    requires Inv(s) && Enabled(s, EnqueueWrite(t)) && BacklogOk(s)
    ensures BacklogOk(DoEnqueue(s, t))
  {
    var th := s.threads[t];
    assert ThreadOk(s, th);
    assert PathOk(s.q, th.path);
    AddDirtyCount(s.q, s.acct, th.path, th.off, th.off + |th.data|);
    WaitersSet(s.threads, t, Waiting);
  }

  lemma ThreadBacklog(s: System, s': System, t: nat, th: Thread)
    requires Inv(s) && BacklogOk(s) && t < |s.threads| && s'.threads == s.threads[t := th] && !th.Waiting?
    requires s'.q == s.q && (s.threads[t].Waiting? ==> s.q.dirtyBytes <= QUEUE_CAP)
    ensures BacklogOk(s')
  {
    WaitersSet(s.threads, t, th);
  }

  lemma QueueBacklog(s: System, step: Step)
    requires Inv(s) && Enabled(s, step) && BacklogOk(s) && (step.TakeBatch? || step.FinishPiece?)
    ensures BacklogOk(Do(s, step)) && Do(s, step).threads == s.threads
  {
    match step
    case TakeBatch(batch) => BatchValid(s.q, s.acct, batch);
    case FinishPiece(piece, outcome) =>
      assert PathOk(s.q, piece.path);
      FinishCount(s.q, s.acct, piece.path, piece.range, outcome, s.now);
  }

  lemma WriterBacklog(s: System, step: Step)
    requires Inv(s) && Enabled(s, step) && BacklogOk(s)
    requires step.BeginWrite? || step.WriteSome? || step.FailWrite? || step.PassBelow?
    ensures BacklogOk(Do(s, step)) && |Do(s, step).threads| == |s.threads|
  {
    match step
    case BeginWrite(t, path, off, data) => ThreadBacklog(s, Do(s, step), t, Writing(path, off, data, 0));
    case WriteSome(t, n) => ThreadBacklog(s, Do(s, step), t, s.threads[t].(done := s.threads[t].done + n));
    case FailWrite(t, _) => ThreadBacklog(s, Do(s, step), t, Idle);
    case PassBelow(t) => ThreadBacklog(s, Do(s, step), t, Idle);
  }

  lemma DrainBacklog(s: System, step: Step)
    requires Inv(s) && Enabled(s, step) && BacklogOk(s)
    requires step.BeginDrain? || step.PassDrain? || step.FailDrain? || step.GiveUpDrain?
    ensures BacklogOk(Do(s, step)) && |Do(s, step).threads| == |s.threads|
  {
    match step
    case BeginDrain(t, op) => ThreadBacklog(s, Do(s, step), t, Draining(op, s.q.errors));
    case PassDrain(t, _) => ThreadBacklog(s, Do(s, step), t, Idle);
    case FailDrain(t) => ThreadBacklog(s, Do(s, step), t, Idle);
    case GiveUpDrain(t) => ThreadBacklog(s, Do(s, step), t, Idle);
  }

  lemma StepBacklog(s: System, step: Step)
    requires Inv(s) && Enabled(s, step) && BacklogOk(s)
    ensures BacklogOk(Do(s, step)) && |Do(s, step).threads| == |s.threads|
  {
    match step
    case EnqueueWrite(t) => EnqueueBacklog(s, t);
    case TakeBatch(_) => QueueBacklog(s, step);
    case FinishPiece(_, _) => QueueBacklog(s, step);
    case Tick(_) =>
    case ReadSome(_, _) =>
    case ApplySome(_, _) =>
    case BeginDrain(_, _) => DrainBacklog(s, step);
    case PassDrain(_, _) => DrainBacklog(s, step);
    case FailDrain(_) => DrainBacklog(s, step);
    case GiveUpDrain(_) => DrainBacklog(s, step);
    case _ => WriterBacklog(s, step);
  }

  lemma {:induction false} RunBacklog(s: System, steps: seq<Step>)
    requires Inv(s) && Runs(s, steps) && BacklogOk(s)
    ensures BacklogOk(Exec(s, steps)) && |Exec(s, steps).threads| == |s.threads|
    decreases |steps|
  {
    if steps == [] {
    } else {
      StepInv(s, steps[0]);
      StepBacklog(s, steps[0]);
      RunBacklog(Do(s, steps[0]), steps[1..]);
    }
  }

  lemma InitBacklog(s: System)
    requires Init(s)
    ensures BacklogOk(s)
  {
    assert s.q.dirty == map[] && s.q.inflight == map[];
    assert Sum(map[]) == 0;
  }

  /** With n FUSE threads the backlog never passes the cap, the window and one write a thread. */
  lemma BacklogBounded(s0: System, steps: seq<Step>)
    requires Init(s0) && Runs(s0, steps)
    ensures Backlog(Exec(s0, steps)) <= QUEUE_CAP + WRITE_WINDOW + |s0.threads| * MAX_WRITE
    ensures |s0.threads| == 16 ==> Backlog(Exec(s0, steps)) <= 192 * 1024 * 1024
  {
    InitInv(s0);
    InitBacklog(s0);
    RunBacklog(s0, steps);
    var s := Exec(s0, steps);
    WaitersBound(s.threads);
    assert Writes(|s0.threads|) == |s0.threads| * MAX_WRITE;
  }
}
