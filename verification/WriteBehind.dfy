/**
  The write-behind engine as a transition system: FUSE threads writing the local
  cache, the upload queue, the flusher's send tasks, and the target's files.

  Each step is one critical section or one file access, so tasks interleave
  freely: a piece is read from the cache in parts while writers change it, and
  lands on the target in parts, in any order relative to other pieces.

  A byte is `tainted` once something besides the queue changed what cache or
  target hold there: the direct write taken when the cache is unusable, a rename
  that reached only one side, or a rename of a directory that left data queued
  under an old name. Nothing is claimed for a tainted byte until it is sent anew:
  a batch that takes a byte up removes its taint.
 */
module WriteBehind {
  import opened Files
  import opened Ranges
  import opened Queue
  import opened Renames

  /** Largest FUSE write. */
  const MAX_WRITE: nat := 4 * 1024 * 1024

  datatype Loc = Loc(path: Path, off: nat)

  datatype DrainOp = Flush(path: Path) | Truncate(path: Path, size: nat) | Rename(path: Path, to: Path)

  datatype Thread =
    | Idle
    | Writing(path: Path, off: nat, data: File, done: nat)  // cached in part, not yet enqueued
    | Waiting                                               // in wait_below, after its enqueue
    | Draining(op: DrainOp, startErrors: nat)

  /**
    A send task: the bytes read from the cache so far, how many reached the
    target, and where the file is that it reads: an open handle follows renames.
   */
  datatype Job = Job(got: File, applied: nat, file: Path)

  datatype System = System(
    acct: Accounting, q: State,
    cache: map<Path, File>, target: map<Path, File>,
    threads: seq<Thread>, jobs: map<Piece, Job>,
    written: set<Loc>, lost: set<Loc>, tainted: set<Loc>, now: nat)

  datatype Step =
    | Tick(dt: nat)
    | BeginWrite(t: nat, path: Path, off: nat, data: File)
    | WriteSome(t: nat, n: nat)
    | FailWrite(t: nat, landed: nat)
    | EnqueueWrite(t: nat)
    | PassBelow(t: nat)
    | TakeBatch(batch: seq<Piece>)
    | ReadSome(piece: Piece, n: nat)
    | ApplySome(piece: Piece, n: nat)
    | FinishPiece(piece: Piece, outcome: Outcome)
    | BeginDrain(t: nat, op: DrainOp)
    | PassDrain(t: nat, done: bool)
    | FailDrain(t: nat)
    | GiveUpDrain(t: nat)

  // ----- helpers

  ghost function Locs(p: Path, r: Range): set<Loc> {
    set o | o in Span(r) :: Loc(p, o)
  }

  function DrainPaths(op: DrainOp): seq<Path> {
    if op.Rename? then [op.path, op.to] else [op.path]
  }

  ghost function MoveLocs(ls: set<Loc>, from: Path, to: Path): set<Loc> {
    (set l | l in ls && !Under(from, l.path) && !Under(to, l.path))
    + (set l | l in ls && Under(from, l.path) :: Loc(Rebase(l.path, from, to), l.off))
  }

  /** The bytes of one path in a list of ranges. */
  ghost function QueuedLocs(m: RangeMap): set<Loc> {
    set p, o | p in m && o in Bytes(m[p]) :: Loc(p, o)
  }

  ghost function BatchLocs(batch: seq<Piece>): set<Loc> {
    set piece, o | piece in batch && o in Span(piece.range) :: Loc(piece.path, o)
  }

  ghost function AtOrBelow(ls: set<Loc>, from: Path, to: Path): set<Loc> {
    set l | l in ls && (Under(from, l.path) || Under(to, l.path))
  }

  ghost function NewJobs(batch: seq<Piece>): map<Piece, Job> {
    map piece | piece in batch :: Job([], 0, piece.path)
  }

  /** The operation changes the file or files at `p`. */
  predicate Touches(op: DrainOp, p: Path) {
    match op
    case Flush(_) => false
    case Truncate(q, _) => q == p
    case Rename(from, to) => Under(from, p) || Under(to, p)
  }

  /** No path strictly below `dir` has anything queued. */
  ghost predicate EmptyBelow(q: State, dir: Path) {
    forall p | Below(dir, p) :: Get(q.dirty, p) == [] && Get(q.inflight, p) == []
  }

  predicate Writer(s: System, p: Path) {
    exists t | 0 <= t < |s.threads| :: s.threads[t].Writing? && s.threads[t].path == p
  }

  predicate Busy(s: System, op: DrainOp) {
    exists t | 0 <= t < |s.threads| :: s.threads[t].Writing? && Touches(op, s.threads[t].path)
  }

  // ----- steps

  ghost predicate Enabled(s: System, step: Step) {
    match step
    case Tick(_) => true
    case BeginWrite(t, path, off, data) =>
      t < |s.threads| && s.threads[t].Idle? && 0 < |data| <= MAX_WRITE
    case WriteSome(t, n) =>
      t < |s.threads| && s.threads[t].Writing? && 0 < n <= |s.threads[t].data| - s.threads[t].done
    case FailWrite(t, landed) =>
      t < |s.threads| && s.threads[t].Writing? && s.threads[t].done < |s.threads[t].data|
      && landed <= |s.threads[t].data|
    case EnqueueWrite(t) =>
      t < |s.threads| && s.threads[t].Writing? && s.threads[t].done == |s.threads[t].data|
    case PassBelow(t) =>
      t < |s.threads| && s.threads[t].Waiting? && s.q.dirtyBytes <= QUEUE_CAP
    case TakeBatch(batch) =>
      s.q.retryAfter <= s.now && LegalBatch(s.q, batch) && forall p :: !Claimable(AfterBatch(s.q, batch), p)
    case ReadSome(piece, n) =>
      piece in s.jobs && 0 < n && var got := |s.jobs[piece].got|;
      piece.range.lo + got + n <= Min(piece.range.hi, |FileAt(s.cache, s.jobs[piece].file)|)
    case ApplySome(piece, n) =>
      piece in s.jobs && 0 < n && piece.path in s.target && var job := s.jobs[piece];
      |job.got| == piece.range.hi - piece.range.lo && job.applied + n <= |job.got|
    case FinishPiece(piece, outcome) =>
      piece in s.jobs && var job := s.jobs[piece];
      && (outcome == Sent ==> job.applied == piece.range.hi - piece.range.lo)
      && (outcome == Drop ==> |job.got| == piece.range.hi - piece.range.lo)
    case BeginDrain(t, op) =>
      t < |s.threads| && s.threads[t].Idle?
    case PassDrain(t, _) =>
      && t < |s.threads| && s.threads[t].Draining?
      && DrainPoll(s.q, DrainPaths(s.threads[t].op), s.threads[t].startErrors) == Drained
      // the kernel's inode lock keeps writers out while a file is truncated or renamed
      && !Busy(s, s.threads[t].op)
    case FailDrain(t) =>
      && t < |s.threads| && s.threads[t].Draining?
      && DrainPoll(s.q, DrainPaths(s.threads[t].op), s.threads[t].startErrors) == Failed
    case GiveUpDrain(t) =>  // the timeout, after a poll that may be out of date by now
      t < |s.threads| && s.threads[t].Draining?
  }

  ghost function Do(s: System, step: Step): System
    requires Enabled(s, step)
  {
    match step
    case Tick(dt) => s.(now := s.now + dt)
    case BeginWrite(t, path, off, data) => DoBeginWrite(s, t, path, off, data)
    case WriteSome(t, n) => DoWriteSome(s, t, n)
    case FailWrite(t, landed) => DoFailWrite(s, t, landed)
    case EnqueueWrite(t) => DoEnqueue(s, t)
    case PassBelow(t) => s.(threads := s.threads[t := Idle])
    case TakeBatch(batch) => DoTakeBatch(s, batch)
    case ReadSome(piece, n) => DoRead(s, piece, n)
    case ApplySome(piece, n) => DoApply(s, piece, n)
    case FinishPiece(piece, outcome) => DoFinish(s, piece, outcome)
    case BeginDrain(t, op) => s.(threads := s.threads[t := Draining(op, s.q.errors)])
    case PassDrain(t, done) =>
      var s' := s.(threads := s.threads[t := Idle]);
      (match s.threads[t].op
       case Flush(_) => s'
       case Truncate(p, size) => DoTruncate(s', p, size, done)
       case Rename(p, to) => DoRename(s', p, to, done))
    case FailDrain(t) => s.(threads := s.threads[t := Idle])
    case GiveUpDrain(t) => s.(threads := s.threads[t := Idle])
  }

  ghost function DoBeginWrite(s: System, t: nat, path: Path, off: nat, data: File): System
    requires t < |s.threads|
  {
    var locs := Locs(path, Range(off, off + |data|));
    s.(threads := s.threads[t := Writing(path, off, data, 0)],
       cache := s.cache[path := FileAt(s.cache, path)],
       written := s.written + locs, lost := s.lost - locs)
  }

  function DoWriteSome(s: System, t: nat, n: nat): System
    requires t < |s.threads| && s.threads[t].Writing? && s.threads[t].done + n <= |s.threads[t].data|
  {
    var th := s.threads[t];
    s.(threads := s.threads[t := th.(done := th.done + n)],
       cache := s.cache[th.path := WriteAt(FileAt(s.cache, th.path), th.off + th.done, th.data[th.done..th.done + n])])
  }

  /** The cache refused the bytes: they go to the target directly, in whatever part lands. */
  ghost function DoFailWrite(s: System, t: nat, landed: nat): System
    requires t < |s.threads| && s.threads[t].Writing? && landed <= |s.threads[t].data|
  {
    var th := s.threads[t];
    s.(threads := s.threads[t := Idle],
       tainted := s.tainted + Locs(th.path, Range(th.off, th.off + |th.data|)),
       target := if th.path in s.target
                 then s.target[th.path := WriteAt(s.target[th.path], th.off, th.data[..landed])] else s.target)
  }

  function DoEnqueue(s: System, t: nat): System
    requires t < |s.threads| && s.threads[t].Writing?
  {
    var th := s.threads[t];
    s.(threads := s.threads[t := Waiting],
       q := Enqueue(s.q, s.acct, th.path, th.off, th.off + |th.data|))
  }

  ghost function DoTakeBatch(s: System, batch: seq<Piece>): System
    requires LegalBatch(s.q, batch)
  {
    s.(q := AfterBatch(s.q, batch), jobs := s.jobs + NewJobs(batch), tainted := s.tainted - BatchLocs(batch))
  }

  function DoRead(s: System, piece: Piece, n: nat): System
    requires piece in s.jobs && piece.range.lo + |s.jobs[piece].got| + n <= |FileAt(s.cache, s.jobs[piece].file)|
  {
    var job := s.jobs[piece];
    var at := piece.range.lo + |job.got|;
    s.(jobs := s.jobs[piece := job.(got := job.got + FileAt(s.cache, job.file)[at..at + n])])
  }

  function DoApply(s: System, piece: Piece, n: nat): System
    requires piece in s.jobs && piece.path in s.target && s.jobs[piece].applied + n <= |s.jobs[piece].got|
  {
    var job := s.jobs[piece];
    s.(jobs := s.jobs[piece := job.(applied := job.applied + n)],
       target := s.target[piece.path :=
         WriteAt(s.target[piece.path], piece.range.lo + job.applied, job.got[job.applied..job.applied + n])])
  }

  ghost function DoFinish(s: System, piece: Piece, outcome: Outcome): System {
    var locs := Locs(piece.path, piece.range);
    s.(q := Finish(s.q, s.acct, piece.path, piece.range, outcome, s.now),
       jobs := s.jobs - {piece},
       lost := match outcome case Sent => s.lost - locs case Retry => s.lost case Drop => s.lost + locs)
  }

  ghost function DoTruncate(s: System, p: Path, size: nat, landed: bool): System {
    s.(target := if landed && p in s.target then s.target[p := SetLen(s.target[p], size)] else s.target,
       cache := if p in s.cache then s.cache[p := SetLen(s.cache[p], size)] else s.cache,
       written := set l | l in s.written && !(l.path == p && size <= l.off))
  }

  /**
    The cache moves if it can, the target if the request lands and can. What is
    queued strictly below a renamed directory stays queued under its old name.
   */
  ghost function DoRename(s: System, from: Path, to: Path, landed: bool): System {
    var cacheMoves, targetMoves := Movable(s.cache, from, to), landed && Movable(s.target, from, to);
    var flight, pending := AtOrBelow(QueuedLocs(s.q.inflight), from, to), AtOrBelow(PendingLocs(s.q), from, to);
    if !cacheMoves && !targetMoves then s
    else if cacheMoves && targetMoves then
      s.(cache := Move(s.cache, from, to), target := Move(s.target, from, to), jobs := MoveHandles(s.jobs, from, to),
         written := MoveLocs(s.written, from, to), lost := MoveLocs(s.lost, from, to),
         tainted := MoveLocs(s.tainted + pending, from, to) + flight)
    else
      var written := if cacheMoves then MoveLocs(s.written, from, to) else s.written;
      s.(cache := Move(s.cache, from, to), target := if landed then Move(s.target, from, to) else s.target,
         jobs := if cacheMoves then MoveHandles(s.jobs, from, to) else s.jobs,
         written := written, tainted := s.tainted + AtOrBelow(written, from, to) + flight)
  }

  ghost function PendingLocs(q: State): set<Loc> { QueuedLocs(q.dirty) + QueuedLocs(q.inflight) }

  /** A send task that has its file open keeps reading that file. */
  ghost function MoveHandles(jobs: map<Piece, Job>, from: Path, to: Path): map<Piece, Job> {
    map piece | piece in jobs :: MoveHandle(jobs[piece], from, to)
  }

  function MoveHandle(job: Job, from: Path, to: Path): Job {
    if job.got != [] && Under(from, job.file) then job.(file := Rebase(job.file, from, to)) else job
  }

  // ----- runs

  ghost predicate Init(s: System) {
    && s.q == EMPTY.(retryAfter := s.q.retryAfter) && s.q.retryAfter <= s.now
    && s.jobs == map[] && s.written == {} && s.lost == {}
    && forall t | 0 <= t < |s.threads| :: s.threads[t] == Idle
  }

  ghost predicate Runs(s: System, steps: seq<Step>)
    decreases |steps|
  {
    steps == [] || (Enabled(s, steps[0]) && Runs(Do(s, steps[0]), steps[1..]))
  }

  ghost function Exec(s: System, steps: seq<Step>): System
    requires Runs(s, steps)
    decreases |steps|
  {
    if steps == [] then s else Exec(Do(s, steps[0]), steps[1..])
  }

  /** A step of the flusher or of a send task, or the clock. */
  predicate FlusherStep(step: Step) {
    step.Tick? || step.TakeBatch? || step.ReadSome? || step.ApplySome? || step.FinishPiece?
  }

  predicate NoRetry(step: Step) { step.FinishPiece? ==> step.outcome != Retry }

  /** Every answered send in the run was acknowledged. */
  ghost predicate AllSent(steps: seq<Step>) {
    forall k | 0 <= k < |steps| :: steps[k].FinishPiece? ==> steps[k].outcome == Sent
  }

  ghost predicate Reachable(s: System) {
    exists s0, steps :: Init(s0) && Runs(s0, steps) && Exec(s0, steps) == s
  }

  // ----- the invariant

  predicate DirtyAt(s: System, p: Path, o: nat) { OverlapsAny(Get(s.q.dirty, p), o, o + 1) }

  predicate FlightAt(s: System, p: Path, o: nat) { OverlapsAny(Get(s.q.inflight, p), o, o + 1) }

  predicate Covers(th: Thread, p: Path, o: nat) {
    th.Writing? && th.path == p && th.off <= o < th.off + |th.data|
  }

  /** Some write of this byte has begun and is not enqueued yet. */
  predicate Unqueued(s: System, p: Path, o: nat) {
    exists t | 0 <= t < |s.threads| :: Covers(s.threads[t], p, o)
  }

  predicate Agree(s: System, p: Path, o: nat) {
    && o < |FileAt(s.cache, p)| && o < |FileAt(s.target, p)|
    && FileAt(s.cache, p)[o] == FileAt(s.target, p)[o]
  }

  /** What a send task knows about byte `o` of its piece. */
  ghost predicate JobByteOk(s: System, piece: Piece, o: nat)
    requires piece in s.jobs && piece.range.lo <= o
  {
    var job, p, k := s.jobs[piece], piece.path, o - piece.range.lo;
    && job.file == p
    && (k < |job.got| && !Unqueued(s, p, o) && !DirtyAt(s, p, o) ==>
          o < |FileAt(s.cache, p)| && FileAt(s.cache, p)[o] == job.got[k])
    && (k < |job.got| && k < job.applied ==>
          o < |FileAt(s.target, p)| && FileAt(s.target, p)[o] == job.got[k])
  }

  /** Bytes the target is not yet, or never, expected to have. */
  ghost predicate Accounted(s: System, p: Path, o: nat) {
    || Loc(p, o) !in s.written || Loc(p, o) in s.lost
    || Unqueued(s, p, o) || DirtyAt(s, p, o) || FlightAt(s, p, o)
  }

  ghost predicate ByteOk(s: System, p: Path, o: nat) {
    Loc(p, o) !in s.tainted ==>
      && (Accounted(s, p, o) || Agree(s, p, o))
      && (forall piece | piece in s.jobs && piece.path == p && Within(o, piece.range) :: JobByteOk(s, piece, o))
  }

  ghost predicate JobsOk(s: System) {
    && (forall piece :: piece in s.jobs <==> Flying(s.q, piece.path, piece.range))
    && (forall piece | piece in s.jobs ::
          s.jobs[piece].applied <= |s.jobs[piece].got| <= piece.range.hi - piece.range.lo)
  }

  ghost predicate ThreadOk(s: System, th: Thread) {
    && (th.Writing? ==>
      && th.done <= |th.data| && 0 < |th.data| <= MAX_WRITE
      && (th.done > 0 ==> th.off + th.done <= |FileAt(s.cache, th.path)|)
      && Locs(th.path, Range(th.off, th.off + |th.data|)) <= s.written)
    && (th.Draining? ==> th.startErrors <= s.q.errors)
  }

  ghost predicate ThreadsOk(s: System) {
    forall t | 0 <= t < |s.threads| :: ThreadOk(s, s.threads[t])
  }

  ghost predicate BytesOk(s: System) {
    forall p: Path, o: nat :: ByteOk(s, p, o)
  }

  ghost predicate Inv(s: System) {
    Valid(s.q, s.acct) && JobsOk(s) && ThreadsOk(s) && BytesOk(s)
  }
}
