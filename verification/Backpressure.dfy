/**
  When a writer that waits in wait_below is ever let go.

  `dirty_bytes` runs ahead of the true backlog by a leak that no operation ever
  takes back. A waiting writer can be released if and only if the leak is within
  QUEUE_CAP; failed sends alone make the leak as large as one likes. With the
  documented count there is no leak, and every waiting writer can be released.
 */
module Backpressure {
  import opened Backing
  import opened Files
  import opened Ranges
  import opened Queue
  import opened WriteBehind
  import opened WriteBehindInvariant

  // ----- the leak only grows

  lemma EnqueueLeaks(s: System, t: nat)
    requires Inv(s) && Enabled(s, EnqueueWrite(t))
    ensures Leak(s.q) <= Leak(DoEnqueue(s, t).q)
  {
    var th := s.threads[t];
    assert ThreadOk(s, th);
    assert PathOk(s.q, th.path);
    AddDirtyCount(s.q, s.acct, th.path, th.off, th.off + |th.data|);
  }

  lemma FinishLeaks(s: System, piece: Piece, outcome: Outcome)
    requires Inv(s) && Enabled(s, FinishPiece(piece, outcome))
    ensures Leak(s.q) <= Leak(DoFinish(s, piece, outcome).q)
  {
    assert PathOk(s.q, piece.path);
    FinishCount(s.q, s.acct, piece.path, piece.range, outcome, s.now);
  }

  lemma StepLeak(s: System, step: Step)
    requires Inv(s) && Enabled(s, step)
    ensures Leak(s.q) <= Leak(Do(s, step).q)
  {
    match step
    case EnqueueWrite(t) => EnqueueLeaks(s, t);
    case TakeBatch(batch) => BatchValid(s.q, s.acct, batch);
    case FinishPiece(piece, outcome) => FinishLeaks(s, piece, outcome);
    case _ => assert Do(s, step).q == s.q;
  }

  /** Past QUEUE_CAP, no run ever lets a waiting writer go. */
  lemma {:induction false} NeverReleased(s: System, steps: seq<Step>)
    requires Inv(s) && Runs(s, steps) && Leak(s.q) > QUEUE_CAP
    ensures forall k | 0 <= k < |steps| :: !steps[k].PassBelow?
    ensures Inv(Exec(s, steps)) && Leak(Exec(s, steps).q) > QUEUE_CAP
    decreases |steps|
  {
    if steps == [] {
    } else {
      StepLeak(s, steps[0]);
      StepInv(s, steps[0]);
      NeverReleased(Do(s, steps[0]), steps[1..]);
      assert forall k | 0 < k < |steps| :: steps[k] == steps[1..][k - 1];
    }
  }

  // ----- the whole backlog can always be worked off

  ghost predicate Queued(q: State, p: Path) { p in q.dirty || p in q.inflight }

  /** Every file with queued data exists on the target. */
  ghost predicate Deliverable(s: System) {
    forall p: Path | Queued(s.q, p) :: p in s.target
  }

  /** What working the queue off leaves alone, when the pieces of `good` paths are sent and all others dropped. */
  ghost predicate OnlySends(s: System, s': System, good: set<Path>) {
    && s'.threads == s.threads && s'.cache == s.cache && s'.target.Keys == s.target.Keys
    && s'.written == s.written && s'.acct == s.acct && Leak(s'.q) == Leak(s.q)
    && (forall l | l in s'.tainted :: l in s.tainted && (DirtyAt(s, l.path, l.off) ==> DirtyAt(s', l.path, l.off)))
    && (forall p | Queued(s'.q, p) :: Queued(s.q, p))
    && (forall l | l in s'.lost :: l in s.lost || (l.path !in good && Queued(s.q, l.path)))
    && (forall l | l in s.lost && l.path !in good :: l in s'.lost)
  }

  ghost predicate Chosen(q: State, step: Step, good: set<Path>) {
    && FlusherStep(step)
    && (step.FinishPiece? ==>
          Queued(q, step.piece.path) && step.outcome == if step.piece.path in good then Sent else Drop)
  }

  /** A run that only works the queue off, and ends so. */
  ghost predicate SendRun(s: System, steps: seq<Step>, good: set<Path>) {
    && Runs(s, steps) && Inv(Exec(s, steps)) && Readable(Exec(s, steps)) && OnlySends(s, Exec(s, steps), good)
    && forall k | 0 <= k < |steps| :: Chosen(s.q, steps[k], good)
  }

  lemma {:induction false} RunsConcat(s: System, a: seq<Step>, b: seq<Step>)
    requires Runs(s, a) && Runs(Exec(s, a), b)
    ensures Runs(s, a + b) && Exec(s, a + b) == Exec(Exec(s, a), b)
    decreases |a|
  {
    if a == [] {
      assert a + b == b;
    } else {
      RunsConcat(Do(s, a[0]), a[1..], b);
      assert (a + b)[0] == a[0] && (a + b)[1..] == a[1..] + b;
    }
  }

  lemma RunsCons(s: System, step: Step, rest: seq<Step>)
    requires Enabled(s, step) && Runs(Do(s, step), rest)
    ensures Runs(s, [step] + rest) && Exec(s, [step] + rest) == Exec(Do(s, step), rest)
  {
    assert ([step] + rest)[1..] == rest;
  }

  lemma RunsOne(s: System, step: Step)
    requires Enabled(s, step)
    ensures Runs(s, [step]) && Exec(s, [step]) == Do(s, step)
  {
    assert [step][1..] == [];
  }

  lemma SendRunConcat(s: System, a: seq<Step>, b: seq<Step>, good: set<Path>)
    requires SendRun(s, a, good) && SendRun(Exec(s, a), b, good)
    ensures SendRun(s, a + b, good) && Exec(s, a + b) == Exec(Exec(s, a), b)
  {
    RunsConcat(s, a, b);
    forall k | 0 <= k < |a + b| ensures Chosen(s.q, (a + b)[k], good) {
      if k < |a| {
        assert Chosen(s.q, a[k], good);
      } else {
        assert Chosen(Exec(s, a).q, b[k - |a|], good);
      }
    }
  }

  lemma SendRunOne(s: System, step: Step, good: set<Path>)
    requires Enabled(s, step) && Inv(s) && Readable(Do(s, step))
    requires Chosen(s.q, step, good) && OnlySends(s, Do(s, step), good)
    ensures SendRun(s, [step], good) && Exec(s, [step]) == Do(s, step)
  {
    StepInv(s, step);
    RunsOne(s, step);
  }

  ghost function Remaining(s: System, piece: Piece): int
    requires piece in s.jobs
  {
    2 * (piece.range.hi - piece.range.lo) - |s.jobs[piece].got| - s.jobs[piece].applied
  }

  /** The target's answer is in, as good or as bad as `good` says. */
  ghost predicate Answered(s: System, piece: Piece, good: set<Path>)
    requires piece in s.jobs
  {
    var job, size := s.jobs[piece], piece.range.hi - piece.range.lo;
    if piece.path in good then job.applied == size else |job.got| == size
  }

  /** An unfinished send job can read the rest of its piece, or land the rest of it. */
  lemma Advance(s: System, piece: Piece, good: set<Path>) returns (step: Step)
    requires Inv(s) && Readable(s) && good <= s.target.Keys && piece in s.jobs && !Answered(s, piece, good)
    ensures Enabled(s, step) && (step.ReadSome? || step.ApplySome?)
    ensures var s' := Do(s, step);
      && piece in s'.jobs && Remaining(s', piece) < Remaining(s, piece)
      && s'.q == s.q && OnlySends(s, s', good) && Readable(s')
  {
    var job, size := s.jobs[piece], piece.range.hi - piece.range.lo;
    JobRange(s, piece);
    if |job.got| < size {
      step := ReadSome(piece, size - |job.got|);
      assert HasBytes(s, piece);
    } else {
      step := ApplySome(piece, size - job.applied);
    }
    AdvanceReadable(s, step);
  }

  lemma AdvanceReadable(s: System, step: Step)
    requires Enabled(s, step) && Readable(s) && (step.ReadSome? || step.ApplySome?)
    ensures Readable(Do(s, step))
  {
    var s' := Do(s, step);
    forall x | x in s'.jobs ensures HasBytes(s', x) {
      assert HasBytes(s, x);
    }
    forall p: Path, o: nat | DirtyAt(s', p, o) ensures o < |FileAt(s'.cache, p)| {
      assert DirtyAt(s, p, o);
    }
  }

  /** A job in flight can read its bytes, land them and be acknowledged, or be refused. */
  lemma {:induction false} SendPiece(s: System, piece: Piece, good: set<Path>) returns (steps: seq<Step>)
    requires Inv(s) && Readable(s) && good <= s.target.Keys && piece in s.jobs
    ensures SendRun(s, steps, good)
    ensures var s' := Exec(s, steps); DirtySize(s'.q) + FlightSize(s'.q) < DirtySize(s.q) + FlightSize(s.q)
    decreases Remaining(s, piece)
  {
    if Answered(s, piece, good) {
      var step := FinishPiece(piece, if piece.path in good then Sent else Drop);
      EndEffect(s, piece, step.outcome, good);
      SendRunOne(s, step, good);
      steps := [step];
    } else {
      var step := Advance(s, piece, good);
      SendRunOne(s, step, good);
      var rest := SendPiece(Do(s, step), piece, good);
      SendRunConcat(s, [step], rest, good);
      steps := [step] + rest;
    }
  }

  lemma EndEffect(s: System, piece: Piece, outcome: Outcome, good: set<Path>)
    requires Inv(s) && Readable(s) && Enabled(s, FinishPiece(piece, outcome))
    requires outcome == if piece.path in good then Sent else Drop
    ensures var s' := DoFinish(s, piece, outcome);
      && OnlySends(s, s', good) && Readable(s') && Queued(s.q, piece.path)
      && DirtySize(s'.q) + FlightSize(s'.q) < DirtySize(s.q) + FlightSize(s.q)
  {
    assert PathOk(s.q, piece.path);
    assert Flying(s.q, piece.path, piece.range);
    JobRange(s, piece);
    FinishCount(s.q, s.acct, piece.path, piece.range, outcome, s.now);
    FinishReadable(s, piece, outcome);
  }

  lemma FinishReadable(s: System, piece: Piece, outcome: Outcome)
    requires Readable(s) && Enabled(s, FinishPiece(piece, outcome)) && outcome != Retry
    ensures Readable(DoFinish(s, piece, outcome))
  {
    var s' := DoFinish(s, piece, outcome);
    assert s'.q.dirty == s.q.dirty;
    forall x | x in s'.jobs ensures HasBytes(s', x) {
      assert HasBytes(s, x);
    }
    forall p: Path, o: nat | DirtyAt(s', p, o) ensures o < |FileAt(s'.cache, p)| {
      assert DirtyAt(s, p, o);
    }
  }

  /** Some batch leaves nothing claimable behind. */
  lemma {:induction false} FullBatch(q0: State, acct: Accounting, batch: seq<Piece>) returns (full: seq<Piece>)
    requires Valid(q0, acct) && LegalBatch(q0, batch)
    ensures LegalBatch(q0, full) && |batch| <= |full|
    ensures forall p :: !Claimable(AfterBatch(q0, full), p)
    decreases WRITE_WINDOW - AfterBatch(q0, batch).inflightBytes
  {
    var q := AfterBatch(q0, batch);
    BatchValid(q0, acct, batch);
    if p :| Claimable(q, p) {
      var next := batch + [Piece(p, NextPiece(q, p))];
      BatchSnoc(q0, batch, p);
      assert PathOk(q, p);
      ClaimPath(q, p);
      ClaimCount(q, p);
      full := FullBatch(q0, acct, next);
    } else {
      full := batch;
    }
  }

  lemma {:induction false} BatchPaths(q: State, batch: seq<Piece>, p: Path)
    requires LegalBatch(q, batch)
    ensures Queued(AfterBatch(q, batch), p) ==> Queued(q, p)
  {
    if batch == [] {
    } else {
      BatchPaths(q, batch[..|batch| - 1], p);
    }
  }

  lemma TakenReadable(s: System, batch: seq<Piece>, piece: Piece)
    requires Inv(s) && Readable(s) && LegalBatch(s.q, batch) && piece in batch
    ensures HasBytes(DoTakeBatch(s, batch), piece)
  {
    BatchJobs(s, batch);
    var last := piece.range.hi - 1;
    assert last in Span(piece.range) && Loc(piece.path, last) in BatchLocs(batch);
    BatchByte(s, batch, piece.path, last);
  }

  lemma BatchReadable(s: System, batch: seq<Piece>)
    requires Inv(s) && Readable(s) && LegalBatch(s.q, batch)
    ensures Readable(DoTakeBatch(s, batch))
  {
    var s' := DoTakeBatch(s, batch);
    forall p: Path, o: nat | DirtyAt(s', p, o) ensures o < |FileAt(s'.cache, p)| {
      BatchByte(s, batch, p, o);
    }
    forall x | x in s'.jobs ensures HasBytes(s', x) {
      if x in batch {
        TakenReadable(s, batch, x);
      } else {
        assert HasBytes(s, x);
      }
    }
  }

  lemma BatchOnlySends(s: System, batch: seq<Piece>, good: set<Path>)
    requires Inv(s) && Readable(s) && Enabled(s, TakeBatch(batch))
    ensures var s' := Do(s, TakeBatch(batch)); OnlySends(s, s', good) && Readable(s')
  {
    BatchValid(s.q, s.acct, batch);
    BatchReadable(s, batch);
    var s' := Do(s, TakeBatch(batch));
    forall l | l in s'.tainted ensures DirtyAt(s, l.path, l.off) ==> DirtyAt(s', l.path, l.off) {
      BatchByte(s, batch, l.path, l.off);
    }
    forall p | Queued(AfterBatch(s.q, batch), p) ensures Queued(s.q, p) {
      BatchPaths(s.q, batch, p);
    }
  }

  lemma TickReadable(s: System, dt: nat)
    requires Readable(s)
    ensures Readable(s.(now := s.now + dt))
  {
    var s' := s.(now := s.now + dt);
    forall x | x in s'.jobs ensures HasBytes(s', x) {
      assert HasBytes(s, x);
    }
    forall p: Path, o: nat | DirtyAt(s', p, o) ensures o < |FileAt(s'.cache, p)| {
      assert DirtyAt(s, p, o);
    }
  }

  /** With nothing in flight and something dirty, waiting out the backoff lets a batch start. */
  lemma StartBatch(s: System, good: set<Path>) returns (steps: seq<Step>)
    requires Inv(s) && Readable(s) && s.jobs == map[] && s.q.dirty != map[]
    ensures SendRun(s, steps, good)
    ensures var s' := Exec(s, steps);
      s'.jobs != map[] && DirtySize(s'.q) + FlightSize(s'.q) == DirtySize(s.q) + FlightSize(s.q)
  {
    var tick := Tick(s.q.retryAfter);
    var s1 := Do(s, tick);
    TickReadable(s, tick.dt);
    SendRunOne(s, tick, good);
    NothingInFlight(s);
    NoStall(s.q, s.acct);
    var batch := FullBatch(s.q, s.acct, []);
    assert AfterBatch(s.q, []) == s.q;
    assert batch != [];
    var take := TakeBatch(batch);
    BatchOnlySends(s1, batch, good);
    SendRunOne(s1, take, good);
    BatchValid(s.q, s.acct, batch);
    assert batch[0] in Do(s1, take).jobs;
    SendRunConcat(s, [tick], [take], good);
    steps := [tick] + [take];
  }

  /** One piece gets through, after a batch is started if none was in flight. */
  lemma DrainSome(s: System, good: set<Path>) returns (steps: seq<Step>)
    requires Inv(s) && Readable(s) && good <= s.target.Keys && (s.jobs != map[] || s.q.dirty != map[])
    ensures SendRun(s, steps, good)
    ensures var s' := Exec(s, steps); DirtySize(s'.q) + FlightSize(s'.q) < DirtySize(s.q) + FlightSize(s.q)
  {
    var first := [];
    if s.jobs == map[] {
      first := StartBatch(s, good);
    }
    var s1 := Exec(s, first);
    var piece :| piece in s1.jobs;
    var send := SendPiece(s1, piece, good);
    SendRunConcat(s, first, send, good);
    steps := first + send;
  }

  lemma NothingInFlight(s: System)
    requires Inv(s) && s.jobs == map[]
    ensures s.q.inflight == map[]
  {
    forall p: Path ensures p !in s.q.inflight {
      EntryHasJob(s, p);
    }
  }

  /**
    While every queued byte can be read the whole backlog can be worked off, the
    pieces of any chosen files of the target sent and all others dropped.
   */
  lemma {:induction false} CanDrain(s: System, good: set<Path>) returns (steps: seq<Step>)
    requires Inv(s) && Readable(s) && good <= s.target.Keys
    ensures SendRun(s, steps, good)
    ensures var s' := Exec(s, steps); s'.q.dirty == map[] && s'.q.inflight == map[] && s'.jobs == map[]
    decreases DirtySize(s.q) + FlightSize(s.q)
  {
    if s.jobs == map[] && s.q.dirty == map[] {
      NothingInFlight(s);
      return [];
    }
    var some := DrainSome(s, good);
    var rest := CanDrain(Exec(s, some), good);
    SendRunConcat(s, some, rest, good);
    steps := some + rest;
  }

  // ----- released if and only if the leak is within the cap

  ghost predicate CanBeReleased(s: System, t: nat) {
    exists steps :: Runs(s, steps) && Enabled(Exec(s, steps), PassBelow(t))
  }

  lemma ReleasedIff(s: System, t: nat)
    requires Reachable(s) && t < |s.threads| && s.threads[t].Waiting?
    ensures CanBeReleased(s, t) ==> Leak(s.q) <= QUEUE_CAP
    ensures Readable(s) && Leak(s.q) <= QUEUE_CAP ==> CanBeReleased(s, t)
  {
    ReachableInv(s);
    if Leak(s.q) > QUEUE_CAP {
      forall steps | Runs(s, steps) ensures !Enabled(Exec(s, steps), PassBelow(t)) {
        NeverReleased(s, steps);
      }
    }
    if Readable(s) && Leak(s.q) <= QUEUE_CAP {
      var steps := CanDrain(s, s.target.Keys);
      assert DirtySize(Exec(s, steps).q) == 0;
      assert Enabled(Exec(s, steps), PassBelow(t));
    }
  }

  /** With the documented count, no waiting writer is ever stuck. */
  lemma CorrectedAlwaysReleases(s: System, t: nat)
    requires Reachable(s) && Readable(s) && t < |s.threads| && s.threads[t].Waiting? && s.acct == Corrected
    ensures CanBeReleased(s, t)
  {
    ReachableInv(s);
    ReleasedIff(s, t);
  }

  /**
    Everything queued for files the target has can still reach it: a run drops
    only pieces of files that are absent there, and then all other bytes agree.
   */
  lemma CanConverge(s: System) returns (steps: seq<Step>)
    requires Reachable(s) && Readable(s)
    ensures SendRun(s, steps, s.target.Keys) && (Deliverable(s) ==> AllSent(steps))
    ensures var s' := Exec(s, steps);
      && s'.q.dirty == map[] && s'.q.inflight == map[] && s'.written == s.written
      && (Deliverable(s) ==> s'.lost <= s.lost)
      && forall l | l in s.written && (l !in s.tainted || DirtyAt(s, l.path, l.off)) && l !in s.lost
                    && !Unqueued(s, l.path, l.off) && (Queued(s.q, l.path) ==> l.path in s.target) ::
           Agree(s', l.path, l.off)
  {
    ReachableInv(s);
    steps := CanDrain(s, s.target.Keys);
    forall k | 0 <= k < |steps| ensures Deliverable(s) && steps[k].FinishPiece? ==> steps[k].outcome == Sent {
      assert Chosen(s.q, steps[k], s.target.Keys);
    }
    var s' := Exec(s, steps);
    forall l | l in s.written && (l !in s.tainted || DirtyAt(s, l.path, l.off)) && l !in s.lost
               && !Unqueued(s, l.path, l.off) && (Queued(s.q, l.path) ==> l.path in s.target)
      ensures Agree(s', l.path, l.off)
    {
      assert ByteOk(s', l.path, l.off);
      assert Unqueued(s', l.path, l.off) == Unqueued(s, l.path, l.off);
    }
  }

  // ----- failed sends alone make the leak as large as one likes

  const MIB4: nat := CHUNK_MAX

  /** One waiting writer, one file with 8 MiB dirty, nothing in flight. */
  ghost predicate Stalled(s: System, leak: nat) {
    && s.acct == AsWritten && s.threads == [Waiting] && s.jobs == map[]
    && s.q.dirty == map["f" := [Range(0, 2 * MIB4)]] && s.q.inflight == map[] && s.q.blocked == {}
    && s.q.inflightBytes == 0 && s.q.dirtyBytes == 2 * MIB4 + leak
  }

  lemma StalledLeak(s: System, leak: nat)
    requires Stalled(s, leak)
    ensures Leak(s.q) == leak
  {
    SumPick(s.q.dirty, "f");
    assert s.q.dirty - {"f"} == map[];
    assert [Range(0, 2 * MIB4)][1..] == [];
  }

  lemma SecondHalf()
    ensures Merge([Range(0, MIB4)], MIB4, 2 * MIB4) == [Range(0, 2 * MIB4)]
    ensures MergeReturn([Range(0, MIB4)], MIB4, 2 * MIB4) == 2 * MIB4
  {
    assert [Range(0, MIB4)][1..] == [];
    assert Merge([], 0, 2 * MIB4) == [Range(0, 2 * MIB4)];
    assert Hull([], 0, 2 * MIB4) == Range(0, 2 * MIB4);
    assert Hull([Range(0, MIB4)], MIB4, 2 * MIB4) == Range(0, 2 * MIB4);
    assert Covered([Range(0, MIB4)], MIB4, 2 * MIB4) == Covered([], MIB4, 2 * MIB4);
  }

  /** Both 4 MiB pieces are in flight. */
  ghost predicate Sending(s: System, leak: nat) {
    var a, b := Piece("f", Range(0, MIB4)), Piece("f", Range(MIB4, 2 * MIB4));
    && s.acct == AsWritten && s.threads == [Waiting] && s.jobs.Keys == {a, b}
    && s.q.dirty == map[] && s.q.inflight == map["f" := [a.range, b.range]] && s.q.blocked == {}
    && s.q.inflightBytes == 2 * MIB4 && s.q.dirtyBytes == leak
  }

  lemma OfflineSend(s: System, leak: nat) returns (steps: seq<Step>)
    requires Stalled(s, leak)
    ensures Runs(s, steps) && Sending(Exec(s, steps), leak)
    ensures forall k | 0 <= k < |steps| :: !steps[k].PassDrain?
  {
    var batch := [Piece("f", Range(0, MIB4))] + [Piece("f", Range(MIB4, 2 * MIB4))];
    var tick, take := Tick(s.q.retryAfter), TakeBatch(batch);
    var s1 := Do(s, tick);
    OfflineBatch(s1.q);
    OfflineTaken(s1, batch, leak);
    RunsOne(s1, take);
    RunsCons(s, tick, [take]);
    steps := [tick] + [take];
  }

  lemma OfflineTaken(s: System, batch: seq<Piece>, leak: nat)
    requires Stalled(s, leak) && batch == [Piece("f", Range(0, MIB4))] + [Piece("f", Range(MIB4, 2 * MIB4))]
    requires LegalBatch(s.q, batch)
    requires AfterBatch(s.q, batch) == s.q.(dirty := map[], dirtyBytes := leak,
               inflight := map["f" := [Range(0, MIB4), Range(MIB4, 2 * MIB4)]], inflightBytes := 2 * MIB4)
    ensures Sending(DoTakeBatch(s, batch), leak)
  {
    assert NewJobs(batch).Keys == {batch[0], batch[1]};
  }

  lemma OfflineReturn(s: System, leak: nat) returns (steps: seq<Step>)
    requires Sending(s, leak)
    ensures Runs(s, steps) && Stalled(Exec(s, steps), leak + MIB4)
    ensures forall k | 0 <= k < |steps| :: !steps[k].PassDrain?
  {
    var a, b := Piece("f", Range(0, MIB4)), Piece("f", Range(MIB4, 2 * MIB4));
    var backA, backB := FinishPiece(a, Retry), FinishPiece(b, Retry);
    OfflineFirst(s, a, b);
    OfflineSecond(Do(s, backA), b);
    RunsCons(Do(s, backA), backB, []);
    RunsCons(s, backA, [backB]);
    steps := [backA] + [backB];
  }

  /** The two pieces are claimed and both come back for retry: 4 MiB more leak. */
  lemma OfflineCycle(s: System, leak: nat) returns (steps: seq<Step>)
    requires Stalled(s, leak)
    ensures Runs(s, steps) && Stalled(Exec(s, steps), leak + MIB4)
    ensures forall k | 0 <= k < |steps| :: !steps[k].PassDrain?
  {
    var send := OfflineSend(s, leak);
    var back := OfflineReturn(Exec(s, send), leak);
    RunsConcat(s, send, back);
    steps := send + back;
  }

  lemma OfflineBatch(q: State)
    requires q.dirty == map["f" := [Range(0, 2 * MIB4)]] && q.inflight == map[] && q.blocked == {}
    requires q.inflightBytes == 0 && q.dirtyBytes >= 2 * MIB4
    ensures var batch := [Piece("f", Range(0, MIB4))] + [Piece("f", Range(MIB4, 2 * MIB4))];
      && LegalBatch(q, batch)
      && AfterBatch(q, batch) == q.(dirty := map[], dirtyBytes := q.dirtyBytes - 2 * MIB4,
           inflight := map["f" := [Range(0, MIB4), Range(MIB4, 2 * MIB4)]], inflightBytes := 2 * MIB4)
  {
    var a, b := Piece("f", Range(0, MIB4)), Piece("f", Range(MIB4, 2 * MIB4));
    FirstHalfClaim(q);
    BatchSnoc(q, [], "f");
    assert [] + [a] == [a];
    SecondHalfClaim(Claim(q, "f"));
    BatchSnoc(q, [a], "f");
  }

  lemma FirstHalfClaim(q: State)
    requires q.dirty == map["f" := [Range(0, 2 * MIB4)]] && q.inflight == map[] && q.blocked == {}
    requires q.inflightBytes == 0 && q.dirtyBytes >= 2 * MIB4
    ensures Claimable(q, "f") && NextPiece(q, "f") == Range(0, MIB4)
    ensures Claim(q, "f") == q.(dirty := map["f" := [Range(MIB4, 2 * MIB4)]], dirtyBytes := q.dirtyBytes - MIB4,
                                inflight := map["f" := [Range(0, MIB4)]], inflightBytes := MIB4)
  {
    assert q.dirty["f"][0] == Range(0, 2 * MIB4);
    assert NextPiece(q, "f") == Range(0, MIB4);
    assert [Range(MIB4, 2 * MIB4)] + q.dirty["f"][1..] == [Range(MIB4, 2 * MIB4)];
    assert Get(q.inflight, "f") + [Range(0, MIB4)] == [Range(0, MIB4)];
  }

  lemma SecondHalfClaim(q: State)
    requires q.dirty == map["f" := [Range(MIB4, 2 * MIB4)]] && q.blocked == {}
    requires q.inflight == map["f" := [Range(0, MIB4)]] && q.inflightBytes == MIB4 && q.dirtyBytes >= MIB4
    ensures Claimable(q, "f") && NextPiece(q, "f") == Range(MIB4, 2 * MIB4)
    ensures Claim(q, "f") == q.(dirty := map[], dirtyBytes := q.dirtyBytes - MIB4,
                                inflight := map["f" := [Range(0, MIB4), Range(MIB4, 2 * MIB4)]],
                                inflightBytes := 2 * MIB4)
  {
    assert q.dirty["f"][0] == Range(MIB4, 2 * MIB4);
    assert NextPiece(q, "f") == Range(MIB4, 2 * MIB4);
    assert q.dirty["f"][1..] == [];
    assert Get(q.inflight, "f") + [Range(MIB4, 2 * MIB4)] == [Range(0, MIB4), Range(MIB4, 2 * MIB4)];
    assert map["f" := [Range(MIB4, 2 * MIB4)]] - {"f"} == map[];
  }

  lemma OfflineFirst(s: System, a: Piece, b: Piece)
    requires a == Piece("f", Range(0, MIB4)) && b == Piece("f", Range(MIB4, 2 * MIB4))
    requires s.acct == AsWritten && s.jobs.Keys == {a, b} && s.q.blocked == {} && s.q.dirty == map[]
    requires s.q.inflight == map["f" := [a.range, b.range]] && s.q.inflightBytes == 2 * MIB4
    ensures var s' := DoFinish(s, a, Retry);
      && s'.q.dirty == map["f" := [a.range]] && s'.q.dirtyBytes == s.q.dirtyBytes + MIB4
      && s'.q.inflight == map["f" := [b.range]] && s'.q.inflightBytes == MIB4
      && s'.q.blocked == {} && s'.jobs.Keys == {b} && s'.threads == s.threads && s'.acct == s.acct
  {
    assert [a.range, b.range][1..] == [b.range] && [b.range][1..] == [];
    assert Without([b.range], a.range) == [b.range];
    assert Without([a.range, b.range], a.range) == [b.range];
  }

  lemma OfflineSecond(s: System, b: Piece)
    requires b == Piece("f", Range(MIB4, 2 * MIB4))
    requires s.acct == AsWritten && s.jobs.Keys == {b} && s.q.blocked == {}
    requires s.q.dirty == map["f" := [Range(0, MIB4)]]
    requires s.q.inflight == map["f" := [b.range]] && s.q.inflightBytes == MIB4
    ensures var s' := DoFinish(s, b, Retry);
      && s'.q.dirty == map["f" := [Range(0, 2 * MIB4)]] && s'.q.dirtyBytes == s.q.dirtyBytes + 2 * MIB4
      && s'.q.inflight == map[] && s'.q.inflightBytes == 0
      && s'.q.blocked == {} && s'.jobs == map[] && s'.threads == s.threads && s'.acct == s.acct
  {
    assert [b.range][1..] == [] && [Range(0, MIB4)][1..] == [];
    assert Without([b.range], b.range) == [];
    SecondHalf();
  }

  lemma {:induction false} OfflineCycles(s: System, leak: nat, k: nat) returns (steps: seq<Step>)
    requires Stalled(s, leak)
    ensures Runs(s, steps) && Stalled(Exec(s, steps), leak + k * MIB4)
    ensures forall i | 0 <= i < |steps| :: !steps[i].PassDrain?
    decreases k
  {
    if k == 0 {
      return [];
    }
    var one := OfflineCycle(s, leak);
    var rest := OfflineCycles(Exec(s, one), leak + MIB4, k - 1);
    assert leak + MIB4 + (k - 1) * MIB4 == leak + k * MIB4;
    RunsConcat(s, one, rest);
    steps := one + rest;
  }

  /** One whole FUSE write: cached, then enqueued. */
  lemma WriteRun(s: System, t: nat, off: nat, data: File) returns (steps: seq<Step>)
    requires t < |s.threads| && s.threads[t] == Idle && 0 < |data| <= MAX_WRITE
    ensures Runs(s, steps) && forall k | 0 <= k < |steps| :: !steps[k].PassDrain?
    ensures var s' := Exec(s, steps);
      && s'.q == Enqueue(s.q, s.acct, "f", off, off + |data|)
      && s'.threads == s.threads[t := Waiting] && s'.jobs == s.jobs && s'.acct == s.acct && s'.target == s.target
  {
    var begin, write, queue := BeginWrite(t, "f", off, data), WriteSome(t, |data|), EnqueueWrite(t);
    var s1 := Do(s, begin);
    assert s1.threads[t] == Writing("f", off, data, 0);
    var s2 := Do(s1, write);
    assert s2.threads[t] == Writing("f", off, data, |data|);
    var s3 := Do(s2, queue);
    assert s3.threads == s.threads[t := Waiting];
    RunsOne(s2, queue);
    RunsCons(s1, write, [queue]);
    RunsCons(s, begin, [write] + [queue]);
    steps := [begin] + ([write] + [queue]);
  }

  /** A writer that wrote 8 MiB in two calls and then waits. */
  lemma TwoWrites(s0: System) returns (steps: seq<Step>)
    requires Init(s0) && s0.acct == AsWritten && s0.threads == [Idle]
    ensures Runs(s0, steps) && Stalled(Exec(s0, steps), MIB4)
    ensures forall k | 0 <= k < |steps| :: !steps[k].PassDrain?
  {
    var data := Zeros(MIB4);
    var first := WriteRun(s0, 0, 0, data);
    var s1 := Exec(s0, first);
    assert s1.q.dirty == map["f" := [Range(0, MIB4)]] && s1.q.dirtyBytes == MIB4;
    var pass := PassBelow(0);
    var s2 := Do(s1, pass);
    assert s2.threads == [Idle];
    var second := WriteRun(s2, 0, MIB4, data);
    SecondHalf();
    RunsCons(s1, pass, second);
    RunsConcat(s0, first, [pass] + second);
    steps := first + ([pass] + second);
  }

  /**
    For every amount there is a reachable state, with 8 MiB of true backlog on a
    file the target has, whose leak exceeds it.
   */
  lemma LeakUnbounded(amount: nat) returns (s: System)
    ensures Reachable(s) && s.threads == [Waiting] && Deliverable(s) && Readable(s)
    ensures Leak(s.q) > amount && DirtySize(s.q) == 2 * MIB4
  {
    var s0 := System(AsWritten, EMPTY, map[], map["f" := []], [Idle], map[], {}, {}, {}, 0);
    var writes := TwoWrites(s0);
    var cycles := OfflineCycles(Exec(s0, writes), MIB4, amount);
    RunsConcat(s0, writes, cycles);
    var steps := writes + cycles;
    assert forall k | 0 <= k < |steps| :: !steps[k].PassDrain?;
    TargetKept(s0, steps);
    ReadableWithoutDrains(s0, steps);
    s := Exec(s0, steps);
    StalledLeak(s, MIB4 + amount * MIB4);
  }

  /** Only a rename takes a file off the target, and one thread waiting issues none. */
  lemma {:induction false} TargetKept(s: System, steps: seq<Step>)
    requires Runs(s, steps) && forall k | 0 <= k < |steps| :: !steps[k].PassDrain?
    ensures s.target.Keys <= Exec(s, steps).target.Keys
    decreases |steps|
  {
    if steps == [] {
    } else {
      assert forall k | 0 < k < |steps| :: steps[k] == steps[1..][k - 1];
      TargetKept(Do(s, steps[0]), steps[1..]);
    }
  }

  /** So a writer can block forever, though every byte it wrote can be delivered. */
  lemma StuckWriterReachable() returns (s: System)
    ensures Reachable(s) && s.threads == [Waiting] && Deliverable(s) && Readable(s) && !CanBeReleased(s, 0)
  {
    s := LeakUnbounded(QUEUE_CAP);
    ReleasedIff(s, 0);
  }
}
