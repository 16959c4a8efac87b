/** When the flusher can work the queue off, and the rename after which it never can. */
module Stranded {
  import opened Files
  import opened Ranges
  import opened Queue
  import opened Renames
  import opened WriteBehind
  import opened WriteBehindInvariant
  import opened Backing
  import opened Backpressure

  ghost predicate FlusherRun(s: System, steps: seq<Step>) {
    Runs(s, steps) && forall k | 0 <= k < |steps| :: FlusherStep(steps[k])
  }

  // ----- the queue can be emptied if and only if every queued byte can be read

  /** A queued byte that nothing can read: dirty beyond its file, or of a task whose file ends before its piece. */
  lemma UnreadableStep(s: System, step: Step)
    requires Inv(s) && !Readable(s) && Enabled(s, step) && FlusherStep(step) && NoRetry(step)
    ensures !Readable(Do(s, step))
  {
    var s' := Do(s, step);
    if p: Path, o: nat :| DirtyAt(s, p, o) && |FileAt(s.cache, p)| <= o {
      UnreadableDirty(s, step, p, o);
    } else {
      var piece :| piece in s.jobs && !HasBytes(s, piece);
      UnreadableTask(s, step, piece);
    }
  }

  lemma UnreadableDirty(s: System, step: Step, p: Path, o: nat)
    requires Inv(s) && DirtyAt(s, p, o) && |FileAt(s.cache, p)| <= o
    requires Enabled(s, step) && FlusherStep(step) && NoRetry(step)
    ensures !Readable(Do(s, step))
  {
    var s' := Do(s, step);
    if step.TakeBatch? {
      BatchByte(s, step.batch, p, o);
      if !DirtyAt(s', p, o) {
        var piece :| piece in step.batch && piece.path == p && o in Span(piece.range);
        assert !HasBytes(s', piece);
      }
    } else {
      assert DirtyAt(s', p, o);
    }
  }

  lemma UnreadableTask(s: System, step: Step, piece: Piece)
    requires Inv(s) && piece in s.jobs && !HasBytes(s, piece)
    requires Enabled(s, step) && FlusherStep(step) && NoRetry(step)
    ensures !Readable(Do(s, step))
  {
    var s' := Do(s, step);
    if step.TakeBatch? {
      FreshPieces(s, step.batch, piece);
    }
    assert piece in s'.jobs && !HasBytes(s', piece);
  }

  lemma {:induction false} UnreadableRun(s: System, steps: seq<Step>)
    requires Inv(s) && !Readable(s) && FlusherRun(s, steps) && forall k | 0 <= k < |steps| :: NoRetry(steps[k])
    ensures Inv(Exec(s, steps)) && !Readable(Exec(s, steps))
    decreases |steps|
  {
    if steps == [] {
    } else {
      UnreadableStep(s, steps[0]);
      StepInv(s, steps[0]);
      assert forall k | 0 < k < |steps| :: steps[k] == steps[1..][k - 1];
      UnreadableRun(Do(s, steps[0]), steps[1..]);
    }
  }

  ghost predicate CanEmpty(s: System) {
    exists steps :: FlusherRun(s, steps) && (forall k | 0 <= k < |steps| :: NoRetry(steps[k]))
                    && Exec(s, steps).q.dirty == map[] && Exec(s, steps).jobs == map[]
  }

  /** The flusher can empty the queue, repeating nothing, if and only if every queued byte can be read. */
  lemma CanEmptyIff(s: System)
    requires Inv(s)
    ensures CanEmpty(s) <==> Readable(s)
  {
    if Readable(s) {
      var steps := CanDrain(s, s.target.Keys);
      forall k | 0 <= k < |steps| ensures FlusherStep(steps[k]) && NoRetry(steps[k]) {
        assert Chosen(s.q, steps[k], s.target.Keys);
      }
      assert FlusherRun(s, steps);
    } else {
      forall steps | FlusherRun(s, steps) && (forall k | 0 <= k < |steps| :: NoRetry(steps[k]))
        ensures !(Exec(s, steps).q.dirty == map[] && Exec(s, steps).jobs == map[])
      {
        UnreadableRun(s, steps);
      }
    }
  }

  // ----- without new writes and repeated sends the flusher comes to an end

  /** What is left to do for the send tasks. */
  ghost function TaskWork(jobs: map<Piece, Job>): int
    decreases |jobs|
  {
    if jobs == map[] then 0
    else
      var x :| x in jobs;
      Work(x, jobs[x]) + TaskWork(jobs - {x})
  }

  ghost function Work(piece: Piece, job: Job): int {
    2 * (piece.range.hi - piece.range.lo) - |job.got| - job.applied + 1
  }

  ghost function WorkLeft(s: System): int { 4 * DirtySize(s.q) + TaskWork(s.jobs) }

  lemma {:induction false} WorkPick(jobs: map<Piece, Job>, x: Piece)
    requires x in jobs
    ensures TaskWork(jobs) == Work(x, jobs[x]) + TaskWork(jobs - {x})
    decreases |jobs|
  {
    var c :| c in jobs && TaskWork(jobs) == Work(c, jobs[c]) + TaskWork(jobs - {c});
    if c != x {
      WorkPick(jobs - {c}, x);
      WorkPick(jobs - {x}, c);
      assert jobs - {c} - {x} == jobs - {x} - {c};
    }
  }

  lemma WorkSet(jobs: map<Piece, Job>, x: Piece, job: Job)
    ensures TaskWork(jobs[x := job]) == TaskWork(jobs - {x}) + Work(x, job)
  {
    WorkPick(jobs[x := job], x);
    assert jobs[x := job] - {x} == jobs - {x};
  }

  lemma {:induction false} WorkNonNegative(jobs: map<Piece, Job>)
    requires forall x | x in jobs :: Work(x, jobs[x]) >= 0
    ensures TaskWork(jobs) >= 0
    decreases |jobs|
  {
    if jobs == map[] {
    } else {
      var x :| x in jobs && TaskWork(jobs) == Work(x, jobs[x]) + TaskWork(jobs - {x});
      WorkNonNegative(jobs - {x});
    }
  }

  lemma ClaimWork(q: State, acct: Accounting, p: Path)
    requires Valid(q, acct) && Claimable(q, p)
    ensures var piece := NextPiece(q, p);
      piece.lo < piece.hi && DirtySize(Claim(q, p)) == DirtySize(q) - (piece.hi - piece.lo)
  {
    assert PathOk(q, p);
    ClaimPath(q, p);
    ClaimCount(q, p);
  }

  lemma NewTask(jobs: map<Piece, Job>, init: seq<Piece>, last: Piece)
    requires forall x | x in jobs :: Work(x, jobs[x]) >= 0
    requires last.range.lo < last.range.hi
    ensures TaskWork(jobs + NewJobs(init + [last]))
         <= TaskWork(jobs + NewJobs(init)) + 2 * (last.range.hi - last.range.lo) + 1
  {
    var before, task := jobs + NewJobs(init), Job([], 0, last.path);
    assert jobs + NewJobs(init + [last]) == before[last := task];
    WorkSet(before, last, task);
    if last in before {
      WorkPick(before, last);
    } else {
      assert before - {last} == before;
    }
  }

  /** Each claimed piece turns dirty bytes into at most three quarters as much work. */
  lemma {:induction false} BatchWork(q: State, acct: Accounting, jobs: map<Piece, Job>, batch: seq<Piece>)
    requires Valid(q, acct) && LegalBatch(q, batch) && forall x | x in jobs :: Work(x, jobs[x]) >= 0
    ensures 4 * DirtySize(AfterBatch(q, batch)) + TaskWork(jobs + NewJobs(batch)) + |batch|
         <= 4 * DirtySize(q) + TaskWork(jobs)
  {
    if batch == [] {
      assert jobs + NewJobs(batch) == jobs;
    } else {
      var init, last := batch[..|batch| - 1], batch[|batch| - 1];
      BatchWork(q, acct, jobs, init);
      BatchValid(q, acct, init);
      ClaimWork(AfterBatch(q, init), acct, last.path);
      assert init + [last] == batch;
      NewTask(jobs, init, last);
    }
  }

  /** The flusher waiting, or finding nothing to do, is no work. */
  predicate Idles(step: Step) { step.Tick? || (step.TakeBatch? && step.batch == []) }

  lemma StepWork(s: System, step: Step)
    requires Inv(s) && Enabled(s, step) && FlusherStep(step) && NoRetry(step)
    ensures WorkLeft(Do(s, step)) + (if Idles(step) then 0 else 1) <= WorkLeft(s)
  {
    match step
    case Tick(_) =>
    case TakeBatch(batch) => BatchWork(s.q, s.acct, s.jobs, batch);
    case ReadSome(piece, n) =>
      WorkPick(s.jobs, piece);
      WorkSet(s.jobs, piece, Do(s, step).jobs[piece]);
    case ApplySome(piece, n) =>
      WorkPick(s.jobs, piece);
      WorkSet(s.jobs, piece, Do(s, step).jobs[piece]);
    case FinishPiece(piece, outcome) =>
      WorkPick(s.jobs, piece);
      assert Do(s, step).q.dirty == s.q.dirty;
  }

  ghost function WorkSteps(steps: seq<Step>): nat {
    if steps == [] then 0 else (if Idles(steps[0]) then 0 else 1) + WorkSteps(steps[1..])
  }

  /** However the flusher and its tasks go on, without a repeated send only so many of their steps do anything. */
  lemma {:induction false} WorkBounded(s: System, steps: seq<Step>)
    requires Inv(s) && FlusherRun(s, steps) && forall k | 0 <= k < |steps| :: NoRetry(steps[k])
    ensures WorkSteps(steps) <= WorkLeft(s)
    decreases |steps|
  {
    if steps == [] {
      WorkNonNegative(s.jobs);
    } else {
      StepWork(s, steps[0]);
      StepInv(s, steps[0]);
      assert forall k | 0 < k < |steps| :: steps[k] == steps[1..][k - 1];
      WorkBounded(Do(s, steps[0]), steps[1..]);
    }
  }

  /** And while everything queued can be read, some such step can be taken until the queue is empty. */
  lemma WorkGoesOn(s: System) returns (step: Step)
    requires Inv(s) && Readable(s) && s.q.retryAfter <= s.now && (s.q.dirty != map[] || s.jobs != map[])
    ensures Enabled(s, step) && FlusherStep(step) && NoRetry(step) && !Idles(step)
  {
    if piece :| piece in s.jobs {
      if Answered(s, piece, s.target.Keys) {
        step := FinishPiece(piece, if piece.path in s.target then Sent else Drop);
      } else {
        step := Advance(s, piece, s.target.Keys);
      }
    } else {
      NothingInFlight(s);
      NoStall(s.q, s.acct);
      var batch := FullBatch(s.q, s.acct, []);
      assert AfterBatch(s.q, []) == s.q;
      step := TakeBatch(batch);
    }
  }

  // ----- stranded for good

  /** The byte is queued under a name whose file does not have it, and no task has read it. */
  ghost predicate Stuck(s: System, p: Path, o: nat) {
    && |FileAt(s.cache, p)| <= o
    && (DirtyAt(s, p, o) || exists piece :: piece in s.jobs && Waits(s, piece, p, o))
  }

  ghost predicate Waits(s: System, piece: Piece, p: Path, o: nat)
    requires piece in s.jobs
  {
    && piece.path == p && Within(o, piece.range)
    && s.jobs[piece].file == p && |s.jobs[piece].got| <= o - piece.range.lo
  }

  lemma StuckStep(s: System, step: Step, p: Path, o: nat)
    requires Inv(s) && Stuck(s, p, o) && Enabled(s, step) && FlusherStep(step)
    ensures Stuck(Do(s, step), p, o)
  {
    var s' := Do(s, step);
    if DirtyAt(s, p, o) {
      StuckDirty(s, step, p, o);
    } else {
      var piece :| piece in s.jobs && Waits(s, piece, p, o);
      StuckTask(s, step, piece, p, o);
    }
  }

  lemma StuckDirty(s: System, step: Step, p: Path, o: nat)
    requires Inv(s) && Stuck(s, p, o) && DirtyAt(s, p, o) && Enabled(s, step) && FlusherStep(step)
    ensures Stuck(Do(s, step), p, o)
  {
    var s' := Do(s, step);
    if step.TakeBatch? {
      BatchByte(s, step.batch, p, o);
      if !DirtyAt(s', p, o) {
        var piece :| piece in step.batch && piece.path == p && o in Span(piece.range);
        assert Waits(s', piece, p, o);
      }
    } else if step.FinishPiece? {
      FinishAt(s, step.piece, step.outcome, p, o);
    } else {
      assert DirtyAt(s', p, o);
    }
  }

  lemma StuckTask(s: System, step: Step, piece: Piece, p: Path, o: nat)
    requires Inv(s) && Stuck(s, p, o) && piece in s.jobs && Waits(s, piece, p, o)
    requires Enabled(s, step) && FlusherStep(step)
    ensures Stuck(Do(s, step), p, o)
  {
    var s' := Do(s, step);
    if step.TakeBatch? {
      FreshPieces(s, step.batch, piece);
    }
    if step.FinishPiece? && step.piece == piece {
      FinishAt(s, piece, step.outcome, p, o);
    } else {
      assert Waits(s', piece, p, o);
    }
  }

  /** Whatever the flusher does, retries included, a stuck byte stays queued: no drain of its path ever passes. */
  lemma {:induction false} StuckForever(s: System, steps: seq<Step>, p: Path, o: nat)
    requires Inv(s) && Stuck(s, p, o) && FlusherRun(s, steps)
    ensures var s' := Exec(s, steps);
      && Inv(s') && Stuck(s', p, o)
      && (Get(s'.q.dirty, p) != [] || Get(s'.q.inflight, p) != [])
    decreases |steps|
  {
    if steps == [] {
      if piece :| piece in s.jobs && Waits(s, piece, p, o) {
        JobRange(s, piece);
      }
    } else {
      StuckStep(s, steps[0], p, o);
      StepInv(s, steps[0]);
      assert forall k | 0 < k < |steps| :: steps[k] == steps[1..][k - 1];
      StuckForever(Do(s, steps[0]), steps[1..], p, o);
    }
  }

  /** Write one byte to d/f, then rename d to e before the flusher looks: the drain passes and the byte is stuck. */
  lemma DirRenameStrands() returns (s: System)
    ensures Reachable(s) && s.threads == [Idle] && Stuck(s, "d/f", 0) && s.cache.Keys == {"e/f"} && !CanEmpty(s)
  {
    var s0 := System(AsWritten, EMPTY, map[], map["d/f" := []], [Idle], map[], {}, {}, {}, 0);
    var write := OneByte(s0);
    var s1 := Exec(s0, write);
    var rename := RenameRun(s1);
    s := Exec(s1, rename);
    RunsConcat(s0, write, rename);
    assert Runs(s0, write + rename) && Exec(s0, write + rename) == s;
    assert Get(s.q.dirty, "d/f")[0] == Range(0, 1) && DirtyAt(s, "d/f", 0);
    ReachableInv(s);
    CanEmptyIff(s);
  }

  lemma RenameRun(s: System) returns (steps: seq<Step>)
    requires s.threads == [Idle] && s.cache.Keys == {"d/f"} && s.q.dirty.Keys == {"d/f"} && s.q.inflight == map[]
    ensures Runs(s, steps)
    ensures var s' := Exec(s, steps); s'.threads == [Idle] && s'.q == s.q && s'.cache.Keys == {"e/f"}
  {
    var op := Rename("d", "e");
    var begin, pass := BeginDrain(0, op), PassDrain(0, true);
    var s1 := Do(s, begin);
    assert s1.threads == [Draining(op, s.q.errors)];
    assert DrainPaths(op) == ["d", "e"] && ["d", "e"][0] == "d" && ["d", "e"][1] == "e";
    Moves(s.cache);
    RunsOne(s1, pass);
    RunsCons(s, begin, [pass]);
    steps := [begin] + [pass];
  }

  lemma Moves(m: map<Path, File>)
    requires m.Keys == {"d/f"}
    ensures Movable(m, "d", "e") && Move(m, "d", "e").Keys == {"e/f"}
  {
    assert "d/f" == "d" + "/f" && "d/f"[..1] == "d" && "d/f"[1] == '/';
    assert Under("d", "d/f") && Rebase("d/f", "d", "e") == "e" + "/f" == "e/f";
    assert !Under("e", "d/f");
    assert MovedKeys(m, "d", "e") == {"e/f"};
    MoveAt(m, "d", "e", "e/f");
    RebaseBack("d/f", "d", "e");
  }

  lemma OneByte(s0: System) returns (steps: seq<Step>)
    requires Init(s0) && s0.acct == AsWritten && s0.threads == [Idle] && s0.cache == map[]
    ensures Runs(s0, steps)
    ensures var s := Exec(s0, steps);
      && s.threads == [Idle] && s.cache.Keys == {"d/f"} && s.q.errors == 0
      && s.q.dirty == map["d/f" := [Range(0, 1)]] && s.q.inflight == map[]
  {
    var a, b, c, d := BeginWrite(0, "d/f", 0, [7]), WriteSome(0, 1), EnqueueWrite(0), PassBelow(0);
    var s1 := Do(s0, a);
    assert s1.threads == [Writing("d/f", 0, [7], 0)];
    var s2 := Do(s1, b);
    assert s2.threads == [Writing("d/f", 0, [7], 1)];
    var s3 := Do(s2, c);
    assert s3.threads == [Waiting] && s3.q.dirtyBytes == 1;
    RunsOne(s3, d);
    RunsCons(s2, c, [d]);
    RunsCons(s1, b, [c] + [d]);
    RunsCons(s0, a, [b] + ([c] + [d]));
    steps := [a] + ([b] + ([c] + [d]));
  }
}
