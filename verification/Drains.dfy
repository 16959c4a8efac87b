/**
  What a drain that passes says about the sends that failed while it waited.

  As written, `wait_drain` looks for pending data first, so a permanent failure
  can stay unreported whatever other work there is. With errors tested first, a
  drain that passes means that everything it waited for is on the target.
 */
module Drains {
  import opened Files
  import opened Ranges
  import opened Queue
  import opened Renames
  import opened WriteBehind
  import opened WriteBehindInvariant
  import opened Backing
  import opened Backpressure

  // ----- errors over a run

  predicate Unacknowledged(step: Step) { step.FinishPiece? && step.outcome != Sent }

  /** A step counts one error if it answers a send with anything but success, and none otherwise. */
  lemma StepErrors(s: System, step: Step)
    requires Enabled(s, step)
    ensures Do(s, step).q.errors == s.q.errors + (if Unacknowledged(step) then 1 else 0)
  {
    match step
    case TakeBatch(batch) => BatchKeepsRest(s.q, batch);
    case PassDrain(_, _) => assert Do(s, step).q == s.q;
    case _ =>
  }

  function Failures(steps: seq<Step>): nat {
    if steps == [] then 0 else (if Unacknowledged(steps[0]) then 1 else 0) + Failures(steps[1..])
  }

  /** The error count grows by the number of failed sends, so it stands still exactly while all are acknowledged. */
  lemma {:induction false} RunErrors(s: System, steps: seq<Step>)
    requires Runs(s, steps)
    ensures var q' := Exec(s, steps).q;
      && q'.errors == s.q.errors + Failures(steps)
      && (q'.errors == s.q.errors <==> AllSent(steps))
    decreases |steps|
  {
    if steps == [] {
    } else {
      StepErrors(s, steps[0]);
      RunErrors(Do(s, steps[0]), steps[1..]);
      assert forall k | 0 < k < |steps| :: steps[k] == steps[1..][k - 1];
      assert forall k | 0 <= k < |steps| - 1 :: steps[1..][k] == steps[k + 1];
    }
  }

  /** Some path of the drain has a byte that is dirty or in flight. */
  ghost predicate StillHeld(s: System, paths: seq<Path>) {
    exists p: Path, o: nat :: p in paths && (DirtyAt(s, p, o) || FlightAt(s, p, o))
  }

  lemma HeldBytes(s: System, paths: seq<Path>)
    ensures StillHeld(s, paths)
       <==> exists p :: p in paths && Bytes(Get(s.q.dirty, p)) + Bytes(Get(s.q.inflight, p)) != {}
  {
    forall p: Path, o: nat ensures (DirtyAt(s, p, o) <==> o in Bytes(Get(s.q.dirty, p)))
                               && (FlightAt(s, p, o) <==> o in Bytes(Get(s.q.inflight, p))) {
      AtBytes(Get(s.q.dirty, p), o);
      AtBytes(Get(s.q.inflight, p), o);
    }
    if p :| p in paths && Bytes(Get(s.q.dirty, p)) + Bytes(Get(s.q.inflight, p)) != {} {
      var o: nat :| o in Bytes(Get(s.q.dirty, p)) + Bytes(Get(s.q.inflight, p));
      assert DirtyAt(s, p, o) || FlightAt(s, p, o);
    }
  }

  predicate EndsDrain(step: Step, t: nat) { (step.PassDrain? || step.FailDrain? || step.GiveUpDrain?) && step.t == t }

  lemma {:induction false} StaysDraining(s: System, t: nat, steps: seq<Step>)
    requires t < |s.threads| && s.threads[t].Draining? && Runs(s, steps)
    requires forall k | 0 <= k < |steps| :: !EndsDrain(steps[k], t)
    ensures var s' := Exec(s, steps); t < |s'.threads| && s'.threads[t] == s.threads[t]
    decreases |steps|
  {
    if steps == [] {
    } else {
      DrainingStep(s, t, steps[0]);
      assert forall k | 0 <= k < |steps| - 1 :: steps[1..][k] == steps[k + 1];
      StaysDraining(Do(s, steps[0]), t, steps[1..]);
    }
  }

  lemma DrainingStep(s: System, t: nat, step: Step)
    requires t < |s.threads| && s.threads[t].Draining? && Enabled(s, step) && !EndsDrain(step, t)
    ensures var s' := Do(s, step); t < |s'.threads| && s'.threads[t] == s.threads[t]
  {
    if step.PassDrain? {
      assert Do(s, step).threads == s.threads[step.t := Idle];
    }
  }

  /** What a waiting drain can do next. */
  lemma DrainVerdict(s: System, t: nat, op: DrainOp, startErrors: nat)
    requires Inv(s) && t < |s.threads| && s.threads[t] == Draining(op, startErrors)
    ensures var held := StillHeld(s, DrainPaths(op));
      && (Enabled(s, FailDrain(t)) <==> startErrors < s.q.errors && held)
      && (Enabled(s, PassDrain(t, true)) <==> !held && !Busy(s, op))
  {
    FailureReportedIff(s.q, s.acct, DrainPaths(op), startErrors);
    HeldBytes(s, DrainPaths(op));
  }

  /**
    A drain that waits reports a failure exactly if a send failed since it began
    and a byte of its paths is still queued. What failed before is not its concern.
   */
  lemma NewFailuresOnly(s: System, t: nat, op: DrainOp, steps: seq<Step>)
    requires Reachable(s) && Enabled(s, BeginDrain(t, op)) && Runs(Do(s, BeginDrain(t, op)), steps)
    requires forall k | 0 <= k < |steps| :: !EndsDrain(steps[k], t)
    ensures var s' := Exec(Do(s, BeginDrain(t, op)), steps);
      var held := StillHeld(s', DrainPaths(op));
      && (Enabled(s', FailDrain(t)) <==> !AllSent(steps) && held)
      && (Enabled(s', PassDrain(t, true)) <==> !held && !Busy(s', op))
      && (StrictPoll(s'.q, DrainPaths(op), s.q.errors) == Failed <==> !AllSent(steps))
  {
    var s1 := Do(s, BeginDrain(t, op));
    ReachableInv(s);
    StepInv(s, BeginDrain(t, op));
    RunInv(s1, steps);
    RunErrors(s1, steps);
    StaysDraining(s1, t, steps);
    DrainVerdict(Exec(s1, steps), t, op, s.q.errors);
  }

  // ----- as written: a failure can stay unreported

  lemma WriteReadable(s: System, t: nat, n: nat)
    requires Readable(s) && Enabled(s, WriteSome(t, n))
    ensures Readable(DoWriteSome(s, t, n))
  {
    var s' := DoWriteSome(s, t, n);
    forall p: Path, o: nat | DirtyAt(s', p, o) ensures o < |FileAt(s'.cache, p)| {
      assert DirtyAt(s, p, o);
      WriteSomeCache(s, t, n, p, o);
    }
    forall x | x in s'.jobs ensures HasBytes(s', x) {
      assert HasBytes(s, x);
      WriteSomeCache(s, t, n, s.jobs[x].file, 0);
    }
  }

  lemma EnqueueReadable(s: System, t: nat)
    requires Inv(s) && Readable(s) && Enabled(s, EnqueueWrite(t))
    ensures Readable(DoEnqueue(s, t))
  {
    var s' := DoEnqueue(s, t);
    assert ThreadOk(s, s.threads[t]);
    forall p: Path, o: nat | DirtyAt(s', p, o) ensures o < |FileAt(s'.cache, p)| {
      EnqueueDirtyAt(s, t, p, o);
    }
    forall x | x in s'.jobs ensures HasBytes(s', x) {
      assert HasBytes(s, x);
    }
  }

  /** A thread in the middle of a write can write the rest and enqueue it. */
  lemma FinishWrite(s: System, t: nat) returns (steps: seq<Step>)
    requires Inv(s) && Readable(s) && t < |s.threads| && s.threads[t].Writing?
    ensures Runs(s, steps) && Inv(Exec(s, steps)) && Readable(Exec(s, steps))
    ensures var s' := Exec(s, steps);
      s'.threads == s.threads[t := Waiting] && s'.lost == s.lost && s'.target == s.target
  {
    var th := s.threads[t];
    assert ThreadOk(s, th);
    var s1, some := s, [];
    if th.done < |th.data| {
      var write := WriteSome(t, |th.data| - th.done);
      StepInv(s, write);
      WriteReadable(s, t, write.n);
      s1 := Do(s, write);
      RunsOne(s, write);
      some := [write];
    }
    var queue := EnqueueWrite(t);
    StepInv(s1, queue);
    EnqueueReadable(s1, t);
    RunsOne(s1, queue);
    RunsConcat(s, some, [queue]);
    steps := some + [queue];
    assert Exec(s, steps).threads == s.threads[t := Waiting];
  }

  /** All writes under way can finish; nothing else happens to the threads. */
  lemma {:induction false} FinishWrites(s: System, from: nat) returns (steps: seq<Step>)
    requires Inv(s) && Readable(s) && from <= |s.threads|
    ensures Runs(s, steps) && Inv(Exec(s, steps)) && Readable(Exec(s, steps))
    ensures var s' := Exec(s, steps);
      && |s'.threads| == |s.threads| && s'.lost == s.lost && s'.target == s.target
      && forall u | 0 <= u < |s.threads| ::
           if from <= u && s.threads[u].Writing? then s'.threads[u] == Waiting else s'.threads[u] == s.threads[u]
    decreases |s.threads| - from
  {
    if from == |s.threads| {
      return [];
    }
    var first := [];
    if s.threads[from].Writing? {
      first := FinishWrite(s, from);
    }
    var rest := FinishWrites(Exec(s, first), from + 1);
    RunsConcat(s, first, rest);
    steps := first + rest;
  }

  /**
    While everything queued can be read, a drain that waits can pass yet, with the
    pieces of any chosen files sent and all others dropped. The run may wait out
    a backoff, and the drain does not look in between, though it looks every
    250 ms: a look that finds other work would report errors counted by then.
   */
  lemma DrainCanPass(s: System, t: nat, good: set<Path>) returns (steps: seq<Step>)
    requires Inv(s) && Readable(s) && t < |s.threads| && s.threads[t].Draining? && good <= s.target.Keys
    ensures Runs(s, steps) && Enabled(Exec(s, steps), PassDrain(t, true))
    ensures var s' := Exec(s, steps);
      s'.threads[t] == s.threads[t] && forall l | l in s.lost && l.path !in good :: l in s'.lost
  {
    var writes := FinishWrites(s, 0);
    var s1 := Exec(s, writes);
    var sends := CanDrain(s1, good);
    RunsConcat(s, writes, sends);
    steps := writes + sends;
  }

  /**
    A piece of a path that a drain waits for is dropped. Whatever other work
    there is, as long as it can be read, a run goes on from there in which that
    drain passes, more errors counted than when it began and every byte of the
    piece lost.
   */
  lemma DropCanStayHidden(s: System, t: nat, piece: Piece) returns (steps: seq<Step>)
    requires Reachable(s) && Readable(s) && t < |s.threads| && s.threads[t].Draining?
    requires piece.path in DrainPaths(s.threads[t].op) && Enabled(s, FinishPiece(piece, Drop))
    ensures var s1 := Do(s, FinishPiece(piece, Drop));
      && Runs(s1, steps) && Enabled(Exec(s1, steps), PassDrain(t, true))
      && var s' := Exec(s1, steps);
         && s'.threads[t] == s.threads[t] && s.threads[t].startErrors < s'.q.errors
         && forall o: nat | Within(o, piece.range) :: Loc(piece.path, o) in s'.lost
  {
    ReachableInv(s);
    assert ThreadOk(s, s.threads[t]);
    var drop := FinishPiece(piece, Drop);
    var s1 := Do(s, drop);
    StepInv(s, drop);
    FinishReadable(s, piece, Drop);
    steps := DrainCanPass(s1, t, s1.target.Keys - {piece.path});
    RunErrors(s1, steps);
    forall o: nat | Within(o, piece.range) ensures Loc(piece.path, o) in Exec(s1, steps).lost {
      assert o in Span(piece.range) && Loc(piece.path, o) in s1.lost;
    }
  }

  // ----- with errors tested first

  /** No failed cache write of the byte, and nobody cuts it off or renames the file or a directory above it. */
  ghost predicate LeavesAlone(s: System, step: Step, p: Path, o: nat)
    requires Enabled(s, step)
  {
    match step
    case FailWrite(t, _) => !Covers(s.threads[t], p, o)
    case PassDrain(t, _) => !Touches(s.threads[t].op, p) || (s.threads[t].op.Truncate? && o < s.threads[t].op.size)
    case _ => true
  }

  ghost predicate Undisturbed(s: System, steps: seq<Step>, p: Path, o: nat)
    requires Runs(s, steps)
    decreases |steps|
  {
    steps == [] || (LeavesAlone(s, steps[0], p, o) && Undisturbed(Do(s, steps[0]), steps[1..], p, o))
  }

  /** The byte was written through the mount, and it is not tainted or lost, or will still be sent anew. */
  ghost predicate Held(s: System, p: Path, o: nat) {
    && Loc(p, o) in s.written
    && (Loc(p, o) in s.tainted ==> DirtyAt(s, p, o) || Unqueued(s, p, o))
    && (Loc(p, o) in s.lost ==> DirtyAt(s, p, o) || FlightAt(s, p, o) || Unqueued(s, p, o))
  }

  lemma ThreadHolds(s: System, step: Step, p: Path, o: nat)
    requires Inv(s) && Enabled(s, step) && LeavesAlone(s, step, p, o) && Held(s, p, o)
    requires step.BeginWrite? || step.WriteSome? || step.FailWrite? || step.EnqueueWrite?
    ensures Held(Do(s, step), p, o)
  {
    match step
    case BeginWrite(t, path, off, data) =>
      UnqueuedSet(s, t, Writing(path, off, data, 0), p, o);
    case WriteSome(t, n) =>
      UnqueuedSet(s, t, s.threads[t].(done := s.threads[t].done + n), p, o);
    case FailWrite(t, _) =>
      UnqueuedSet(s, t, Idle, p, o);
      TaintedBy(s, step, p, o);
    case EnqueueWrite(t) =>
      UnqueuedSet(s, t, Waiting, p, o);
      assert ThreadOk(s, s.threads[t]);
      EnqueueDirtyAt(s, t, p, o);
  }

  lemma QueueHolds(s: System, step: Step, p: Path, o: nat)
    requires Inv(s) && Enabled(s, step) && Held(s, p, o)
    requires step.TakeBatch? || (step.FinishPiece? && step.outcome == Sent)
    ensures Held(Do(s, step), p, o)
  {
    var s' := Do(s, step);
    assert Unqueued(s', p, o) == Unqueued(s, p, o);
    if step.TakeBatch? {
      BatchByte(s, step.batch, p, o);
    } else {
      FinishAt(s, step.piece, Sent, p, o);
      var piece := step.piece;
      assert Loc(p, o) in Locs(piece.path, piece.range) <==> p == piece.path && Within(o, piece.range);
    }
  }

  lemma RenameHolds(s: System, from: Path, to: Path, done: bool, p: Path, o: nat)
    requires Held(s, p, o) && !Under(from, p) && !Under(to, p)
    ensures Held(DoRename(s, from, to, done), p, o)
  {
    var s' := DoRename(s, from, to, done);
    RenameTaint(s, from, to, done, p, o);
    assert Unqueued(s', p, o) == Unqueued(s, p, o);
    if Movable(s.cache, from, to) {
      MovableApart(s.cache, from, to);
      MoveLocsMember(s.written, from, to, p, o);
      MoveLocsMember(s.lost, from, to, p, o);
    }
  }

  lemma PassHolds(s: System, t: nat, done: bool, p: Path, o: nat)
    requires Inv(s) && Enabled(s, PassDrain(t, done)) && LeavesAlone(s, PassDrain(t, done), p, o) && Held(s, p, o)
    ensures Held(Do(s, PassDrain(t, done)), p, o)
  {
    var op, mid := s.threads[t].op, s.(threads := s.threads[t := Idle]);
    UnqueuedSet(s, t, Idle, p, o);
    assert Held(mid, p, o);
    if op.Rename? {
      RenameHolds(mid, op.path, op.to, done, p, o);
    } else if op.Truncate? {
      assert Unqueued(DoTruncate(mid, op.path, op.size, done), p, o) == Unqueued(mid, p, o);
    }
  }

  lemma StepHolds(s: System, step: Step, p: Path, o: nat)
    requires Inv(s) && Enabled(s, step) && LeavesAlone(s, step, p, o) && Held(s, p, o)
    requires step.FinishPiece? ==> step.outcome == Sent
    ensures Held(Do(s, step), p, o)
  {
    match step
    case TakeBatch(_) => QueueHolds(s, step, p, o);
    case FinishPiece(_, _) => QueueHolds(s, step, p, o);
    case PassDrain(t, done) => PassHolds(s, t, done, p, o);
    case BeginWrite(_, _, _, _) => ThreadHolds(s, step, p, o);
    case WriteSome(_, _) => ThreadHolds(s, step, p, o);
    case FailWrite(_, _) => ThreadHolds(s, step, p, o);
    case EnqueueWrite(_) => ThreadHolds(s, step, p, o);
    case PassBelow(t) => UnqueuedSet(s, t, Idle, p, o);
    case BeginDrain(t, op) => UnqueuedSet(s, t, Draining(op, s.q.errors), p, o);
    case FailDrain(t) => UnqueuedSet(s, t, Idle, p, o);
    case GiveUpDrain(t) => UnqueuedSet(s, t, Idle, p, o);
    case _ => assert Unqueued(Do(s, step), p, o) == Unqueued(s, p, o);
  }

  lemma {:induction false} RunHolds(s: System, steps: seq<Step>, p: Path, o: nat)
    requires Inv(s) && Runs(s, steps) && Undisturbed(s, steps, p, o) && Held(s, p, o) && AllSent(steps)
    ensures Held(Exec(s, steps), p, o)
    decreases |steps|
  {
    if steps == [] {
    } else {
      StepHolds(s, steps[0], p, o);
      StepInv(s, steps[0]);
      assert forall k | 0 < k < |steps| :: steps[k] == steps[1..][k - 1];
      RunHolds(Do(s, steps[0]), steps[1..], p, o);
    }
  }

  /**
    From the start of a drain to a look that tests errors first and passes, no
    send anywhere failed. So every byte of its paths that was dirty, in flight or
    sent when the drain began is on the target by then, or is being written anew.
   */
  lemma StrictDrainSound(s: System, t: nat, op: DrainOp, steps: seq<Step>, p: Path, o: nat)
    requires Reachable(s) && Enabled(s, BeginDrain(t, op)) && p in DrainPaths(op)
    requires Runs(Do(s, BeginDrain(t, op)), steps) && Undisturbed(Do(s, BeginDrain(t, op)), steps, p, o)
    requires StrictPoll(Exec(Do(s, BeginDrain(t, op)), steps).q, DrainPaths(op), s.q.errors) == Drained
    ensures AllSent(steps)
    ensures var s' := Exec(Do(s, BeginDrain(t, op)), steps); Held(s, p, o) ==> Agree(s', p, o) || Unqueued(s', p, o)
  {
    var s1 := Do(s, BeginDrain(t, op));
    var s' := Exec(s1, steps);
    ReachableInv(s);
    StepInv(s, BeginDrain(t, op));
    RunInv(s1, steps);
    RunErrors(s1, steps);
    DrainedPath(s', DrainPaths(op), s.q.errors, p, o);
    if Held(s, p, o) {
      StepHolds(s, BeginDrain(t, op), p, o);
      RunHolds(s1, steps, p, o);
      assert ByteOk(s', p, o);
    }
  }
}
