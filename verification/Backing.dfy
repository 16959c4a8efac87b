/**
  Whether what is queued can still be read from the cache.

  Every step keeps each queued byte backed by the cache file of its name, but one:
  a rename of a directory drains only its two names, and takes the cache files
  below away from under the names they are queued by.
 */
module Backing {
  import opened Files
  import opened Ranges
  import opened Queue
  import opened Renames
  import opened WriteBehind
  import opened WriteBehindInvariant

  ghost predicate BackedAt(s: System, p: Path, o: nat) {
    DirtyAt(s, p, o) || FlightAt(s, p, o) ==> o < |FileAt(s.cache, p)| && Loc(p, o) in s.written
  }

  /** Every queued byte was written and is in the cache file of its name, which every send task reads. */
  ghost predicate Backed(s: System) {
    && (forall p: Path, o: nat :: BackedAt(s, p, o))
    && (forall piece | piece in s.jobs :: s.jobs[piece].file == piece.path)
  }

  /** Every queued byte can be read: the dirty ones from the file of their name, the others through open handles. */
  ghost predicate Readable(s: System) {
    && (forall p: Path, o: nat | DirtyAt(s, p, o) :: o < |FileAt(s.cache, p)|)
    && (forall piece | piece in s.jobs :: HasBytes(s, piece))
  }

  /** The send task has read its whole piece, or the file it reads has it. */
  ghost predicate HasBytes(s: System, piece: Piece)
    requires piece in s.jobs
  {
    |s.jobs[piece].got| == piece.range.hi - piece.range.lo || piece.range.hi <= |FileAt(s.cache, s.jobs[piece].file)|
  }

  lemma BackedReadable(s: System)
    requires Inv(s) && Backed(s)
    ensures Readable(s)
  {
    forall p: Path, o: nat | DirtyAt(s, p, o) ensures o < |FileAt(s.cache, p)| {
      assert BackedAt(s, p, o);
    }
    forall piece | piece in s.jobs ensures HasBytes(s, piece) {
      JobRange(s, piece);
      assert BackedAt(s, piece.path, piece.range.hi - 1);
    }
  }

  // ----- renames

  lemma QueuedByte(s: System, p: Path) returns (o: nat)
    requires Inv(s) && (Get(s.q.dirty, p) != [] || Get(s.q.inflight, p) != [])
    ensures DirtyAt(s, p, o) || FlightAt(s, p, o)
  {
    assert PathOk(s.q, p);
    if Get(s.q.dirty, p) != [] {
      o := Get(s.q.dirty, p)[0].lo;
      CanonicalMeans(Get(s.q.dirty, p));
    } else {
      o := Get(s.q.inflight, p)[0].lo;
    }
  }

  /** Nothing is queued at or below either name of a rename that drained and found nothing queued below. */
  lemma NotBelow(s: System, from: Path, to: Path, startErrors: nat, p: Path, o: nat)
    requires Inv(s) && Backed(s) && Movable(s.cache, from, to)
    requires DrainPoll(s.q, [from, to], startErrors) == Drained
    requires EmptyBelow(s.q, from) && (DirtyAt(s, p, o) || FlightAt(s, p, o))
    ensures !Under(from, p) && !Under(to, p)
  {
    assert BackedAt(s, p, o) && p in s.cache;
    assert from == [from, to][0] && to == [from, to][1];
    DrainedPath(s, [from, to], startErrors, from, o);
    DrainedPath(s, [from, to], startErrors, to, o);
  }

  lemma RenameBacked(s: System, from: Path, to: Path, landed: bool, startErrors: nat)
    requires Inv(s) && Backed(s)
    requires DrainPoll(s.q, [from, to], startErrors) == Drained
    requires Movable(s.cache, from, to) ==> EmptyBelow(s.q, from)
    ensures Backed(DoRename(s, from, to, landed))
  {
    var s' := DoRename(s, from, to, landed);
    forall p: Path, o: nat ensures BackedAt(s', p, o) {
      assert BackedAt(s, p, o);
      if Movable(s.cache, from, to) && (DirtyAt(s, p, o) || FlightAt(s, p, o)) {
        NotBelow(s, from, to, startErrors, p, o);
        MovableApart(s.cache, from, to);
        MoveAt(s.cache, from, to, p);
        MoveLocsMember(s.written, from, to, p, o);
      }
    }
    forall piece | piece in s'.jobs ensures s'.jobs[piece].file == piece.path {
      JobRange(s, piece);
      if Movable(s.cache, from, to) {
        NotBelow(s, from, to, startErrors, piece.path, piece.range.lo);
      }
    }
  }

  /** A rename leaves every queued byte backed exactly if its cache files stay, or nothing below it is queued. */
  lemma RenameBackedIff(s: System, t: nat, done: bool)
    requires Inv(s) && Backed(s) && Enabled(s, PassDrain(t, done)) && s.threads[t].op.Rename?
    ensures var op := s.threads[t].op;
      Backed(Do(s, PassDrain(t, done))) <==> (Movable(s.cache, op.path, op.to) ==> EmptyBelow(s.q, op.path))
  {
    var op, mid := s.threads[t].op, s.(threads := s.threads[t := Idle]);
    var s' := Do(s, PassDrain(t, done));
    ThreadStep(s, t, Idle);
    forall p: Path, o: nat ensures BackedAt(mid, p, o) {
      assert BackedAt(s, p, o);
    }
    if Movable(s.cache, op.path, op.to) && !EmptyBelow(s.q, op.path) {
      var p :| Below(op.path, p) && (Get(s.q.dirty, p) != [] || Get(s.q.inflight, p) != []);
      var o := QueuedByte(s, p);
      Unbacked(mid, op.path, op.to, done, p, o);
    } else {
      RenameBacked(mid, op.path, op.to, done, s.threads[t].startErrors);
    }
  }

  lemma Unbacked(s: System, from: Path, to: Path, done: bool, p: Path, o: nat)
    requires Movable(s.cache, from, to) && Below(from, p) && (DirtyAt(s, p, o) || FlightAt(s, p, o))
    ensures !BackedAt(DoRename(s, from, to, done), p, o) && FileAt(DoRename(s, from, to, done).cache, p) == []
  {
    var s' := DoRename(s, from, to, done);
    MovableApart(s.cache, from, to);
    if Under(to, p) {
      UnderBoth(from, to, p);
    }
    MoveAt(s.cache, from, to, p);
    assert DirtyAt(s', p, o) == DirtyAt(s, p, o) && FlightAt(s', p, o) == FlightAt(s, p, o);
  }

  /** The file a send task reads, or would open. */
  ghost function TaskFile(s: System, piece: Piece): File
    requires piece in s.jobs
  {
    FileAt(s.cache, s.jobs[piece].file)
  }

  /**
    A send task that has its file open goes on reading the same bytes after any
    rename that does not replace that file. One that has not finds nothing if its
    file was moved away.
   */
  lemma HandleFollows(s: System, t: nat, done: bool, piece: Piece)
    requires Enabled(s, PassDrain(t, done)) && s.threads[t].op.Rename? && piece in s.jobs
    requires !Under(s.threads[t].op.to, s.jobs[piece].file)
    ensures var s', op := Do(s, PassDrain(t, done)), s.threads[t].op;
      && piece in s'.jobs
      && (s.jobs[piece].got != [] || !Under(op.path, s.jobs[piece].file) ==> TaskFile(s', piece) == TaskFile(s, piece))
      && (s.jobs[piece].got == [] && Under(op.path, s.jobs[piece].file) && Movable(s.cache, op.path, op.to) ==>
            TaskFile(s', piece) == [])
  {
    var op, file := s.threads[t].op, s.jobs[piece].file;
    if Movable(s.cache, op.path, op.to) {
      MoveAt(s.cache, op.path, op.to, file);
      if Under(op.path, file) {
        RebaseBack(file, op.path, op.to);
        MoveAt(s.cache, op.path, op.to, Rebase(file, op.path, op.to));
      }
    }
  }

  // ----- all other steps

  lemma EnqueueBacked(s: System, t: nat, p: Path, o: nat)
    requires Inv(s) && Enabled(s, EnqueueWrite(t)) && BackedAt(s, p, o)
    ensures BackedAt(DoEnqueue(s, t), p, o)
  {
    var th := s.threads[t];
    assert ThreadOk(s, th);
    EnqueueDirtyAt(s, t, p, o);
    if Covers(th, p, o) {
      assert Loc(p, o) in Locs(th.path, Range(th.off, th.off + |th.data|));
    }
  }

  lemma TruncateBacked(s: System, path: Path, size: nat, landed: bool, p: Path, o: nat)
    requires Quiet(s, path) && BackedAt(s, p, o)
    ensures BackedAt(DoTruncate(s, path, size, landed), p, o)
  {
    var s' := DoTruncate(s, path, size, landed);
    assert DirtyAt(s', p, o) == DirtyAt(s, p, o) && FlightAt(s', p, o) == FlightAt(s, p, o);
  }

  /** The rename of this step, if it is one, takes no cache file away from queued bytes. */
  ghost predicate StrandsNothing(s: System, step: Step)
    requires Enabled(s, step)
  {
    step.PassDrain? && s.threads[step.t].op.Rename? ==>
      var op := s.threads[step.t].op; Movable(s.cache, op.path, op.to) ==> EmptyBelow(s.q, op.path)
  }

  lemma StepBackedAt(s: System, step: Step, p: Path, o: nat)
    requires Inv(s) && BackedAt(s, p, o) && Enabled(s, step)
    requires !(step.PassDrain? && s.threads[step.t].op.Rename?)
    ensures BackedAt(Do(s, step), p, o)
  {
    match step
    case WriteSome(t, n) => WriteSomeCache(s, t, n, p, o);
    case EnqueueWrite(t) => EnqueueBacked(s, t, p, o);
    case TakeBatch(batch) => BatchByte(s, batch, p, o);
    case FinishPiece(piece, outcome) =>
      FinishAt(s, piece, outcome, p, o);
      JobRange(s, piece);
    case PassDrain(t, done) =>
      var op, mid := s.threads[t].op, s.(threads := s.threads[t := Idle]);
      if op.Truncate? {
        ThreadStep(s, t, Idle);
        assert !Busy(mid, op);
        TruncateQuiet(mid, op.path, op.size, s.threads[t].startErrors);
        TruncateBacked(mid, op.path, op.size, done, p, o);
      }
    case _ =>
  }

  lemma StepBacked(s: System, step: Step)
    requires Inv(s) && Backed(s) && Enabled(s, step) && StrandsNothing(s, step)
    ensures Backed(Do(s, step))
  {
    if step.PassDrain? && s.threads[step.t].op.Rename? {
      RenameBackedIff(s, step.t, step.done);
    } else {
      forall p: Path, o: nat ensures BackedAt(Do(s, step), p, o) {
        assert BackedAt(s, p, o);
        StepBackedAt(s, step, p, o);
      }
    }
  }

  ghost predicate NothingStranded(s: System, steps: seq<Step>)
    requires Runs(s, steps)
    decreases |steps|
  {
    steps == [] || (StrandsNothing(s, steps[0]) && NothingStranded(Do(s, steps[0]), steps[1..]))
  }

  /** In a run whose renames find nothing queued below them, everything queued can be read. */
  lemma {:induction false} RunBacked(s: System, steps: seq<Step>)
    requires Inv(s) && Backed(s) && Runs(s, steps) && NothingStranded(s, steps)
    ensures Inv(Exec(s, steps)) && Backed(Exec(s, steps)) && Readable(Exec(s, steps))
    decreases |steps|
  {
    if steps == [] {
      BackedReadable(s);
    } else {
      StepInv(s, steps[0]);
      StepBacked(s, steps[0]);
      RunBacked(Do(s, steps[0]), steps[1..]);
    }
  }

  lemma {:induction false} NoRenames(s: System, steps: seq<Step>)
    requires Runs(s, steps) && forall k | 0 <= k < |steps| :: !steps[k].PassDrain?
    ensures NothingStranded(s, steps)
    decreases |steps|
  {
    if steps == [] {
    } else {
      assert forall k | 0 < k < |steps| :: steps[k] == steps[1..][k - 1];
      NoRenames(Do(s, steps[0]), steps[1..]);
    }
  }

  /** Reached from the start without a rename over queued files. */
  lemma BackedFromInit(s0: System, steps: seq<Step>)
    requires Init(s0) && Runs(s0, steps) && NothingStranded(s0, steps)
    ensures Backed(Exec(s0, steps)) && Readable(Exec(s0, steps))
  {
    InitInv(s0);
    assert Backed(s0);
    RunBacked(s0, steps);
  }

  lemma ReadableWithoutDrains(s0: System, steps: seq<Step>)
    requires Init(s0) && Runs(s0, steps) && forall k | 0 <= k < |steps| :: !steps[k].PassDrain?
    ensures Readable(Exec(s0, steps))
  {
    NoRenames(s0, steps);
    BackedFromInit(s0, steps);
  }
}
