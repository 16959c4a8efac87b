/** The upload queue object: the fields the mutex guards, and the methods that take the lock. */
module UploadQueues {
  import opened Files
  import opened Ranges
  import opened Queue

  class UploadQueue {
    var dirty: RangeMap
    var inflight: RangeMap
    var blocked: set<Path>
    var dirtyBytes: nat
    var inflightBytes: nat
    var errors: nat
    var retryAfter: nat
    var backoffMs: nat

    ghost function View(): State
      reads this
    {
      State(dirty, inflight, blocked, dirtyBytes, inflightBytes, errors, retryAfter, backoffMs)
    }

    ghost predicate Valid()
      reads this
    {
      Queue.Valid(View(), AsWritten)
    }

    constructor (now: nat)
      ensures Valid() && View() == EMPTY.(retryAfter := now)
    {
      dirty, inflight, blocked := map[], map[], {};
      dirtyBytes, inflightBytes, errors, retryAfter, backoffMs := 0, 0, 0, now, 0;
    }

    method Enqueue(path: Path, lo: nat, hi: nat)
      requires Valid()
      modifies this
      ensures Valid() && View() == Queue.Enqueue(old(View()), AsWritten, path, lo, hi)
    {
      EnqueueValid(View(), AsWritten, path, lo, hi);
      if hi <= lo {
        return;
      }
      assert PathOk(View(), path);
      if path in inflight && OverlapsAny(inflight[path], lo, hi) {
        blocked := blocked + {path};
      }
      MarkDirty(path, lo, hi);
    }

    /** Merge one non-empty range into the path's dirty list and count it. */
    method MarkDirty(path: Path, lo: nat, hi: nat)
      requires lo < hi && Canonical(Get(dirty, path))
      modifies this`dirty, this`dirtyBytes
      ensures View() == AddDirty(old(View()), AsWritten, path, lo, hi)
    {
      var ranges, grown := MergeRange(Get(dirty, path), lo, hi);
      MergeReturnNat(Get(dirty, path), lo, hi);
      dirty := dirty[path := ranges];
      dirtyBytes := dirtyBytes + grown;
    }

    /** Claims are made path by path, in whatever order the hash map lists the paths. */
    method TakeBatch(now: nat) returns (out: seq<Piece>)
      requires Valid()
      modifies this
      ensures Valid()
      ensures LegalBatch(old(View()), out) && View() == AfterBatch(old(View()), out)
      // nothing during backoff, otherwise all that the window holds
      ensures if now < old(retryAfter) then out == [] else forall p :: !Claimable(View(), p)
      ensures out == [] && now >= retryAfter && dirty != map[] ==> inflight != map[]
    {
      ghost var q0 := View();
      out := [];
      if dirty == map[] || now < retryAfter {
        return;
      }
      var windowLeft := if inflightBytes <= WRITE_WINDOW then WRITE_WINDOW - inflightBytes else 0;
      if windowLeft > 0 {
        var todo := dirty.Keys;
        while todo != {} && windowLeft > 0
          invariant LegalBatch(q0, out) && View() == AfterBatch(q0, out) && Valid()
          invariant windowLeft == WRITE_WINDOW - inflightBytes
          invariant retryAfter == q0.retryAfter
          invariant forall p | p !in todo :: !Claimable(View(), p)
          decreases |todo|
        {
          var path :| path in todo;
          todo := todo - {path};
          if path in blocked {
            continue;
          }
          out, windowLeft := ClaimPathFully(path, windowLeft, out, q0, todo);
        }
      }
      if out == [] && dirty != map[] && inflight == map[] {
        NoStall(View(), AsWritten);
      }
    }

    /** The inner loop of the batch: one path, until its dirty list or the window is used up. */
    method ClaimPathFully(path: Path, window: nat, batch: seq<Piece>, ghost q0: State, ghost todo: set<Path>)
      returns (out: seq<Piece>, windowLeft: nat)
      requires Valid() && path !in blocked && 0 < window == WRITE_WINDOW - inflightBytes
      requires LegalBatch(q0, batch) && View() == AfterBatch(q0, batch)
      requires retryAfter == q0.retryAfter
      requires forall p | p !in todo && p != path :: !Claimable(View(), p)
      modifies this
      ensures Valid() && windowLeft == WRITE_WINDOW - inflightBytes
      ensures LegalBatch(q0, out) && View() == AfterBatch(q0, out)
      ensures retryAfter == q0.retryAfter
      ensures forall p | p !in todo :: !Claimable(View(), p)
    {
      out, windowLeft := batch, window;
      while windowLeft > 0
        invariant Valid() && windowLeft == WRITE_WINDOW - inflightBytes
        invariant path !in blocked && retryAfter == q0.retryAfter
        invariant LegalBatch(q0, out) && View() == AfterBatch(q0, out)
        invariant forall p | p !in todo && p != path :: !Claimable(View(), p)
        decreases windowLeft
      {
        assert PathOk(View(), path);
        if Get(dirty, path) == [] {
          assert dirty - {path} == dirty;
          dirty := dirty - {path};
          break;
        }
        BatchExtend(q0, out, View(), path);
        var piece := ClaimOne(path, windowLeft);
        windowLeft := windowLeft - (piece.hi - piece.lo);
        out := out + [Piece(path, piece)];
      }
    }

    method ClaimOne(path: Path, windowLeft: nat) returns (piece: Range)
      requires Claimable(View(), path) && windowLeft == WRITE_WINDOW - inflightBytes
      requires dirty[path][0].lo < dirty[path][0].hi
      modifies this`dirty, this`dirtyBytes, this`inflight, this`inflightBytes
      ensures piece == NextPiece(old(View()), path) && View() == Claim(old(View()), path)
    {
      var r := dirty[path][0];
      piece := Range(r.lo, Min(Min(r.hi, r.lo + CHUNK_MAX), r.lo + windowLeft));
      var ranges := dirty[path];
      if r.hi > piece.hi {
        ranges := [Range(piece.hi, r.hi)] + ranges[1..];
      } else {
        ranges := ranges[1..];
      }
      dirty := if ranges == [] then dirty - {path} else dirty[path := ranges];
      var size := piece.hi - piece.lo;
      dirtyBytes := if dirtyBytes < size then 0 else dirtyBytes - size;
      inflightBytes := inflightBytes + size;
      inflight := inflight[path := Get(inflight, path) + [piece]];
    }

    /** Called exactly once for each piece a batch handed out. */
    method Finish(path: Path, range: Range, outcome: Outcome, now: nat)
      requires Valid() && Flying(View(), path, range)
      modifies this
      ensures Valid() && View() == Queue.Finish(old(View()), AsWritten, path, range, outcome, now)
    {
      ghost var q := View();
      assert Queue.Valid(Queue.Finish(q, AsWritten, path, range, outcome, now), AsWritten) by {
        FinishValid(q, AsWritten, path, range, outcome, now);
      }
      assert Canonical(Get(dirty, path)) && range.lo < range.hi by {
        assert PathOk(q, path);
        FlightMember(inflight[path], range);
      }
      LandPiece(path, range);
      SettleOutcome(path, range, outcome, now);
      if path !in inflight {
        blocked := blocked - {path};
      }
    }

    method LandPiece(path: Path, range: Range)
      requires range.lo < range.hi
      modifies this`inflight, this`inflightBytes
      ensures View() == Land(old(View()), path, range)
    {
      var size := range.hi - range.lo;
      inflightBytes := if inflightBytes < size then 0 else inflightBytes - size;
      if path in inflight {
        var list := Without(inflight[path], range);
        inflight := if list == [] then inflight - {path} else inflight[path := list];
      }
    }

    method SettleOutcome(path: Path, range: Range, outcome: Outcome, now: nat)
      requires range.lo < range.hi && Canonical(Get(dirty, path))
      modifies this`dirty, this`dirtyBytes, this`errors, this`retryAfter, this`backoffMs
      ensures View() == Settle(old(View()), AsWritten, path, range, outcome, now)
    {
      match outcome {
        case Sent =>
          retryAfter, backoffMs := now, 0;
        case Retry =>
          errors := errors + 1;
          backoffMs := Min(Max(backoffMs, 100) * 2, 2000);
          retryAfter := now + backoffMs;
          MarkDirty(path, range.lo, range.hi);
        case Drop =>
          errors := errors + 1;
      }
    }

    /** One pass of the drain loop under the lock. */
    method WaitDrainOnce(paths: seq<Path>, startErrors: nat) returns (v: Verdict)
      ensures v == DrainPoll(View(), paths, startErrors)
      ensures v == Drained <==> forall p | p in paths :: Get(dirty, p) == [] && Get(inflight, p) == []
      ensures v == Failed ==> startErrors < errors
      ensures v == KeepWaiting ==> errors <= startErrors
    {
      var pending := false;
      for i := 0 to |paths|
        invariant pending <==> Pending(View(), paths[..i])
      {
        assert Pending(View(), paths[..i + 1]) <==>
          Pending(View(), paths[..i]) || Get(dirty, paths[i]) != [] || Get(inflight, paths[i]) != [] by {
          PendingSnoc(View(), paths[..i], paths[i]);
          assert paths[..i + 1] == paths[..i] + [paths[i]];
        }
        if Get(dirty, paths[i]) != [] || Get(inflight, paths[i]) != [] {
          pending := true;
        }
      }
      assert paths[..|paths|] == paths;
      v := if !pending then Drained else if errors > startErrors then Failed else KeepWaiting;
    }

    /** One pass of the backpressure loop: true lets the writer go, and then the true backlog is within the cap. */
    method WaitBelowOnce(cap: nat) returns (go: bool)
      requires Valid()
      ensures go ==> DirtySize(View()) <= cap && Leak(View()) <= cap
      ensures !go ==> cap - Leak(View()) < DirtySize(View())
    {
      go := dirtyBytes <= cap;
    }
  }

  lemma MergeReturnNat(rs: seq<Range>, lo: nat, hi: nat)
    requires Canonical(rs)
    ensures MergeReturn(rs, lo, hi) >= 0
  {
    if lo < hi {
      CoveredBound(rs, lo, hi);
      HullContains(rs, lo, hi);
    }
  }

  /** One more claim extends a legal batch and makes no other path claimable. */
  lemma BatchExtend(q0: State, batch: seq<Piece>, q: State, path: Path)
    requires LegalBatch(q0, batch) && q == AfterBatch(q0, batch)
    requires Queue.Valid(q, AsWritten) && Claimable(q, path)
    ensures var q', piece := Claim(q, path), NextPiece(q, path);
      && Queue.Valid(q', AsWritten)
      && piece.lo < piece.hi && q'.inflightBytes == q.inflightBytes + (piece.hi - piece.lo) <= WRITE_WINDOW
      && q.dirty[path][0].lo < q.dirty[path][0].hi
      && LegalBatch(q0, batch + [Piece(path, piece)])
      && AfterBatch(q0, batch + [Piece(path, piece)]) == q'
    ensures forall p | p != path && Claimable(Claim(q, path), p) :: Claimable(q, p)
  {
    assert PathOk(q, path);
    ClaimPath(q, path);
    ClaimValid(q, AsWritten, path);
    ClaimCount(q, path);
    BatchSnoc(q0, batch, path);
  }

  lemma PendingSnoc(q: State, paths: seq<Path>, p: Path)
    ensures Pending(q, paths + [p]) <==> Pending(q, paths) || Get(q.dirty, p) != [] || Get(q.inflight, p) != []
  {
    var all := paths + [p];
    assert all[|paths|] == p;
    if Pending(q, paths) {
      var i :| 0 <= i < |paths| && (Get(q.dirty, paths[i]) != [] || Get(q.inflight, paths[i]) != []);
      assert all[i] == paths[i];
    }
    if i :| 0 <= i < |all| && (Get(q.dirty, all[i]) != [] || Get(q.inflight, all[i]) != []) {
      assert i < |paths| ==> all[i] == paths[i];
    }
  }
}
