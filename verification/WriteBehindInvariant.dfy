/** Every step of the write-behind engine keeps its invariant. */
module WriteBehindInvariant {
  import opened Files
  import opened Ranges
  import opened Queue
  import opened Renames
  import opened WriteBehind

  // ----- small facts the steps share

  lemma AtBytes(rs: seq<Range>, o: nat)
    ensures OverlapsAny(rs, o, o + 1) <==> o in Bytes(rs)
  {
    BytesIn(rs, o);
    if i :| 0 <= i < |rs| && rs[i].lo <= o < rs[i].hi {
      assert o < rs[i].hi && rs[i].lo < o + 1;
    }
    if i :| 0 <= i < |rs| && o < rs[i].hi && rs[i].lo < o + 1 {
      assert rs[i].lo <= o < rs[i].hi;
    }
  }

  /** Changing one thread changes Unqueued only where that thread's cover changes. */
  lemma UnqueuedSet(s: System, t: nat, th: Thread, p: Path, o: nat)
    requires t < |s.threads|
    ensures var s', was := s.(threads := s.threads[t := th]), Covers(s.threads[t], p, o);
      && (Covers(th, p, o) ==> Unqueued(s', p, o))
      && (Covers(th, p, o) == was ==> Unqueued(s', p, o) == Unqueued(s, p, o))
      && (!was ==> Unqueued(s', p, o) == (Unqueued(s, p, o) || Covers(th, p, o)))
      && (was ==> Unqueued(s, p, o))
      && (Unqueued(s', p, o) ==> Unqueued(s, p, o) || Covers(th, p, o))
  {
    var s' := s.(threads := s.threads[t := th]);
    assert s'.threads[t] == th;
    if Unqueued(s, p, o) {
      var u :| 0 <= u < |s.threads| && Covers(s.threads[u], p, o);
      assert u != t ==> s'.threads[u] == s.threads[u];
    }
    if Unqueued(s', p, o) {
      var u :| 0 <= u < |s.threads| && Covers(s'.threads[u], p, o);
      assert u != t ==> s'.threads[u] == s.threads[u];
    }
  }

  lemma JobRange(s: System, piece: Piece)
    requires Valid(s.q, s.acct) && JobsOk(s) && piece in s.jobs
    ensures piece.range.lo < piece.range.hi
    ensures forall o: nat | Within(o, piece.range) :: FlightAt(s, piece.path, o)
  {
    assert PathOk(s.q, piece.path);
    FlightMember(Get(s.q.inflight, piece.path), piece.range);
    forall o: nat | Within(o, piece.range) ensures FlightAt(s, piece.path, o) {
      AtBytes(Get(s.q.inflight, piece.path), o);
      assert o in Span(piece.range);
    }
  }

  lemma EntryHasJob(s: System, p: Path)
    requires Valid(s.q, s.acct) && JobsOk(s)
    ensures p in s.q.inflight ==> exists piece :: piece in s.jobs && piece.path == p
  {
    assert PathOk(s.q, p);
    if p in s.q.inflight {
      assert Flying(s.q, p, s.q.inflight[p][0]);
      assert Piece(p, s.q.inflight[p][0]) in s.jobs;
    }
  }

  lemma NoTask(s: System, p: Path, o: nat)
    requires Valid(s.q, s.acct) && JobsOk(s) && !FlightAt(s, p, o)
    ensures forall x | x in s.jobs && x.path == p :: !Within(o, x.range)
  {
    forall x | x in s.jobs && x.path == p ensures !Within(o, x.range) {
      JobRange(s, x);
    }
  }

  /** No byte of a file is in two send tasks at once. */
  lemma JobsDisjoint(s: System, a: Piece, b: Piece, o: nat)
    requires Valid(s.q, s.acct) && JobsOk(s) && a in s.jobs && b in s.jobs && a.path == b.path
    requires Within(o, a.range) && Within(o, b.range)
    ensures a == b
  {
    assert PathOk(s.q, a.path);
    var rs := Get(s.q.inflight, a.path);
    assert Flying(s.q, a.path, a.range) && Flying(s.q, b.path, b.range);
    var i :| 0 <= i < |rs| && rs[i] == a.range;
    var j :| 0 <= j < |rs| && rs[j] == b.range;
    assert i == j || Disjoint(rs[i], rs[j]) || Disjoint(rs[j], rs[i]);
  }

  // ----- steps that leave every write where it is

  lemma ThreadStep(s: System, t: nat, th: Thread)
    requires Inv(s) && t < |s.threads| && !s.threads[t].Writing? && !th.Writing?
    requires th.Draining? ==> th.startErrors <= s.q.errors
    ensures Inv(s.(threads := s.threads[t := th]))
  {
    var s' := s.(threads := s.threads[t := th]);
    forall p: Path, o: nat ensures ByteOk(s', p, o) {
      assert ByteOk(s, p, o);
      UnqueuedSet(s, t, th, p, o);
    }
  }

  // ----- writes

  lemma BeginWriteByte(s: System, t: nat, path: Path, off: nat, data: File, p: Path, o: nat)
    requires t < |s.threads| && s.threads[t].Idle? && ByteOk(s, p, o)
    ensures ByteOk(DoBeginWrite(s, t, path, off, data), p, o)
  {
    UnqueuedSet(s, t, Writing(path, off, data, 0), p, o);
    var locs := Locs(path, Range(off, off + |data|));
    assert Loc(p, o) in locs <==> Covers(Writing(path, off, data, 0), p, o);
  }

  lemma BeginWriteInv(s: System, t: nat, path: Path, off: nat, data: File)
    requires Inv(s) && Enabled(s, BeginWrite(t, path, off, data))
    ensures Inv(DoBeginWrite(s, t, path, off, data))
  {
    forall p: Path, o: nat ensures ByteOk(DoBeginWrite(s, t, path, off, data), p, o) {
      assert ByteOk(s, p, o);
      BeginWriteByte(s, t, path, off, data, p, o);
    }
  }

  /** A partial cache write changes only bytes the thread covers, and never shrinks a file. */
  lemma WriteSomeCache(s: System, t: nat, n: nat, p: Path, o: nat)
    requires Enabled(s, WriteSome(t, n))
    ensures var th, f, f' := s.threads[t], FileAt(s.cache, p), FileAt(DoWriteSome(s, t, n).cache, p);
      && |f| <= |f'|
      && (p == th.path ==> th.off + th.done + n <= |f'|)
      && (!Covers(th, p, o) && o < |f| ==> f'[o] == f[o])
  {
    var th := s.threads[t];
    WriteAtEffect(FileAt(s.cache, th.path), th.off + th.done, th.data[th.done..th.done + n], o);
  }

  lemma WriteSomeByte(s: System, t: nat, n: nat, p: Path, o: nat)
    requires Enabled(s, WriteSome(t, n)) && ByteOk(s, p, o)
    ensures ByteOk(DoWriteSome(s, t, n), p, o)
  {
    var th, s' := s.threads[t], DoWriteSome(s, t, n);
    var th' := th.(done := th.done + n);
    WriteSomeCache(s, t, n, p, o);
    UnqueuedSet(s, t, th', p, o);
    assert Unqueued(s', p, o) == Unqueued(s, p, o);
    assert DirtyAt(s', p, o) == DirtyAt(s, p, o) && FlightAt(s', p, o) == FlightAt(s, p, o);
    if Loc(p, o) !in s.tainted {
      forall piece | piece in s'.jobs && piece.path == p && Within(o, piece.range) ensures JobByteOk(s', piece, o) {
        assert JobByteOk(s, piece, o);
      }
    }
  }

  lemma WriteSomeThread(s: System, t: nat, n: nat, u: nat)
    requires Enabled(s, WriteSome(t, n)) && ThreadsOk(s) && u < |s.threads|
    ensures var s' := DoWriteSome(s, t, n); ThreadOk(s', s'.threads[u])
  {
    assert ThreadOk(s, s.threads[u]);
    WriteSomeCache(s, t, n, s.threads[t].path, 0);
    if s.threads[u].Writing? {
      WriteSomeCache(s, t, n, s.threads[u].path, 0);
    }
  }

  lemma WriteSomeInv(s: System, t: nat, n: nat)
    requires Inv(s) && Enabled(s, WriteSome(t, n))
    ensures Inv(DoWriteSome(s, t, n))
  {
    var s' := DoWriteSome(s, t, n);
    forall p: Path, o: nat ensures ByteOk(s', p, o) {
      assert ByteOk(s, p, o);
      WriteSomeByte(s, t, n, p, o);
    }
    forall u | 0 <= u < |s'.threads| ensures ThreadOk(s', s'.threads[u]) {
      WriteSomeThread(s, t, n, u);
    }
  }

  /** Since its byte `start`, the thread put exactly its bytes up to `done` over `f0`. */
  ghost predicate Wrote(th: Thread, f: File, f0: File, start: nat) {
    && th.Writing? && start <= th.done <= |th.data|
    && |f| == (if start == th.done || th.off + th.done < |f0| then |f0| else th.off + th.done)
    && forall o: nat ::
         At(f, o) == if th.off + start <= o < th.off + th.done then th.data[o - th.off] else At(f0, o)
  }

  lemma WroteMoreByte(th: Thread, f: File, n: nat, o: nat)
    requires th.Writing? && th.done + n <= |th.data|
    ensures var at := th.off + th.done;
      At(WriteAt(f, at, th.data[th.done..th.done + n]), o) == if at <= o < at + n then th.data[o - th.off] else At(f, o)
  {
    WriteAtEffect(f, th.off + th.done, th.data[th.done..th.done + n], o);
  }

  lemma WroteMoreLength(th: Thread, f: File, n: nat)
    requires th.Writing? && 0 < n && th.done + n <= |th.data|
    ensures var end := th.off + th.done + n;
      |WriteAt(f, th.off + th.done, th.data[th.done..th.done + n])| == if end < |f| then |f| else end
  {
    WriteAtEffect(f, th.off + th.done, th.data[th.done..th.done + n], 0);
  }

  lemma WroteMore(th: Thread, f: File, g: File, n: nat, f0: File, start: nat)
    requires Wrote(th, f, f0, start) && 0 < n && th.done + n <= |th.data|
    requires g == WriteAt(f, th.off + th.done, th.data[th.done..th.done + n])
    ensures Wrote(th.(done := th.done + n), g, f0, start)
  {
    WroteMoreLength(th, f, n);
    forall o: nat
      ensures At(g, o) == if th.off + start <= o < th.off + th.done + n then th.data[o - th.off] else At(f0, o)
    {
      WroteMoreByte(th, f, n, o);
    }
  }

  lemma WroteIs(th: Thread, f: File, f0: File, start: nat)
    requires Wrote(th, f, f0, start)
    ensures f == WriteAt(f0, th.off + start, th.data[start..th.done])
  {
    var at, part := th.off + start, th.data[start..th.done];
    var g := WriteAt(f0, at, part);
    WriteAtEffect(f0, at, part, 0);
    forall o: nat | o < |f| ensures At(f, o) == At(g, o) {
      WriteAtEffect(f0, at, part, o);
    }
    SameFile(f, g);
  }

  /** The thread's cache file holds what it wrote so far over `f0`. */
  ghost predicate WroteCache(s: System, t: nat, f0: File, start: nat) {
    t < |s.threads| && s.threads[t].Writing? && Wrote(s.threads[t], FileAt(s.cache, s.threads[t].path), f0, start)
  }

  lemma OnePart(s: System, t: nat, n: nat, f0: File, start: nat)
    requires Enabled(s, WriteSome(t, n)) && WroteCache(s, t, f0, start)
    ensures var th, s' := s.threads[t], DoWriteSome(s, t, n);
      && |s'.threads| == |s.threads| && s'.threads[t] == th.(done := th.done + n)
      && WroteCache(s', t, f0, start)
  {
    var th, s' := s.threads[t], DoWriteSome(s, t, n);
    var f, g := FileAt(s.cache, th.path), FileAt(s'.cache, th.path);
    assert s'.threads[t] == th.(done := th.done + n);
    assert g == WriteAt(f, th.off + th.done, th.data[th.done..th.done + n]);
    WroteMore(th, f, g, n, f0, start);
  }

  lemma {:induction false} PartsAddUp(s: System, t: nat, steps: seq<Step>, f0: File, start: nat)
    requires WroteCache(s, t, f0, start)
    requires Runs(s, steps) && forall k | 0 <= k < |steps| :: steps[k].WriteSome? && steps[k].t == t
    ensures var s' := Exec(s, steps);
      && |s'.threads| == |s.threads| && WroteCache(s', t, f0, start)
      && s'.threads[t] == s.threads[t].(done := s'.threads[t].done)
    decreases |steps|
  {
    if steps == [] {
    } else {
      OnePart(s, t, steps[0].n, f0, start);
      assert forall k | 0 < k < |steps| :: steps[k] == steps[1..][k - 1];
      PartsAddUp(Do(s, steps[0]), t, steps[1..], f0, start);
    }
  }

  /** In whatever parts a thread writes its cache file, together they are one write of those bytes. */
  lemma PartsAreTheWrite(s: System, t: nat, steps: seq<Step>)
    requires t < |s.threads| && s.threads[t].Writing? && s.threads[t].done <= |s.threads[t].data|
    requires Runs(s, steps) && forall k | 0 <= k < |steps| :: steps[k].WriteSome? && steps[k].t == t
    ensures var s', th := Exec(s, steps), s.threads[t];
      && |s'.threads| == |s.threads| && s'.threads[t].Writing? && th.done <= s'.threads[t].done <= |th.data|
      && s'.threads[t] == th.(done := s'.threads[t].done)
      && FileAt(s'.cache, th.path)
         == WriteAt(FileAt(s.cache, th.path), th.off + th.done, th.data[th.done..s'.threads[t].done])
  {
    var f0, start := FileAt(s.cache, s.threads[t].path), s.threads[t].done;
    PartsAddUp(s, t, steps, f0, start);
    var s' := Exec(s, steps);
    WroteIs(s'.threads[t], FileAt(s'.cache, s'.threads[t].path), f0, start);
  }

  /** A direct write changes the target only where it is tainted from then on. */
  lemma FailWriteTarget(s: System, t: nat, landed: nat, p: Path, o: nat)
    requires Enabled(s, FailWrite(t, landed)) && !Covers(s.threads[t], p, o)
    ensures var f, f' := FileAt(s.target, p), FileAt(DoFailWrite(s, t, landed).target, p);
      |f| <= |f'| && (o < |f| ==> f'[o] == f[o])
  {
    var th := s.threads[t];
    WriteAtEffect(FileAt(s.target, th.path), th.off, th.data[..landed], o);
  }

  lemma FailWriteByte(s: System, t: nat, landed: nat, p: Path, o: nat)
    requires Enabled(s, FailWrite(t, landed)) && ByteOk(s, p, o)
    ensures ByteOk(DoFailWrite(s, t, landed), p, o)
  {
    var s' := DoFailWrite(s, t, landed);
    UnqueuedSet(s, t, Idle, p, o);
    if Covers(s.threads[t], p, o) {
      var th := s.threads[t];
      assert Loc(p, o) in Locs(th.path, Range(th.off, th.off + |th.data|));
    } else if Loc(p, o) !in s'.tainted {
      FailWriteTarget(s, t, landed, p, o);
      forall x | x in s'.jobs && x.path == p && Within(o, x.range) ensures JobByteOk(s', x, o) {
        assert JobByteOk(s, x, o);
      }
    }
  }

  lemma FailWriteInv(s: System, t: nat, landed: nat)
    requires Inv(s) && Enabled(s, FailWrite(t, landed))
    ensures Inv(DoFailWrite(s, t, landed))
  {
    var s' := DoFailWrite(s, t, landed);
    forall p: Path, o: nat ensures ByteOk(s', p, o) {
      assert ByteOk(s, p, o);
      FailWriteByte(s, t, landed, p, o);
    }
    forall u | 0 <= u < |s'.threads| ensures ThreadOk(s', s'.threads[u]) {
      assert ThreadOk(s, s.threads[u]);
    }
  }

  lemma EnqueueDirtyAt(s: System, t: nat, p: Path, o: nat)
    requires Valid(s.q, s.acct) && t < |s.threads| && s.threads[t].Writing? && 0 < |s.threads[t].data|
    ensures var s' := DoEnqueue(s, t);
      && DirtyAt(s', p, o) == (DirtyAt(s, p, o) || Covers(s.threads[t], p, o))
      && FlightAt(s', p, o) == FlightAt(s, p, o)
  {
    var th, s' := s.threads[t], DoEnqueue(s, t);
    AtBytes(Get(s.q.dirty, p), o);
    AtBytes(Get(s'.q.dirty, p), o);
    assert PathOk(s.q, th.path);
    if p == th.path {
      AddDirtyPath(s.q, s.acct, p, th.off, th.off + |th.data|);
    }
  }

  lemma EnqueueByte(s: System, t: nat, p: Path, o: nat)
    requires Inv(s) && Enabled(s, EnqueueWrite(t))
    ensures ByteOk(DoEnqueue(s, t), p, o)
  {
    var th := s.threads[t];
    assert ByteOk(s, p, o);
    assert ThreadOk(s, th);
    UnqueuedSet(s, t, Waiting, p, o);
    EnqueueDirtyAt(s, t, p, o);
    if Covers(th, p, o) {
      assert Loc(p, o) in Locs(th.path, Range(th.off, th.off + |th.data|));
    }
  }

  lemma EnqueueInv(s: System, t: nat)
    requires Inv(s) && Enabled(s, EnqueueWrite(t))
    ensures Inv(DoEnqueue(s, t))
  {
    var th, s' := s.threads[t], DoEnqueue(s, t);
    EnqueueValid(s.q, s.acct, th.path, th.off, th.off + |th.data|);
    forall p: Path, o: nat ensures ByteOk(s', p, o) {
      EnqueueByte(s, t, p, o);
    }
    forall u | 0 <= u < |s'.threads| ensures ThreadOk(s', s'.threads[u]) {
      assert ThreadOk(s, s.threads[u]);
    }
    assert s'.q.inflight == s.q.inflight;
  }

  // ----- claims

  lemma {:induction false} PiecesForMember(batch: seq<Piece>, piece: Piece)
    ensures piece in batch <==> piece.range in PiecesFor(batch, piece.path)
  {
    if batch == [] {
    } else {
      var init, last := batch[..|batch| - 1], batch[|batch| - 1];
      PiecesForMember(init, piece);
      assert batch == init + [last];
    }
  }

  /** Newly claimed pieces never touch a byte that was already in flight. */
  lemma ClaimedApart(a: seq<Range>, b: seq<Range>, o: nat)
    requires Pieces(a + b)
    ensures !(o in Bytes(a) && o in Bytes(b))
  {
    BytesIn(a, o);
    BytesIn(b, o);
    var all := a + b;
    forall i, j | 0 <= i < |a| && 0 <= j < |b| ensures Disjoint(a[i], b[j]) {
      assert all[i] == a[i] && all[|a| + j] == b[j];
      assert Disjoint(all[i], all[|a| + j]);
    }
  }

  /** A byte that stops being dirty becomes a byte of a new piece, and of no old one. */
  lemma BatchByte(s: System, batch: seq<Piece>, p: Path, o: nat)
    requires Valid(s.q, s.acct) && LegalBatch(s.q, batch)
    ensures var s', taken := DoTakeBatch(s, batch), Loc(p, o) in BatchLocs(batch);
      && DirtyAt(s, p, o) == (DirtyAt(s', p, o) || taken)
      && FlightAt(s', p, o) == (FlightAt(s, p, o) || taken)
      && !(taken && (DirtyAt(s', p, o) || FlightAt(s, p, o)))
  {
    var q', claimed := AfterBatch(s.q, batch), PiecesFor(batch, p);
    BatchConserves(s.q, s.acct, batch, p);
    BatchValid(s.q, s.acct, batch);
    assert PathOk(q', p);
    AtBytes(Get(s.q.dirty, p), o);
    AtBytes(Get(q'.dirty, p), o);
    AtBytes(Get(s.q.inflight, p), o);
    AtBytes(Get(q'.inflight, p), o);
    ClaimedApart(Get(s.q.inflight, p), claimed, o);
    BytesConcat(Get(s.q.inflight, p), claimed);
    TakenByte(batch, p, o);
  }

  lemma TakenByte(batch: seq<Piece>, p: Path, o: nat)
    ensures Loc(p, o) in BatchLocs(batch) <==> o in Bytes(PiecesFor(batch, p))
  {
    var rs := PiecesFor(batch, p);
    BytesIn(rs, o);
    if Loc(p, o) in BatchLocs(batch) {
      var piece :| piece in batch && o in Span(piece.range) && piece.path == p;
      PiecesForMember(batch, piece);
      var i :| 0 <= i < |rs| && rs[i] == piece.range;
    }
    if i :| 0 <= i < |rs| && rs[i].lo <= o < rs[i].hi {
      PiecesForMember(batch, Piece(p, rs[i]));
      assert o in Span(Piece(p, rs[i]).range);
    }
  }

  lemma BatchByteOk(s: System, batch: seq<Piece>, p: Path, o: nat)
    requires Inv(s) && LegalBatch(s.q, batch)
    ensures ByteOk(DoTakeBatch(s, batch), p, o)
  {
    var s' := DoTakeBatch(s, batch);
    assert ByteOk(s, p, o);
    BatchByte(s, batch, p, o);
    assert Unqueued(s', p, o) == Unqueued(s, p, o);
    if Loc(p, o) !in s'.tainted {
      forall piece | piece in s'.jobs && piece.path == p && Within(o, piece.range)
        ensures JobByteOk(s', piece, o)
      {
        if piece !in batch {
          JobRange(s, piece);
          assert JobByteOk(s, piece, o);
        }
      }
    }
  }

  lemma BatchInv(s: System, batch: seq<Piece>)
    requires Inv(s) && Enabled(s, TakeBatch(batch))
    ensures Inv(Do(s, TakeBatch(batch)))
  {
    var s' := Do(s, TakeBatch(batch));
    BatchValid(s.q, s.acct, batch);
    forall p: Path, o: nat ensures ByteOk(s', p, o) {
      BatchByteOk(s, batch, p, o);
    }
    forall piece: Piece ensures piece in s'.jobs <==> Flying(s'.q, piece.path, piece.range) {
      BatchConserves(s.q, s.acct, batch, piece.path);
      PiecesForMember(batch, piece);
    }
    BatchJobs(s, batch);
    BatchKeepsRest(s.q, batch);
    forall u | 0 <= u < |s'.threads| ensures ThreadOk(s', s'.threads[u]) {
      assert ThreadOk(s, s.threads[u]);
    }
  }

  lemma BatchJobs(s: System, batch: seq<Piece>)
    requires Inv(s) && LegalBatch(s.q, batch)
    ensures forall piece | piece in batch :: piece.range.lo < piece.range.hi
  {
    var q' := AfterBatch(s.q, batch);
    BatchValid(s.q, s.acct, batch);
    forall piece | piece in batch ensures piece.range.lo < piece.range.hi {
      assert PathOk(q', piece.path);
      BatchConserves(s.q, s.acct, batch, piece.path);
      PiecesForMember(batch, piece);
      FlightMember(Get(q'.inflight, piece.path), piece.range);
    }
  }

  /** A batch takes up no piece that is in flight already. */
  lemma FreshPieces(s: System, batch: seq<Piece>, piece: Piece)
    requires Inv(s) && LegalBatch(s.q, batch) && piece in s.jobs
    ensures piece !in batch
  {
    JobRange(s, piece);
    var lo := piece.range.lo;
    if piece in batch {
      assert lo in Span(piece.range) && Loc(piece.path, lo) in BatchLocs(batch);
      BatchByte(s, batch, piece.path, lo);
    }
  }

  // ----- send tasks

  lemma ReadByteOk(s: System, piece: Piece, n: nat, p: Path, o: nat)
    requires Inv(s) && Enabled(s, ReadSome(piece, n))
    ensures ByteOk(DoRead(s, piece, n), p, o)
  {
    var s' := DoRead(s, piece, n);
    assert ByteOk(s, p, o);
    assert Unqueued(s', p, o) == Unqueued(s, p, o);
    if Loc(p, o) !in s.tainted {
      forall x | x in s'.jobs && x.path == p && Within(o, x.range) ensures JobByteOk(s', x, o) {
        assert JobByteOk(s, x, o);
      }
    }
  }

  lemma ReadInv(s: System, piece: Piece, n: nat)
    requires Inv(s) && Enabled(s, ReadSome(piece, n))
    ensures Inv(DoRead(s, piece, n))
  {
    var s' := DoRead(s, piece, n);
    forall p: Path, o: nat ensures ByteOk(s', p, o) {
      ReadByteOk(s, piece, n, p, o);
    }
    forall u | 0 <= u < |s'.threads| ensures ThreadOk(s', s'.threads[u]) {
      assert ThreadOk(s, s.threads[u]);
    }
  }

  /** The bytes the next partial landing carries. */
  predicate Landing(s: System, piece: Piece, n: nat, p: Path, o: nat)
    requires piece in s.jobs
  {
    var at := piece.range.lo + s.jobs[piece].applied;
    p == piece.path && at <= o < at + n
  }

  /** Writing a part of `got` where it belongs changes exactly that part's bytes. */
  lemma PartLands(f: File, lo: nat, got: File, from: nat, n: nat, o: nat)
    requires from + n <= |got| && 0 < n
    ensures var f', at := WriteAt(f, lo + from, got[from..from + n]), lo + from;
      && |f| <= |f'|
      && (at <= o < at + n ==> o < |f'| && f'[o] == got[o - lo])
      && (!(at <= o < at + n) && o < |f| ==> f'[o] == f[o])
  {
    WriteAtEffect(f, lo + from, got[from..from + n], o);
  }

  /** A partial landing changes exactly the bytes it carries. */
  lemma ApplyTarget(s: System, piece: Piece, n: nat, p: Path, o: nat)
    requires Enabled(s, ApplySome(piece, n))
    ensures var f, f' := FileAt(s.target, p), FileAt(DoApply(s, piece, n).target, p);
      && |f| <= |f'|
      && (Landing(s, piece, n, p, o) ==>
            o < |f'| && o - piece.range.lo < |s.jobs[piece].got| && f'[o] == s.jobs[piece].got[o - piece.range.lo])
      && (!Landing(s, piece, n, p, o) && o < |f| ==> f'[o] == f[o])
  {
    if p == piece.path {
      PartLands(s.target[p], piece.range.lo, s.jobs[piece].got, s.jobs[piece].applied, n, o);
    }
  }

  lemma ApplyByteOk(s: System, piece: Piece, n: nat, p: Path, o: nat)
    requires Inv(s) && Enabled(s, ApplySome(piece, n))
    ensures ByteOk(DoApply(s, piece, n), p, o)
  {
    var s' := DoApply(s, piece, n);
    assert ByteOk(s, p, o);
    assert Unqueued(s', p, o) == Unqueued(s, p, o);
    ApplyTarget(s, piece, n, p, o);
    JobRange(s, piece);
    if Loc(p, o) !in s.tainted {
      forall x | x in s'.jobs && x.path == p && Within(o, x.range) ensures JobByteOk(s', x, o) {
        assert JobByteOk(s, x, o);
        if piece.path == p && Within(o, piece.range) {
          JobsDisjoint(s, x, piece, o);
        }
      }
    }
  }

  lemma ApplyInv(s: System, piece: Piece, n: nat)
    requires Inv(s) && Enabled(s, ApplySome(piece, n))
    ensures Inv(DoApply(s, piece, n))
  {
    var s' := DoApply(s, piece, n);
    forall p: Path, o: nat ensures ByteOk(s', p, o) {
      ApplyByteOk(s, piece, n, p, o);
    }
    forall u | 0 <= u < |s'.threads| ensures ThreadOk(s', s'.threads[u]) {
      assert ThreadOk(s, s.threads[u]);
    }
  }

  /** `finish` takes the piece's bytes out of flight, and on Retry puts them back to dirty. */
  lemma FinishAt(s: System, piece: Piece, outcome: Outcome, p: Path, o: nat)
    requires Valid(s.q, s.acct) && JobsOk(s) && piece in s.jobs
    ensures var s', here := DoFinish(s, piece, outcome), p == piece.path && Within(o, piece.range);
      && FlightAt(s', p, o) == (FlightAt(s, p, o) && !here)
      && DirtyAt(s', p, o) == (DirtyAt(s, p, o) || (here && outcome == Retry))
  {
    var s' := DoFinish(s, piece, outcome);
    AtBytes(Get(s.q.dirty, p), o);
    AtBytes(Get(s'.q.dirty, p), o);
    AtBytes(Get(s.q.inflight, p), o);
    AtBytes(Get(s'.q.inflight, p), o);
    assert PathOk(s.q, piece.path);
    if p == piece.path {
      FinishPath(s.q, s.acct, p, piece.range, outcome, s.now);
      assert o in Span(piece.range) <==> Within(o, piece.range);
    } else {
      FinishOther(s.q, s.acct, piece.path, piece.range, outcome, s.now, p);
    }
  }

  lemma FinishByteOk(s: System, piece: Piece, outcome: Outcome, p: Path, o: nat)
    requires Inv(s) && Enabled(s, FinishPiece(piece, outcome))
    ensures ByteOk(DoFinish(s, piece, outcome), p, o)
  {
    var s' := DoFinish(s, piece, outcome);
    assert ByteOk(s, p, o);
    assert Unqueued(s', p, o) == Unqueued(s, p, o);
    FinishAt(s, piece, outcome, p, o);
    JobRange(s, piece);
    assert Loc(p, o) in Locs(piece.path, piece.range) <==> p == piece.path && Within(o, piece.range);
    if Loc(p, o) !in s.tainted {
      forall x | x in s'.jobs && x.path == p && Within(o, x.range) ensures JobByteOk(s', x, o) {
        assert JobByteOk(s, x, o);
      }
      if p == piece.path && Within(o, piece.range) {
        assert JobByteOk(s, piece, o);
      }
    }
  }

  lemma FinishJobs(s: System, piece: Piece, outcome: Outcome, x: Piece)
    requires Valid(s.q, s.acct) && JobsOk(s) && piece in s.jobs
    ensures var s' := DoFinish(s, piece, outcome);
      x in s'.jobs <==> Flying(s'.q, x.path, x.range)
  {
    assert PathOk(s.q, piece.path);
    if x.path == piece.path {
      FinishFlight(s.q, s.acct, piece.path, piece.range, outcome, s.now);
      WithoutMembers(s.q.inflight[piece.path], piece.range);
      assert x == piece <==> x.range == piece.range;
    } else {
      FinishOther(s.q, s.acct, piece.path, piece.range, outcome, s.now, x.path);
    }
  }

  lemma FinishInv(s: System, piece: Piece, outcome: Outcome)
    requires Inv(s) && Enabled(s, FinishPiece(piece, outcome))
    ensures Inv(DoFinish(s, piece, outcome))
  {
    var s' := DoFinish(s, piece, outcome);
    FinishValid(s.q, s.acct, piece.path, piece.range, outcome, s.now);
    forall p: Path, o: nat ensures ByteOk(s', p, o) {
      FinishByteOk(s, piece, outcome, p, o);
    }
    forall x: Piece ensures x in s'.jobs <==> Flying(s'.q, x.path, x.range) {
      FinishJobs(s, piece, outcome, x);
    }
    forall u | 0 <= u < |s'.threads| ensures ThreadOk(s', s'.threads[u]) {
      assert ThreadOk(s, s.threads[u]);
    }
  }

  // ----- truncate and rename

  /** A drained path has no byte in the queue and no send task. */
  lemma DrainedPath(s: System, paths: seq<Path>, startErrors: nat, p: Path, o: nat)
    requires Valid(s.q, s.acct) && JobsOk(s)
    requires DrainPoll(s.q, paths, startErrors) == Drained && p in paths
    ensures !DirtyAt(s, p, o) && !FlightAt(s, p, o)
    ensures forall piece | piece in s.jobs :: piece.path != p
  {
    DrainedMeans(s.q, s.acct, paths, startErrors);
    AtBytes(Get(s.q.dirty, p), o);
    AtBytes(Get(s.q.inflight, p), o);
    forall piece | piece in s.jobs ensures piece.path != p {
      if piece.path == p {
        JobRange(s, piece);
        AtBytes(Get(s.q.inflight, p), piece.range.lo);
      }
    }
  }

  /** Nothing at `p` is queued or being written. */
  ghost predicate Quiet(s: System, p: Path) {
    && !Writer(s, p)
    && (forall piece | piece in s.jobs :: piece.path != p)
    && (forall o: nat :: !DirtyAt(s, p, o) && !FlightAt(s, p, o))
  }

  lemma TruncateByteOk(s: System, path: Path, size: nat, landed: bool, p: Path, o: nat)
    requires ByteOk(s, p, o) && Quiet(s, path)
    ensures ByteOk(DoTruncate(s, path, size, landed), p, o)
  {
    var s' := DoTruncate(s, path, size, landed);
    assert Unqueued(s', p, o) == Unqueued(s, p, o);
    SetLenEffect(FileAt(s.cache, path), size, o);
    SetLenEffect(FileAt(s.target, path), size, o);
    assert DirtyAt(s', p, o) == DirtyAt(s, p, o) && FlightAt(s', p, o) == FlightAt(s, p, o);
    if p == path {
      assert !DirtyAt(s, p, o) && !FlightAt(s, p, o);
    } else if Loc(p, o) !in s.tainted {
      forall x | x in s'.jobs && x.path == p && Within(o, x.range) ensures JobByteOk(s', x, o) {
        assert JobByteOk(s, x, o);
      }
    }
  }

  lemma TruncateInv(s: System, path: Path, size: nat, landed: bool)
    requires Inv(s) && Quiet(s, path)
    ensures Inv(DoTruncate(s, path, size, landed))
  {
    var s' := DoTruncate(s, path, size, landed);
    forall p: Path, o: nat ensures ByteOk(s', p, o) {
      assert ByteOk(s, p, o);
      TruncateByteOk(s, path, size, landed, p, o);
    }
    forall u | 0 <= u < |s'.threads| ensures ThreadOk(s', s'.threads[u]) {
      assert ThreadOk(s, s.threads[u]);
    }
  }

  lemma MoveLocsMember(ls: set<Loc>, from: Path, to: Path, p: Path, o: nat)
    requires Unrelated(from, to)
    ensures Loc(p, o) in MoveLocs(ls, from, to)
       <==> Loc(Origin(p, from, to), o) in ls && (Under(to, p) || !Under(from, p))
  {
    if Under(to, p) {
      RebaseBack(p, to, from);
      var l := Loc(Origin(p, from, to), o);
      assert Rebase(l.path, from, to) == p;
      assert l in ls ==> Loc(Rebase(l.path, from, to), l.off) in MoveLocs(ls, from, to);
    }
    if Loc(p, o) in MoveLocs(ls, from, to) && (Under(from, p) || Under(to, p)) {
      var l :| l in ls && Under(from, l.path) && Loc(p, o) == Loc(Rebase(l.path, from, to), l.off);
      RebaseBack(l.path, from, to);
      if Under(from, p) {
        UnderBoth(from, to, p);
      }
    }
  }

  lemma QueuedLocsMember(s: System, p: Path, o: nat)
    ensures Loc(p, o) in QueuedLocs(s.q.inflight) <==> FlightAt(s, p, o)
    ensures Loc(p, o) in PendingLocs(s.q) <==> DirtyAt(s, p, o) || FlightAt(s, p, o)
  {
    AtBytes(Get(s.q.dirty, p), o);
    AtBytes(Get(s.q.inflight, p), o);
  }

  /** A rename leaves the bytes of all other files as they were. */
  lemma RenameOtherByte(s: System, from: Path, to: Path, landed: bool, p: Path, o: nat)
    requires ByteOk(s, p, o) && !Under(from, p) && !Under(to, p)
    ensures ByteOk(DoRename(s, from, to, landed), p, o)
  {
    var s' := DoRename(s, from, to, landed);
    assert Unqueued(s', p, o) == Unqueued(s, p, o);
    if Movable(s.cache, from, to) {
      MoveAt(s.cache, from, to, p);
      MovableApart(s.cache, from, to);
      MoveLocsMember(s.written, from, to, p, o);
      MoveLocsMember(s.lost, from, to, p, o);
      MoveLocsMember(s.tainted + AtOrBelow(PendingLocs(s.q), from, to), from, to, p, o);
    }
    if Movable(s.target, from, to) {
      MoveAt(s.target, from, to, p);
    }
    assert DirtyAt(s', p, o) == DirtyAt(s, p, o) && FlightAt(s', p, o) == FlightAt(s, p, o);
    if Loc(p, o) !in s'.tainted {
      forall x | x in s'.jobs && x.path == p && Within(o, x.range) ensures JobByteOk(s', x, o) {
        assert JobByteOk(s, x, o);
      }
    }
  }

  /** What a rename that reached both sides says of a byte at or below the new name. */
  lemma RenameMovedByte(s: System, from: Path, to: Path, p: Path, o: nat)
    requires Inv(s) && Movable(s.cache, from, to) && Movable(s.target, from, to) && Under(to, p)
    requires forall u | 0 <= u < |s.threads| && s.threads[u].Writing? :: !Under(from, s.threads[u].path)
    ensures var s', b := DoRename(s, from, to, true), Origin(p, from, to);
      && (Agree(s', p, o) <==> Agree(s, b, o))
      && (Loc(p, o) in s'.written <==> Loc(b, o) in s.written)
      && (Loc(p, o) in s'.lost <==> Loc(b, o) in s.lost)
      && (Loc(p, o) in s'.tainted
          <==> Loc(b, o) in s.tainted || DirtyAt(s, b, o) || FlightAt(s, b, o) || FlightAt(s, p, o))
      && !Unqueued(s, b, o)
  {
    var b := Origin(p, from, to);
    MovableApart(s.cache, from, to);
    RebaseBack(p, to, from);
    MoveAt(s.cache, from, to, p);
    MoveAt(s.target, from, to, p);
    MoveLocsMember(s.written, from, to, p, o);
    MoveLocsMember(s.lost, from, to, p, o);
    MoveLocsMember(s.tainted + AtOrBelow(PendingLocs(s.q), from, to), from, to, p, o);
    QueuedLocsMember(s, b, o);
    QueuedLocsMember(s, p, o);
  }

  /** A byte in flight at or below either name is tainted, so its send tasks owe nothing. */
  lemma RenameFlight(s: System, from: Path, to: Path, landed: bool, p: Path, o: nat)
    requires Inv(s) && (Under(from, p) || Under(to, p)) && FlightAt(s, p, o)
    requires Movable(s.cache, from, to) || (landed && Movable(s.target, from, to))
    ensures Loc(p, o) in DoRename(s, from, to, landed).tainted
  {
    QueuedLocsMember(s, p, o);
  }

  lemma RenameByteOk(s: System, from: Path, to: Path, landed: bool, p: Path, o: nat)
    requires Inv(s) && (Under(from, p) || Under(to, p))
    requires forall u | 0 <= u < |s.threads| && s.threads[u].Writing? :: !Touches(Rename(from, to), s.threads[u].path)
    requires Movable(s.cache, from, to) || (landed && Movable(s.target, from, to))
    ensures ByteOk(DoRename(s, from, to, landed), p, o)
  {
    var s' := DoRename(s, from, to, landed);
    if Loc(p, o) !in s'.tainted {
      if FlightAt(s, p, o) {
        RenameFlight(s, from, to, landed, p, o);
      }
      NoTask(s, p, o);
      if Movable(s.cache, from, to) && Movable(s.target, from, to) && landed {
        MovableApart(s.cache, from, to);
        if Under(to, p) {
          RenameMovedByte(s, from, to, p, o);
          assert ByteOk(s, Origin(p, from, to), o);
        } else {
          MoveLocsMember(s.written, from, to, p, o);
        }
      }
    }
  }

  lemma RenameByte(s: System, from: Path, to: Path, landed: bool, p: Path, o: nat)
    requires Inv(s) && !Busy(s, Rename(from, to))
    requires Movable(s.cache, from, to) || (landed && Movable(s.target, from, to))
    ensures ByteOk(DoRename(s, from, to, landed), p, o)
  {
    assert ByteOk(s, p, o);
    if Under(from, p) || Under(to, p) {
      RenameByteOk(s, from, to, landed, p, o);
    } else {
      RenameOtherByte(s, from, to, landed, p, o);
    }
  }

  lemma RenameInv(s: System, from: Path, to: Path, landed: bool)
    requires Inv(s) && !Busy(s, Rename(from, to))
    ensures Inv(DoRename(s, from, to, landed))
  {
    if Movable(s.cache, from, to) || (landed && Movable(s.target, from, to)) {
      var s' := DoRename(s, from, to, landed);
      forall p: Path, o: nat ensures ByteOk(s', p, o) {
        RenameByte(s, from, to, landed, p, o);
      }
      forall u | 0 <= u < |s'.threads| ensures ThreadOk(s', s'.threads[u]) {
        RenameThreadOk(s, from, to, landed, u);
      }
    }
  }

  lemma RenameThreadOk(s: System, from: Path, to: Path, landed: bool, u: nat)
    requires ThreadsOk(s) && !Busy(s, Rename(from, to)) && u < |s.threads|
    ensures ThreadOk(DoRename(s, from, to, landed), s.threads[u])
  {
    var th, s' := s.threads[u], DoRename(s, from, to, landed);
    assert ThreadOk(s, th);
    if th.Writing? && Movable(s.cache, from, to) {
      assert !Under(from, th.path) && !Under(to, th.path);
      MovableApart(s.cache, from, to);
      MoveAt(s.cache, from, to, th.path);
      var locs := Locs(th.path, Range(th.off, th.off + |th.data|));
      forall l | l in locs ensures l in s'.written {
        MoveLocsMember(s.written, from, to, l.path, l.off);
      }
    }
  }

  lemma PassDrainInv(s: System, t: nat, done: bool)
    requires Inv(s) && Enabled(s, PassDrain(t, done))
    ensures Inv(Do(s, PassDrain(t, done)))
  {
    var op, mid := s.threads[t].op, s.(threads := s.threads[t := Idle]);
    ThreadStep(s, t, Idle);
    assert !Busy(mid, op);
    match op {
      case Flush(_) =>
      case Truncate(p, size) =>
        TruncateQuiet(mid, p, size, s.threads[t].startErrors);
        TruncateInv(mid, p, size, done);
      case Rename(from, to) =>
        RenameInv(mid, from, to, done);
    }
  }

  lemma TruncateQuiet(s: System, p: Path, size: nat, startErrors: nat)
    requires Inv(s) && !Busy(s, Truncate(p, size)) && DrainPoll(s.q, [p], startErrors) == Drained
    ensures Quiet(s, p)
  {
    forall o: nat ensures !DirtyAt(s, p, o) && !FlightAt(s, p, o) {
      DrainedPath(s, [p], startErrors, p, o);
    }
    DrainedPath(s, [p], startErrors, p, 0);
    assert !Writer(s, p);
  }

  // ----- taint

  /** A byte is tainted only by a failed cache write of it or by a rename, and no longer once it is claimed. */
  lemma TaintedBy(s: System, step: Step, p: Path, o: nat)
    requires Inv(s) && Enabled(s, step)
    ensures Loc(p, o) in Do(s, step).tainted && Loc(p, o) !in s.tainted ==>
      || (step.FailWrite? && Covers(s.threads[step.t], p, o))
      || (step.PassDrain? && Touches(s.threads[step.t].op, p))
    ensures step.TakeBatch? && DirtyAt(s, p, o) && !DirtyAt(Do(s, step), p, o) ==> Loc(p, o) !in Do(s, step).tainted
  {
    match step
    case TakeBatch(batch) => BatchByte(s, batch, p, o);
    case FailWrite(t, _) =>
      var th := s.threads[t];
      assert Loc(p, o) in Locs(th.path, Range(th.off, th.off + |th.data|)) <==> Covers(th, p, o);
    case PassDrain(t, done) =>
      if s.threads[t].op.Rename? && !Touches(s.threads[t].op, p) {
        RenameTaint(s, s.threads[t].op.path, s.threads[t].op.to, done, p, o);
      }
    case _ =>
  }

  lemma RenameTaint(s: System, from: Path, to: Path, done: bool, p: Path, o: nat)
    requires !Under(from, p) && !Under(to, p)
    ensures Loc(p, o) in DoRename(s, from, to, done).tainted <==> Loc(p, o) in s.tainted
  {
    if Movable(s.cache, from, to) {
      MovableApart(s.cache, from, to);
      MoveLocsMember(s.tainted + AtOrBelow(PendingLocs(s.q), from, to), from, to, p, o);
    }
  }

  predicate Begins(step: Step, p: Path, o: nat) {
    step.BeginWrite? && step.path == p && step.off <= o < step.off + |step.data|
  }

  predicate Answers(step: Step, p: Path, o: nat, outcome: Outcome) {
    step.FinishPiece? && step.outcome == outcome && step.piece.path == p && Within(o, step.piece.range)
  }

  ghost predicate CutsOff(s: System, step: Step, p: Path, o: nat)
    requires Enabled(s, step)
  {
    step.PassDrain? && var op := s.threads[step.t].op; op.Truncate? && op.path == p && op.size <= o
  }

  /**
    Renames of its file apart, a byte is written from the beginning of a write of it
    until a truncate cuts it off, and lost from the drop of a piece with it until it
    is sent or written anew.
   */
  lemma WrittenAndLostBy(s: System, step: Step, p: Path, o: nat)
    requires Enabled(s, step)
    requires step.PassDrain? && s.threads[step.t].op.Rename? ==> !Touches(s.threads[step.t].op, p)
    ensures var s', l := Do(s, step), Loc(p, o);
      && (l in s'.written <==> (l in s.written && !CutsOff(s, step, p, o)) || Begins(step, p, o))
      && (l in s'.lost <==>
            (l in s.lost && !Begins(step, p, o) && !Answers(step, p, o, Sent)) || Answers(step, p, o, Drop))
  {
    match step
    case BeginWrite(_, path, off, data) =>
      assert Loc(p, o) in Locs(path, Range(off, off + |data|)) <==> Begins(step, p, o);
    case FinishPiece(piece, _) =>
      assert Loc(p, o) in Locs(piece.path, piece.range) <==> p == piece.path && Within(o, piece.range);
    case PassDrain(t, done) =>
      var op := s.threads[t].op;
      if op.Rename? && Movable(s.cache, op.path, op.to) {
        MovableApart(s.cache, op.path, op.to);
        MoveLocsMember(s.written, op.path, op.to, p, o);
        MoveLocsMember(s.lost, op.path, op.to, p, o);
      }
    case _ =>
  }

  // ----- every step, every run

  lemma StepInv(s: System, step: Step)
    requires Inv(s) && Enabled(s, step)
    ensures Inv(Do(s, step))
  {
    match step
    case Tick(dt) => TickInv(s, dt);
    case BeginWrite(t, path, off, data) => BeginWriteInv(s, t, path, off, data);
    case WriteSome(t, n) => WriteSomeInv(s, t, n);
    case FailWrite(t, landed) => FailWriteInv(s, t, landed);
    case EnqueueWrite(t) => EnqueueInv(s, t);
    case PassBelow(t) => ThreadStep(s, t, Idle);
    case TakeBatch(batch) => BatchInv(s, batch);
    case ReadSome(piece, n) => ReadInv(s, piece, n);
    case ApplySome(piece, n) => ApplyInv(s, piece, n);
    case FinishPiece(piece, outcome) => FinishInv(s, piece, outcome);
    case BeginDrain(t, op) => ThreadStep(s, t, Draining(op, s.q.errors));
    case PassDrain(t, done) => PassDrainInv(s, t, done);
    case FailDrain(t) => ThreadStep(s, t, Idle);
    case GiveUpDrain(t) => ThreadStep(s, t, Idle);
  }

  lemma TickInv(s: System, dt: nat)
    requires Inv(s)
    ensures Inv(s.(now := s.now + dt))
  {
    var s' := s.(now := s.now + dt);
    forall p: Path, o: nat ensures ByteOk(s', p, o) {
      assert ByteOk(s, p, o);
      assert Unqueued(s', p, o) == Unqueued(s, p, o);
    }
  }

  lemma InitInv(s: System)
    requires Init(s)
    ensures Inv(s)
  {
    forall p: Path ensures PathOk(s.q, p) {
    }
    forall p: Path, o: nat ensures ByteOk(s, p, o) {
      assert !Unqueued(s, p, o);
    }
  }

  lemma {:induction false} RunInv(s: System, steps: seq<Step>)
    requires Inv(s) && Runs(s, steps)
    ensures Inv(Exec(s, steps))
    decreases |steps|
  {
    if steps == [] {
    } else {
      StepInv(s, steps[0]);
      RunInv(Do(s, steps[0]), steps[1..]);
    }
  }

  lemma ReachableInv(s: System)
    requires Reachable(s)
    ensures Inv(s)
  {
    var s0, steps :| Init(s0) && Runs(s0, steps) && Exec(s0, steps) == s;
    InitInv(s0);
    RunInv(s0, steps);
  }
}
