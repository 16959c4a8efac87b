/**
  The write-behind upload queue as a value: what each operation makes of the
  state the mutex guards, and the invariant every operation keeps.

  UploadQueue.dfy has the object itself, proved against these functions;
  WriteBehind.dfy runs them together with the files and the FUSE threads.
 */
module Queue {
  import opened Files
  import opened Ranges

  const WRITE_WINDOW: nat := 32 * 1024 * 1024
  const QUEUE_CAP: nat := 96 * 1024 * 1024
  const CHUNK_MAX: nat := 4 * 1024 * 1024

  datatype Outcome = Sent | Retry | Drop

  /** AsWritten adds what `merge_range` returns; Corrected what its comment promises. */
  datatype Accounting = AsWritten | Corrected

  datatype Piece = Piece(path: Path, range: Range)

  type RangeMap = map<Path, seq<Range>>

  datatype State = State(
    dirty: RangeMap, inflight: RangeMap, blocked: set<Path>,
    dirtyBytes: nat, inflightBytes: nat, errors: nat,
    retryAfter: nat, backoffMs: nat)

  function Get(m: RangeMap, p: Path): seq<Range> {
    if p in m then m[p] else []
  }

  const EMPTY: State := State(map[], map[], {}, 0, 0, 0, 0, 0)

  // ----- the operations

  predicate OverlapsAny(rs: seq<Range>, lo: nat, hi: nat) {
    exists i | 0 <= i < |rs| :: lo < rs[i].hi && rs[i].lo < hi
  }

  /** What one insertion adds to `dirty_bytes`. */
  function Growth(acct: Accounting, rs: seq<Range>, lo: nat, hi: nat): int {
    match acct
    case AsWritten => MergeReturn(rs, lo, hi)
    case Corrected => (hi - lo) - Covered(rs, lo, hi)
  }

  function Natural(x: int): nat { if x < 0 then 0 else x }

  function AddDirty(q: State, acct: Accounting, p: Path, lo: nat, hi: nat): State {
    var rs := Get(q.dirty, p);
    q.(dirty := q.dirty[p := Merge(rs, lo, hi)],
       dirtyBytes := q.dirtyBytes + Natural(Growth(acct, rs, lo, hi)))
  }

  function Enqueue(q: State, acct: Accounting, p: Path, lo: nat, hi: nat): State {
    if hi <= lo then q
    else
      var blocked := if OverlapsAny(Get(q.inflight, p), lo, hi) then q.blocked + {p} else q.blocked;
      AddDirty(q.(blocked := blocked), acct, p, lo, hi)
  }

  /** A path whose first dirty range may be claimed now. */
  predicate Claimable(q: State, p: Path) {
    p in q.dirty && q.dirty[p] != [] && p !in q.blocked && q.inflightBytes < WRITE_WINDOW
  }

  function NextPiece(q: State, p: Path): Range
    requires Claimable(q, p)
  {
    var r := q.dirty[p][0];
    Range(r.lo, Min(Min(r.hi, r.lo + CHUNK_MAX), r.lo + (WRITE_WINDOW - q.inflightBytes)))
  }

  function SetOrRemove(m: RangeMap, p: Path, rs: seq<Range>): RangeMap {
    if rs == [] then m - {p} else m[p := rs]
  }

  /** Move the next piece of `p` from dirty to in flight. */
  function Claim(q: State, p: Path): State
    requires Claimable(q, p)
  {
    var rs, piece := q.dirty[p], NextPiece(q, p);
    var size := Natural(piece.hi - piece.lo);
    var rest := if rs[0].hi > piece.hi then [Range(piece.hi, rs[0].hi)] + rs[1..] else rs[1..];
    q.(dirty := SetOrRemove(q.dirty, p, rest),
       dirtyBytes := Natural(q.dirtyBytes - size),
       inflightBytes := q.inflightBytes + size,
       inflight := q.inflight[p := Get(q.inflight, p) + [piece]])
  }

  /** A batch is any number of claims in a row, each taking the next piece of its path. */
  ghost predicate LegalBatch(q: State, batch: seq<Piece>)
    decreases |batch|, 0
  {
    batch == [] ||
    var init, last := batch[..|batch| - 1], batch[|batch| - 1];
    LegalBatch(q, init) &&
    Claimable(AfterBatch(q, init), last.path) &&
    last.range == NextPiece(AfterBatch(q, init), last.path)
  }

  ghost function AfterBatch(q: State, batch: seq<Piece>): State
    requires LegalBatch(q, batch)
    decreases |batch|, 1
  {
    if batch == [] then q
    else Claim(AfterBatch(q, batch[..|batch| - 1]), batch[|batch| - 1].path)
  }

  function Without(rs: seq<Range>, r: Range): seq<Range> {
    if rs == [] then []
    else (if rs[0] == r then [] else [rs[0]]) + Without(rs[1..], r)
  }

  /** Take an answered piece off the books. */
  function Land(q: State, p: Path, r: Range): State {
    q.(inflightBytes := Natural(q.inflightBytes - Natural(r.hi - r.lo)),
       inflight := if p in q.inflight then SetOrRemove(q.inflight, p, Without(q.inflight[p], r)) else q.inflight)
  }

  function Backoff(ms: nat): nat { Min(Max(ms, 100) * 2, 2000) }

  function Settle(q: State, acct: Accounting, p: Path, r: Range, outcome: Outcome, now: nat): State {
    match outcome
    case Sent => q.(retryAfter := now, backoffMs := 0)
    case Retry =>
      var q' := q.(errors := q.errors + 1, backoffMs := Backoff(q.backoffMs),
                   retryAfter := now + Backoff(q.backoffMs));
      if r.hi <= r.lo then q' else AddDirty(q', acct, p, r.lo, r.hi)
    case Drop => q.(errors := q.errors + 1)
  }

  function Unblock(q: State, p: Path): State {
    if p in q.inflight then q else q.(blocked := q.blocked - {p})
  }

  function Finish(q: State, acct: Accounting, p: Path, r: Range, outcome: Outcome, now: nat): State {
    Unblock(Settle(Land(q, p, r), acct, p, r, outcome, now), p)
  }

  predicate Pending(q: State, paths: seq<Path>) {
    exists i | 0 <= i < |paths| :: Get(q.dirty, paths[i]) != [] || Get(q.inflight, paths[i]) != []
  }

  datatype Verdict = Drained | Failed | KeepWaiting

  /** One look of `wait_drain` at the state: pending data is tested before errors. */
  function DrainPoll(q: State, paths: seq<Path>, startErrors: nat): Verdict {
    if !Pending(q, paths) then Drained
    else if q.errors > startErrors then Failed
    else KeepWaiting
  }

  /** The same look with errors tested first, which is what reporting every permanent failure takes. */
  function StrictPoll(q: State, paths: seq<Path>, startErrors: nat): Verdict {
    if q.errors > startErrors then Failed
    else if !Pending(q, paths) then Drained
    else KeepWaiting
  }

  // ----- the invariant

  /** In-flight pieces: never empty, within one RPC, pairwise disjoint. */
  ghost predicate Pieces(rs: seq<Range>) {
    && (forall i | 0 <= i < |rs| :: rs[i].lo < rs[i].hi <= rs[i].lo + CHUNK_MAX)
    && (forall i, j | 0 <= i < j < |rs| :: Disjoint(rs[i], rs[j]))
  }

  ghost predicate Disjoint(a: Range, b: Range) { a.hi <= b.lo || b.hi <= a.lo }

  ghost predicate PathOk(q: State, p: Path) {
    && Canonical(Get(q.dirty, p)) && (p in q.dirty ==> q.dirty[p] != [])
    && Pieces(Get(q.inflight, p)) && (p in q.inflight ==> q.inflight[p] != [])
    && (p in q.blocked ==> p in q.inflight)
    && (p !in q.blocked ==> Bytes(Get(q.dirty, p)) !! Bytes(Get(q.inflight, p)))
  }

  ghost predicate AllPathsOk(q: State) {
    forall p: Path :: PathOk(q, p)
  }

  ghost function Sum(m: RangeMap): nat
    decreases |m|
  {
    if m == map[] then 0
    else
      var p :| p in m;
      Total(m[p]) + Sum(m - {p})
  }

  /** The true backlog: bytes that are dirty. */
  ghost function DirtySize(q: State): nat { Sum(q.dirty) }

  ghost function FlightSize(q: State): nat { Sum(q.inflight) }

  ghost predicate CountersOk(q: State, acct: Accounting) {
    && q.inflightBytes == FlightSize(q) <= WRITE_WINDOW
    && q.dirtyBytes >= DirtySize(q)
    && (acct == Corrected ==> q.dirtyBytes == DirtySize(q))
  }

  ghost predicate Valid(q: State, acct: Accounting) {
    AllPathsOk(q) && CountersOk(q, acct) && q.backoffMs <= 2000
  }

  /** How far `dirty_bytes` runs ahead of the true backlog. */
  ghost function Leak(q: State): int { q.dirtyBytes - DirtySize(q) }

  // ----- sums over maps

  lemma {:induction false} SumPick(m: RangeMap, p: Path)
    requires p in m
    ensures Sum(m) == Total(m[p]) + Sum(m - {p})
    decreases |m|
  {
    var c :| c in m && Sum(m) == Total(m[c]) + Sum(m - {c});
    if c != p {
      SumPick(m - {c}, p);
      SumPick(m - {p}, c);
      assert m - {c} - {p} == m - {p} - {c};
    }
  }

  lemma SumSet(m: RangeMap, p: Path, rs: seq<Range>)
    ensures Sum(m[p := rs]) == Sum(m) - Total(Get(m, p)) + Total(rs)
  {
    var m' := m[p := rs];
    SumPick(m', p);
    assert m' - {p} == m - {p};
    if p in m {
      SumPick(m, p);
    } else {
      assert m - {p} == m;
    }
  }

  lemma SumSetOrRemove(m: RangeMap, p: Path, rs: seq<Range>)
    ensures Sum(SetOrRemove(m, p, rs)) == Sum(m) - Total(Get(m, p)) + Total(rs)
  {
    if rs == [] {
      if p in m {
        SumPick(m, p);
      } else {
        assert m - {p} == m;
      }
    } else {
      SumSet(m, p, rs);
    }
  }

  // ----- each operation keeps the invariant

  lemma AddDirtyPath(q: State, acct: Accounting, p: Path, lo: nat, hi: nat)
    requires lo < hi && Canonical(Get(q.dirty, p))
    ensures var q' := AddDirty(q, acct, p, lo, hi);
      && Canonical(q'.dirty[p]) && q'.dirty[p] != []
      && Bytes(q'.dirty[p]) == Bytes(Get(q.dirty, p)) + Span(Range(lo, hi))
  {
    MergeCanonical(Get(q.dirty, p), lo, hi);
    MergeBytes(Get(q.dirty, p), lo, hi);
  }

  /** Corrected accounting is exact; as written, the hull's excess leaks. */
  lemma AddDirtyCount(q: State, acct: Accounting, p: Path, lo: nat, hi: nat)
    requires lo < hi && Canonical(Get(q.dirty, p))
    ensures var q', rs := AddDirty(q, acct, p, lo, hi), Get(q.dirty, p);
      && DirtySize(q') == DirtySize(q) + (hi - lo) - Covered(rs, lo, hi)
      && DirtySize(q) <= DirtySize(q') <= DirtySize(q) + (hi - lo)
      && Leak(q') == Leak(q) + (if acct == Corrected then 0
                                else (Hull(rs, lo, hi).hi - Hull(rs, lo, hi).lo) - (hi - lo))
      && Leak(q) <= Leak(q')
  {
    var rs := Get(q.dirty, p);
    SumSet(q.dirty, p, Merge(rs, lo, hi));
    MergeTotal(rs, lo, hi);
    CoveredBound(rs, lo, hi);
    HullContains(rs, lo, hi);
  }

  lemma BytesOverlap(rs: seq<Range>, lo: nat, hi: nat)
    requires !OverlapsAny(rs, lo, hi)
    ensures Bytes(rs) !! Span(Range(lo, hi))
  {
    forall o: nat | o in Bytes(rs) ensures o !in Span(Range(lo, hi)) {
      BytesIn(rs, o);
      var i :| 0 <= i < |rs| && rs[i].lo <= o < rs[i].hi;
      assert !(lo < rs[i].hi && rs[i].lo < hi);
    }
  }

  lemma EnqueueValid(q: State, acct: Accounting, p: Path, lo: nat, hi: nat)
    requires Valid(q, acct)
    ensures Valid(Enqueue(q, acct, p, lo, hi), acct)
  {
    if lo < hi {
      var q' := Enqueue(q, acct, p, lo, hi);
      assert PathOk(q, p);
      AddDirtyPath(q, acct, p, lo, hi);
      AddDirtyCount(q, acct, p, lo, hi);
      forall x: Path ensures PathOk(q', x) {
        assert PathOk(q, x);
        if x == p && p !in q'.blocked {
          BytesOverlap(Get(q.inflight, p), lo, hi);
        }
      }
    }
  }

  /** What a claim does to its path: the claimed piece leaves dirty and joins in-flight. */
  lemma ClaimPath(q: State, p: Path)
    requires PathOk(q, p) && Claimable(q, p)
    ensures var q', piece := Claim(q, p), NextPiece(q, p);
      && piece.lo < piece.hi <= piece.lo + CHUNK_MAX
      && Canonical(Get(q'.dirty, p))
      && Bytes(Get(q.dirty, p)) == Bytes(Get(q'.dirty, p)) + Span(piece)
      && Bytes(Get(q'.dirty, p)) !! Span(piece)
      && Total(Get(q'.dirty, p)) == Total(q.dirty[p]) - (piece.hi - piece.lo)
  {
    var rs, piece := q.dirty[p], NextPiece(q, p);
    BytesFrom(rs);
    TailBytes(rs);
    if rs[0].hi > piece.hi {
      var rest := [Range(piece.hi, rs[0].hi)] + rs[1..];
      assert rest[1..] == rs[1..];
      assert Span(rs[0]) == Span(piece) + Span(rest[0]);
    } else {
      assert piece == rs[0];
    }
  }

  lemma {:induction false} BytesAppend(rs: seq<Range>, r: Range)
    ensures Bytes(rs + [r]) == Bytes(rs) + Span(r)
  {
    forall o: nat ensures o in Bytes(rs + [r]) <==> o in Bytes(rs) + Span(r) {
      BytesIn(rs + [r], o);
      BytesIn(rs, o);
      if o in Bytes(rs) {
        var i :| 0 <= i < |rs| && rs[i].lo <= o < rs[i].hi;
        assert (rs + [r])[i] == rs[i];
      }
      if o in Span(r) {
        assert (rs + [r])[|rs|] == r;
      }
    }
  }

  lemma {:induction false} TotalAppend(rs: seq<Range>, r: Range)
    requires r.lo <= r.hi
    ensures Total(rs + [r]) == Total(rs) + (r.hi - r.lo)
  {
    if rs == [] {
      assert ([r])[1..] == [];
    } else {
      TotalAppend(rs[1..], r);
      assert (rs + [r])[1..] == rs[1..] + [r];
    }
  }

  lemma PiecesAppend(rs: seq<Range>, r: Range)
    requires Pieces(rs) && r.lo < r.hi <= r.lo + CHUNK_MAX && Bytes(rs) !! Span(r)
    ensures Pieces(rs + [r])
  {
    forall i | 0 <= i < |rs| ensures Disjoint(rs[i], r) {
      var o := Max(rs[i].lo, r.lo);
      BytesIn(rs, o);
      assert o !in Bytes(rs) || o !in Span(r);
    }
  }

  lemma ClaimValid(q: State, acct: Accounting, p: Path)
    requires Valid(q, acct) && Claimable(q, p)
    ensures Valid(Claim(q, p), acct)
    ensures Leak(Claim(q, p)) == Leak(q)
    ensures DirtySize(Claim(q, p)) + FlightSize(Claim(q, p)) == DirtySize(q) + FlightSize(q)
  {
    var q', piece := Claim(q, p), NextPiece(q, p);
    assert PathOk(q, p);
    ClaimPath(q, p);
    BytesAppend(Get(q.inflight, p), piece);
    PiecesAppend(Get(q.inflight, p), piece);
    forall x: Path ensures PathOk(q', x) {
      assert PathOk(q, x);
    }
    ClaimCount(q, p);
  }

  lemma ClaimCount(q: State, p: Path)
    requires PathOk(q, p) && Claimable(q, p) && q.dirtyBytes >= DirtySize(q)
    requires q.inflightBytes == FlightSize(q)
    ensures var q', piece := Claim(q, p), NextPiece(q, p);
      && DirtySize(q') == DirtySize(q) - (piece.hi - piece.lo)
      && q'.inflightBytes == FlightSize(q') == FlightSize(q) + (piece.hi - piece.lo) <= WRITE_WINDOW
      && q'.dirtyBytes == q.dirtyBytes - (piece.hi - piece.lo)
  {
    var q', piece := Claim(q, p), NextPiece(q, p);
    ClaimPath(q, p);
    SumSetOrRemove(q.dirty, p, Get(q'.dirty, p));
    assert q'.dirty == SetOrRemove(q.dirty, p, Get(q'.dirty, p));
    SumSet(q.inflight, p, Get(q.inflight, p) + [piece]);
    TotalAppend(Get(q.inflight, p), piece);
  }

  lemma BatchSnoc(q: State, batch: seq<Piece>, p: Path)
    requires LegalBatch(q, batch) && Claimable(AfterBatch(q, batch), p)
    ensures var next := batch + [Piece(p, NextPiece(AfterBatch(q, batch), p))];
      LegalBatch(q, next) && AfterBatch(q, next) == Claim(AfterBatch(q, batch), p)
  {
    var next := batch + [Piece(p, NextPiece(AfterBatch(q, batch), p))];
    assert next[..|next| - 1] == batch;
  }

  lemma {:induction false} BatchValid(q: State, acct: Accounting, batch: seq<Piece>)
    requires Valid(q, acct) && LegalBatch(q, batch)
    ensures Valid(AfterBatch(q, batch), acct)
    ensures Leak(AfterBatch(q, batch)) == Leak(q)
    ensures DirtySize(AfterBatch(q, batch)) + FlightSize(AfterBatch(q, batch)) == DirtySize(q) + FlightSize(q)
  {
    if batch == [] {
    } else {
      BatchValid(q, acct, batch[..|batch| - 1]);
      ClaimValid(AfterBatch(q, batch[..|batch| - 1]), acct, batch[|batch| - 1].path);
    }
  }

  // ----- finish

  lemma PiecesHead(rs: seq<Range>)
    requires Pieces(rs) && rs != []
    ensures Pieces(rs[1..])
    ensures forall x | x in rs[1..] :: Disjoint(rs[0], x) && x != rs[0]
    ensures Span(rs[0]) !! Bytes(rs[1..])
  {
    var rest := rs[1..];
    assert forall i | 0 <= i < |rest| :: rest[i] == rs[i + 1];
    forall o: nat | o in Bytes(rest) ensures o !in Span(rs[0]) {
      BytesIn(rest, o);
      var i :| 0 <= i < |rest| && rest[i].lo <= o < rest[i].hi;
      assert Disjoint(rs[0], rs[i + 1]);
    }
  }

  lemma {:induction false} WithoutAbsent(rs: seq<Range>, r: Range)
    requires r !in rs
    ensures Without(rs, r) == rs
  {
    if rs == [] {
    } else {
      WithoutAbsent(rs[1..], r);
    }
  }

  lemma {:induction false} WithoutMembers(rs: seq<Range>, r: Range)
    ensures forall x :: x in Without(rs, r) <==> x in rs && x != r
  {
    if rs == [] {
    } else {
      WithoutMembers(rs[1..], r);
    }
  }

  lemma PiecesCons(r: Range, rs: seq<Range>)
    requires Pieces(rs) && r.lo < r.hi <= r.lo + CHUNK_MAX
    requires forall x | x in rs :: Disjoint(r, x)
    ensures Pieces([r] + rs)
  {
  }

  lemma {:induction false} WithoutBytes(rs: seq<Range>, r: Range)
    requires Pieces(rs) && r in rs
    ensures Bytes(Without(rs, r)) == Bytes(rs) - Span(r)
    ensures Total(Without(rs, r)) == Total(rs) - (r.hi - r.lo)
  {
    PiecesHead(rs);
    if rs[0] == r {
      WithoutAbsent(rs[1..], r);
      assert Without(rs, r) == rs[1..];
    } else {
      WithoutBytes(rs[1..], r);
      assert Without(rs, r)[1..] == Without(rs[1..], r);
      assert Disjoint(rs[0], r);
      assert Span(rs[0]) !! Span(r);
    }
  }

  /** `retain` removes exactly the one piece that was answered. */
  lemma {:induction false} WithoutPieces(rs: seq<Range>, r: Range)
    requires Pieces(rs) && r in rs
    ensures Pieces(Without(rs, r)) && |Without(rs, r)| == |rs| - 1
  {
    PiecesHead(rs);
    if rs[0] == r {
      WithoutAbsent(rs[1..], r);
      assert Without(rs, r) == rs[1..];
    } else {
      WithoutPieces(rs[1..], r);
      WithoutMembers(rs[1..], r);
      PiecesCons(rs[0], Without(rs[1..], r));
    }
  }

  ghost predicate Flying(q: State, p: Path, r: Range) {
    r in Get(q.inflight, p)
  }

  lemma FlightMember(rs: seq<Range>, r: Range)
    requires r in rs && Pieces(rs)
    ensures r.lo < r.hi <= r.lo + CHUNK_MAX && Span(r) <= Bytes(rs)
  {
    var i :| 0 <= i < |rs| && rs[i] == r;
    forall o: nat | o in Span(r) ensures o in Bytes(rs) {
      BytesIn(rs, o);
    }
  }

  /** Only `Land` touches the in-flight map, only `Settle` the dirty map. */
  lemma FinishFlight(q: State, acct: Accounting, p: Path, r: Range, outcome: Outcome, now: nat)
    requires Flying(q, p, r)
    ensures Get(Finish(q, acct, p, r, outcome, now).inflight, p) == Without(q.inflight[p], r)
  {
  }

  lemma FinishDirty(q: State, acct: Accounting, p: Path, r: Range, outcome: Outcome, now: nat)
    requires r.lo < r.hi
    ensures Finish(q, acct, p, r, outcome, now).dirty
         == if outcome == Retry then AddDirty(q, acct, p, r.lo, r.hi).dirty else q.dirty
  {
  }

  /** What `finish` does to its path, per outcome. */
  lemma FinishPath(q: State, acct: Accounting, p: Path, r: Range, outcome: Outcome, now: nat)
    requires PathOk(q, p) && Flying(q, p, r)
    ensures var q' := Finish(q, acct, p, r, outcome, now);
      && Get(q'.inflight, p) == Without(q.inflight[p], r)
      && Bytes(Get(q'.inflight, p)) == Bytes(q.inflight[p]) - Span(r)
      && Bytes(Get(q'.dirty, p)) == Bytes(Get(q.dirty, p)) + (if outcome == Retry then Span(r) else {})
      && Canonical(Get(q'.dirty, p)) && (p in q'.dirty ==> q'.dirty[p] != [])
  {
    WithoutBytes(q.inflight[p], r);
    FlightMember(q.inflight[p], r);
    FinishFlight(q, acct, p, r, outcome, now);
    FinishDirty(q, acct, p, r, outcome, now);
    AddDirtyPath(q, acct, p, r.lo, r.hi);
  }

  lemma FinishPathOk(q: State, acct: Accounting, p: Path, r: Range, outcome: Outcome, now: nat)
    requires PathOk(q, p) && Flying(q, p, r)
    ensures PathOk(Finish(q, acct, p, r, outcome, now), p)
  {
    var q' := Finish(q, acct, p, r, outcome, now);
    FinishPath(q, acct, p, r, outcome, now);
    WithoutPieces(q.inflight[p], r);
    if p !in q'.blocked && p in q'.inflight {
      assert p !in q.blocked;
      assert Bytes(Get(q.dirty, p)) !! Bytes(q.inflight[p]);
    }
  }

  lemma FinishCount(q: State, acct: Accounting, p: Path, r: Range, outcome: Outcome, now: nat)
    requires PathOk(q, p) && Flying(q, p, r) && CountersOk(q, acct)
    ensures var q' := Finish(q, acct, p, r, outcome, now);
      && CountersOk(q', acct)
      && Leak(q) <= Leak(q')
      && FlightSize(q') == FlightSize(q) - (r.hi - r.lo)
      && DirtySize(q) <= DirtySize(q') <= DirtySize(q) + (if outcome == Retry then r.hi - r.lo else 0)
  {
    var mid := Land(q, p, r);
    WithoutBytes(q.inflight[p], r);
    FlightMember(q.inflight[p], r);
    SumSetOrRemove(q.inflight, p, Without(q.inflight[p], r));
    if outcome == Retry {
      AddDirtyCount(mid, acct, p, r.lo, r.hi);
    }
  }

  lemma FinishOther(q: State, acct: Accounting, p: Path, r: Range, outcome: Outcome, now: nat, x: Path)
    requires x != p
    ensures var q' := Finish(q, acct, p, r, outcome, now);
      && Get(q'.dirty, x) == Get(q.dirty, x) && (x in q'.dirty <==> x in q.dirty)
      && Get(q'.inflight, x) == Get(q.inflight, x) && (x in q'.inflight <==> x in q.inflight)
      && (x in q'.blocked <==> x in q.blocked)
  {
  }

  lemma FinishValid(q: State, acct: Accounting, p: Path, r: Range, outcome: Outcome, now: nat)
    requires Valid(q, acct) && Flying(q, p, r)
    ensures Valid(Finish(q, acct, p, r, outcome, now), acct)
  {
    assert PathOk(q, p);
    FinishCount(q, acct, p, r, outcome, now);
    forall x: Path ensures PathOk(Finish(q, acct, p, r, outcome, now), x) {
      assert PathOk(q, x);
      if x == p {
        FinishPathOk(q, acct, p, r, outcome, now);
      } else {
        FinishOther(q, acct, p, r, outcome, now, x);
      }
    }
  }

  // ----- batches: nothing lost, nothing stuck, nothing too big

  /** The pieces of one path in a batch, in claim order. */
  function PiecesFor(batch: seq<Piece>, p: Path): seq<Range>
    decreases |batch|
  {
    if batch == [] then []
    else
      var last := batch[|batch| - 1];
      PiecesFor(batch[..|batch| - 1], p) + (if last.path == p then [last.range] else [])
  }

  lemma {:induction false} BytesConcat(a: seq<Range>, b: seq<Range>)
    ensures Bytes(a + b) == Bytes(a) + Bytes(b)
  {
    if a == [] {
      assert a + b == b;
    } else {
      BytesConcat(a[1..], b);
      assert (a + b)[1..] == a[1..] + b;
    }
  }

  /** Between two states, `claimed` left path p's dirty bytes disjointly and joined its in-flight ranges in order. */
  ghost predicate Conserved(q: State, q': State, p: Path, claimed: seq<Range>) {
    && Bytes(Get(q.dirty, p)) == Bytes(Get(q'.dirty, p)) + Bytes(claimed)
    && Bytes(Get(q'.dirty, p)) !! Bytes(claimed)
    && Get(q'.inflight, p) == Get(q.inflight, p) + claimed
  }

  lemma ConservedJoins(q: State, mid: State, q': State, p: Path, claimed: seq<Range>, more: seq<Range>)
    requires Conserved(q, mid, p, claimed) && Conserved(mid, q', p, more)
    ensures Conserved(q, q', p, claimed + more)
  {
    BytesConcat(claimed, more);
    SplitJoins(Bytes(Get(q.dirty, p)), Bytes(Get(mid.dirty, p)), Bytes(Get(q'.dirty, p)), Bytes(claimed), Bytes(more));
    assert (Get(q.inflight, p) + claimed) + more == Get(q.inflight, p) + (claimed + more);
  }

  lemma SplitJoins(was: set<nat>, mid: set<nat>, left: set<nat>, a: set<nat>, b: set<nat>)
    requires was == mid + a && mid !! a && mid == left + b && left !! b
    ensures was == left + (a + b) && left !! (a + b)
  {
  }

  lemma ClaimConserves(q: State, acct: Accounting, p: Path, x: Path)
    requires Valid(q, acct) && Claimable(q, p)
    ensures Conserved(q, Claim(q, p), x, if x == p then [NextPiece(q, p)] else [])
  {
    assert PathOk(q, p);
    ClaimPath(q, p);
    BytesAppend([], NextPiece(q, p));
    assert [] + [NextPiece(q, p)] == [NextPiece(q, p)];
  }

  /** Per path, old dirty is the disjoint union of new dirty and the claimed pieces. */
  lemma {:induction false} BatchConserves(q: State, acct: Accounting, batch: seq<Piece>, p: Path)
    requires Valid(q, acct) && LegalBatch(q, batch)
    ensures Conserved(q, AfterBatch(q, batch), p, PiecesFor(batch, p))
  {
    if batch == [] {
    } else {
      var init, last := batch[..|batch| - 1], batch[|batch| - 1];
      var mid, one := AfterBatch(q, init), if last.path == p then [last.range] else [];
      BatchConserves(q, acct, init, p);
      BatchValid(q, acct, init);
      ClaimConserves(mid, acct, last.path, p);
      ConservedJoins(q, mid, AfterBatch(q, batch), p, PiecesFor(init, p), one);
    }
  }

  lemma {:induction false} BatchKeepsRest(q: State, batch: seq<Piece>)
    requires LegalBatch(q, batch)
    ensures var q' := AfterBatch(q, batch);
      q'.blocked == q.blocked && q'.errors == q.errors && q'.retryAfter == q.retryAfter && q'.backoffMs == q.backoffMs
  {
    if batch == [] {
    } else {
      BatchKeepsRest(q, batch[..|batch| - 1]);
    }
  }

  /** With dirty data and nothing in flight, some path can be claimed: the flusher cannot stall. */
  lemma NoStall(q: State, acct: Accounting)
    requires Valid(q, acct) && q.dirty != map[] && q.inflight == map[]
    ensures exists p :: Claimable(q, p)
  {
    var p :| p in q.dirty;
    assert PathOk(q, p);
    assert Claimable(q, p);
  }

  /** Every piece in flight passes both of the target's size limits. */
  lemma PieceFits(q: State, acct: Accounting, p: Path, r: Range)
    requires Valid(q, acct) && Flying(q, p, r)
    ensures 0 < r.hi - r.lo <= MAX_DIRECT_FILE_BYTES
    ensures Base64Length(r.hi - r.lo) <= MAX_DIRECT_FILE_BASE64_BYTES
  {
    assert PathOk(q, p);
    FlightMember(q.inflight[p], r);
  }

  /** A claim takes the lowest dirty bytes, and as many as the range, one RPC and the window allow. */
  lemma ClaimIsGreedy(q: State, acct: Accounting, p: Path)
    requires Valid(q, acct) && Claimable(q, p)
    ensures var q', piece := Claim(q, p), NextPiece(q, p);
      && (forall o | o in Bytes(q.dirty[p]) :: piece.lo <= o)
      && (piece.hi !in Bytes(q.dirty[p]) || piece.hi == piece.lo + CHUNK_MAX || q'.inflightBytes == WRITE_WINDOW)
  {
    assert PathOk(q, p);
    ClaimPath(q, p);
    BytesFrom(q.dirty[p]);
  }

  /** An enqueue pauses its path exactly when the new bytes meet bytes in flight. */
  lemma EnqueueBlocksIff(q: State, acct: Accounting, p: Path, lo: nat, hi: nat)
    requires Valid(q, acct) && lo < hi
    ensures var q' := Enqueue(q, acct, p, lo, hi);
      && (p in q'.blocked <==> p in q.blocked || exists o :: o in Bytes(Get(q.inflight, p)) && o in Span(Range(lo, hi)))
      && (forall x | x != p :: x in q'.blocked <==> x in q.blocked)
  {
    var rs := Get(q.inflight, p);
    assert PathOk(q, p);
    if OverlapsAny(rs, lo, hi) {
      var i :| 0 <= i < |rs| && lo < rs[i].hi && rs[i].lo < hi;
      var o := Max(lo, rs[i].lo);
      BytesIn(rs, o);
      assert rs[i].lo <= o < rs[i].hi;
      assert o in Bytes(rs) && o in Span(Range(lo, hi));
    } else {
      BytesOverlap(rs, lo, hi);
    }
  }

  // ----- backoff

  /** The state's backoff after k failed sends in a row, starting from none. */
  function BackoffAfter(k: nat): nat { if k == 0 then 0 else Backoff(BackoffAfter(k - 1)) }

  function Pow2(k: nat): nat { if k == 0 then 1 else 2 * Pow2(k - 1) }

  /** 200, 400, 800, 1600, then 2000 ms for every further failure. */
  lemma {:induction false} BackoffSchedule(k: nat)
    requires k > 0
    ensures BackoffAfter(k) == Min(100 * Pow2(k), 2000)
  {
    if k > 1 {
      BackoffSchedule(k - 1);
    }
  }

  /** A failure opens the pause of the schedule; a success ends it and restarts the schedule. */
  lemma BackoffSteps(q: State, acct: Accounting, p: Path, r: Range, now: nat, k: nat)
    requires Valid(q, acct) && Flying(q, p, r) && q.backoffMs == BackoffAfter(k)
    ensures var f := Finish(q, acct, p, r, Retry, now);
      f.backoffMs == BackoffAfter(k + 1) && f.retryAfter == now + Min(100 * Pow2(k + 1), 2000)
    ensures var d := Finish(q, acct, p, r, Sent, now); d.backoffMs == BackoffAfter(0) && d.retryAfter == now
    ensures var d := Finish(q, acct, p, r, Drop, now); d.backoffMs == q.backoffMs && d.retryAfter == q.retryAfter
  {
    BackoffSchedule(k + 1);
  }

  // ----- drains

  lemma {:induction false} BytesEmpty(rs: seq<Range>)
    requires Canonical(rs) || Pieces(rs)
    ensures Bytes(rs) == {} <==> rs == []
  {
    if rs == [] {
    } else {
      assert rs[0].lo in Span(rs[0]);
    }
  }

  /** A drain returns Ok exactly when no listed path has a dirty or in-flight byte. */
  lemma DrainedMeans(q: State, acct: Accounting, paths: seq<Path>, startErrors: nat)
    requires Valid(q, acct)
    ensures DrainPoll(q, paths, startErrors) == Drained
       <==> forall p | p in paths :: Bytes(Get(q.dirty, p)) == {} && Bytes(Get(q.inflight, p)) == {}
  {
    forall p ensures (Bytes(Get(q.dirty, p)) == {} <==> Get(q.dirty, p) == [])
                  && (Bytes(Get(q.inflight, p)) == {} <==> Get(q.inflight, p) == []) {
      assert PathOk(q, p);
      BytesEmpty(Get(q.dirty, p));
      BytesEmpty(Get(q.inflight, p));
    }
    if forall p | p in paths :: Get(q.dirty, p) == [] && Get(q.inflight, p) == [] {
      assert !Pending(q, paths);
    } else {
      var p :| p in paths && (Get(q.dirty, p) != [] || Get(q.inflight, p) != []);
      var i :| 0 <= i < |paths| && paths[i] == p;
      assert Pending(q, paths);
    }
  }

  /**
    A poll reports a failure exactly if one was counted since the drain began and
    some listed path still has a dirty or in-flight byte; earlier failures never
    count. With errors tested first the bytes do not matter.
   */
  lemma FailureReportedIff(q: State, acct: Accounting, paths: seq<Path>, startErrors: nat)
    requires Valid(q, acct)
    ensures var held := exists p :: p in paths && Bytes(Get(q.dirty, p)) + Bytes(Get(q.inflight, p)) != {};
      && (DrainPoll(q, paths, startErrors) == Failed <==> held && startErrors < q.errors)
      && (DrainPoll(q, paths, startErrors) == KeepWaiting <==> held && q.errors <= startErrors)
      && (StrictPoll(q, paths, startErrors) == Failed <==> startErrors < q.errors)
      && (StrictPoll(q, paths, startErrors) == KeepWaiting <==> held && q.errors <= startErrors)
  {
    DrainedMeans(q, acct, paths, startErrors);
  }

  ghost predicate OtherWork(q: State, paths: seq<Path>, p: Path, r: Range) {
    exists x | x in paths :: Get(q.dirty, x) != [] || exists y :: Flying(q, x, y) && (x, y) != (p, r)
  }

  /**
    A waiting drain that looks right after a permanent failure, before any other
    piece is finished, reports it exactly when its paths have other work besides
    the failed piece; otherwise it returns Ok.
   */
  lemma DropSurfacedIff(q: State, acct: Accounting, p: Path, r: Range, now: nat, paths: seq<Path>, startErrors: nat)
    requires Valid(q, acct) && Flying(q, p, r) && startErrors <= q.errors
    ensures DrainPoll(Finish(q, acct, p, r, Drop, now), paths, startErrors)
         == if OtherWork(q, paths, p, r) then Failed else Drained
  {
    var q' := Finish(q, acct, p, r, Drop, now);
    if OtherWork(q, paths, p, r) {
      var x :| x in paths && (Get(q.dirty, x) != [] || exists y :: Flying(q, x, y) && (x, y) != (p, r));
      DropKeeps(q, acct, p, r, now, x);
      var i :| 0 <= i < |paths| && paths[i] == x;
      assert Pending(q', paths);
    } else if Pending(q', paths) {
      var i :| 0 <= i < |paths| && (Get(q'.dirty, paths[i]) != [] || Get(q'.inflight, paths[i]) != []);
      DropKeeps(q, acct, p, r, now, paths[i]);
    }
  }

  lemma DropKeeps(q: State, acct: Accounting, p: Path, r: Range, now: nat, x: Path)
    requires Valid(q, acct) && Flying(q, p, r)
    ensures var q' := Finish(q, acct, p, r, Drop, now);
      && Get(q'.dirty, x) == Get(q.dirty, x)
      && (Get(q'.inflight, x) != [] <==> exists y :: Flying(q, x, y) && (x, y) != (p, r))
  {
    var q' := Finish(q, acct, p, r, Drop, now);
    if x == p {
      FinishFlight(q, acct, p, r, Drop, now);
      WithoutMembers(q.inflight[p], r);
    } else {
      FinishOther(q, acct, p, r, Drop, now, x);
    }
    var rs := Get(q'.inflight, x);
    if rs != [] {
      assert rs[0] in rs;
      assert Flying(q, x, rs[0]) && (x, rs[0]) != (p, r);
    }
    if y :| Flying(q, x, y) && (x, y) != (p, r) {
      assert y in rs;
    }
  }

  /** One byte is queued, sent and dropped; the drain that waits for it returns Ok. */
  lemma DropHidden()
    ensures var q0 := Enqueue(EMPTY, AsWritten, "f", 0, 1);
      && Claimable(q0, "f") && NextPiece(q0, "f") == Range(0, 1)
      && DrainPoll(Claim(q0, "f"), ["f"], 0) == KeepWaiting
      && var q2 := Finish(Claim(q0, "f"), AsWritten, "f", Range(0, 1), Drop, 0);
         q2.errors == 1 && DrainPoll(q2, ["f"], 0) == Drained
  {
    var q0 := Enqueue(EMPTY, AsWritten, "f", 0, 1);
    assert q0.dirty["f"] == [Range(0, 1)];
    var q1 := Claim(q0, "f");
    assert q1.inflight["f"] == [Range(0, 1)];
    assert ["f"][0] == "f";
    assert Without([Range(0, 1)], Range(0, 1)) == [];
  }

  /** Of two pieces in flight one is dropped; the other is sent before the drain looks again, and it returns Ok. */
  lemma DropHiddenBySend(q: State)
    requires q == EMPTY.(inflight := map["f" := [Range(0, 1), Range(5, 6)]], inflightBytes := 2)
    ensures OtherWork(q, ["f"], "f", Range(0, 1))
    ensures var q' := Finish(Finish(q, AsWritten, "f", Range(0, 1), Drop, 0), AsWritten, "f", Range(5, 6), Sent, 0);
      q'.errors == 1 && DrainPoll(q', ["f"], 0) == Drained
  {
    var a, b := Range(0, 1), Range(5, 6);
    assert q.inflight["f"][1] == b && Flying(q, "f", b) && ("f", b) != ("f", a) && "f" in ["f"];
    assert [b][1..] == [] && [a, b][1..] == [b];
    assert Without([b], a) == [b] && Without([b], b) == [];
    assert Without([a, b], a) == [b];
  }
}
