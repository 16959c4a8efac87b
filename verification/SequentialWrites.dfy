/**
  Backpressure when no send ever fails.

  Each append next to data that is still dirty leaks the length of that data. One
  thread alone can never leak more than QUEUE_CAP so, and is always let go; two
  threads can, and then both wait for ever.
 */
module SequentialWrites {
  import opened Files
  import opened Ranges
  import opened Queue
  import opened WriteBehind
  import opened WriteBehindInvariant
  import opened Backing
  import opened Backpressure

  // ----- one insertion leaks at most what was dirty before

  /** What sticks out of [lo, hi) is no more than the list covered before. */
  lemma {:induction false} HullCovered(rs: seq<Range>, lo: nat, hi: nat)
    requires Canonical(rs) && lo < hi
    ensures (Hull(rs, lo, hi).hi - Hull(rs, lo, hi).lo) - (hi - lo) <= Total(rs)
  {
    if rs == [] {
    } else if rs[0].hi < lo {
      HullCovered(rs[1..], lo, hi);
    } else if rs[0].lo <= hi {
      HullCovered(rs[1..], Min(lo, rs[0].lo), Max(hi, rs[0].hi));
    }
  }

  lemma EnqueueLeak(q: State, acct: Accounting, p: Path, lo: nat, hi: nat)
    requires Valid(q, acct) && lo < hi
    ensures Leak(Enqueue(q, acct, p, lo, hi)) <= q.dirtyBytes
  {
    var rs := Get(q.dirty, p);
    assert PathOk(q, p);
    AddDirtyCount(q, acct, p, lo, hi);
    HullCovered(rs, lo, hi);
    if p in q.dirty {
      SumPick(q.dirty, p);
    }
  }

  // ----- one thread is always let go

  /** A thread that is not waiting found the backlog below the cap. */
  ghost predicate OneWriter(s: System) {
    |s.threads| == 1 && Leak(s.q) <= QUEUE_CAP && (!s.threads[0].Waiting? ==> s.q.dirtyBytes <= QUEUE_CAP)
  }

  lemma OneWriterEnqueue(s: System, t: nat)
    requires Inv(s) && Enabled(s, EnqueueWrite(t)) && OneWriter(s)
    ensures OneWriter(DoEnqueue(s, t))
  {
    var th := s.threads[t];
    assert ThreadOk(s, th);
    EnqueueLeak(s.q, s.acct, th.path, th.off, th.off + |th.data|);
  }

  lemma OneWriterQueue(s: System, step: Step)
    requires Inv(s) && Enabled(s, step) && OneWriter(s) && NoRetry(step) && (step.TakeBatch? || step.FinishPiece?)
    ensures OneWriter(Do(s, step))
  {
    if step.TakeBatch? {
      BatchValid(s.q, s.acct, step.batch);
      BatchShrinks(s.q, step.batch);
    }
  }

  lemma OneWriterStep(s: System, step: Step)
    requires Inv(s) && Enabled(s, step) && OneWriter(s) && NoRetry(step)
    ensures OneWriter(Do(s, step))
  {
    match step
    case EnqueueWrite(t) => OneWriterEnqueue(s, t);
    case TakeBatch(_) => OneWriterQueue(s, step);
    case FinishPiece(_, _) => OneWriterQueue(s, step);
    case _ => assert Do(s, step).q == s.q && |Do(s, step).threads| == 1;
  }

  lemma {:induction false} BatchShrinks(q: State, batch: seq<Piece>)
    requires LegalBatch(q, batch)
    ensures AfterBatch(q, batch).dirtyBytes <= q.dirtyBytes
  {
    if batch == [] {
    } else {
      BatchShrinks(q, batch[..|batch| - 1]);
    }
  }

  lemma {:induction false} OneWriterRun(s: System, steps: seq<Step>)
    requires Inv(s) && Runs(s, steps) && OneWriter(s) && forall k | 0 <= k < |steps| :: NoRetry(steps[k])
    ensures OneWriter(Exec(s, steps))
    decreases |steps|
  {
    if steps == [] {
    } else {
      StepInv(s, steps[0]);
      OneWriterStep(s, steps[0]);
      assert forall k | 0 < k < |steps| :: steps[k] == steps[1..][k - 1];
      OneWriterRun(Do(s, steps[0]), steps[1..]);
    }
  }

  /** As long as no send has to be repeated, a single writing thread can always be let go, even as written. */
  lemma OneWriterReleased(s0: System, steps: seq<Step>)
    requires Init(s0) && |s0.threads| == 1 && Runs(s0, steps)
    requires forall k | 0 <= k < |steps| :: NoRetry(steps[k])
    ensures var s := Exec(s0, steps);
      && |s.threads| == 1 && Leak(s.q) <= QUEUE_CAP
      && (s.threads[0].Waiting? && Readable(s) ==> CanBeReleased(s, 0))
  {
    var s := Exec(s0, steps);
    InitInv(s0);
    assert s0.q.dirty == map[] && Sum(map[]) == 0;
    OneWriterRun(s0, steps);
    assert Reachable(s);
    if s.threads[0].Waiting? {
      ReleasedIff(s, 0);
    }
  }

  // ----- appends by two threads

  /** 1 + 2 + ... + n. */
  function Triangle(n: nat): nat { if n == 0 then 0 else n + Triangle(n - 1) }

  lemma {:induction false} TriangleClosed(n: nat)
    ensures 2 * Triangle(n) == n * (n + 1)
  {
    if n > 0 {
      TriangleClosed(n - 1);
    }
  }

  lemma {:induction false} TriangleMono(n: nat, m: nat)
    requires n <= m
    ensures Triangle(n) <= Triangle(m)
  {
    if n < m {
      TriangleMono(n, m - 1);
    }
  }

  /** n writes of 4 MiB. */
  function Mib4(n: nat): nat { n * 0x40_0000 }

  /** n adjacent appends to one file were enqueued and nothing was claimed since. */
  ghost predicate Appended(s: System, n: nat) {
    && s.acct == AsWritten && s.jobs == map[]
    && s.q == s.q.(dirty := if n == 0 then map[] else map["f" := [Range(0, Mib4(n))]], inflight := map[], blocked := {},
                   dirtyBytes := Mib4(Triangle(n)), inflightBytes := 0, errors := 0)
  }

  /** Of Triangle(n) * 4 MiB counted, n * 4 MiB are dirty: the leak is Triangle(n - 1) * 4 MiB. */
  lemma AppendedLeak(s: System, n: nat)
    requires Appended(s, n) && n > 0
    ensures Leak(s.q) == Mib4(Triangle(n - 1)) && 2 * Leak(s.q) == n * (n - 1) * 0x40_0000
  {
    SumPick(s.q.dirty, "f");
    assert s.q.dirty - {"f"} == map[];
    assert [Range(0, Mib4(n))][1..] == [];
    TriangleClosed(n - 1);
    assert n * (n - 1) == 2 * Triangle(n - 1);
  }

  lemma AppendCount(n: nat)
    ensures var rs := if n == 0 then [] else [Range(0, Mib4(n))];
      && Merge(rs, Mib4(n), Mib4(n + 1)) == [Range(0, Mib4(n + 1))]
      && MergeReturn(rs, Mib4(n), Mib4(n + 1)) == Mib4(n + 1)
  {
    var rs := if n == 0 then [] else [Range(0, Mib4(n))];
    if n > 0 {
      assert rs[1..] == [];
      assert Merge(rs, Mib4(n), Mib4(n + 1)) == Merge([], 0, Mib4(n + 1));
      assert Hull(rs, Mib4(n), Mib4(n + 1)) == Hull([], 0, Mib4(n + 1));
      assert Covered(rs, Mib4(n), Mib4(n + 1)) == Covered([], Mib4(n), Mib4(n + 1));
    }
  }

  lemma AppendOne(s: System, n: nat, t: nat) returns (steps: seq<Step>)
    requires Appended(s, n) && t < |s.threads| && s.threads[t] == Idle
    ensures Runs(s, steps)
    ensures var s' := Exec(s, steps);
      Appended(s', n + 1) && s'.threads == s.threads[t := Waiting] && s'.target == s.target
  {
    steps := WriteRun(s, t, Mib4(n), Zeros(Mib4(1)));
    AppendCount(n);
    assert Mib4(n) + Mib4(1) == Mib4(n + 1);
    assert Get(s.q.dirty, "f") == if n == 0 then [] else [Range(0, Mib4(n))];
    assert Mib4(Triangle(n)) + Mib4(n + 1) == Mib4(Triangle(n + 1));
  }

  /** One more append by the first thread, let go at once. */
  lemma AppendAndGo(s: System, n: nat) returns (steps: seq<Step>)
    requires Appended(s, n) && s.threads == [Idle, Idle] && n < 6
    ensures Runs(s, steps)
    ensures var s' := Exec(s, steps); Appended(s', n + 1) && s'.threads == [Idle, Idle] && s'.target == s.target
  {
    var one := AppendOne(s, n, 0);
    var s1 := Exec(s, one);
    TriangleMono(n + 1, 6);
    assert Triangle(2) == 3 && Triangle(4) == 10 && Triangle(6) == 21;
    RunsOne(s1, PassBelow(0));
    RunsConcat(s, one, [PassBelow(0)]);
    steps := one + [PassBelow(0)];
    assert Exec(s, steps).threads == [Idle, Idle];
  }

  /** A waiting thread is let go while the counted backlog is within the cap: six appends of 4 MiB. */
  lemma {:induction false} Append(s: System, n: nat) returns (steps: seq<Step>)
    requires Appended(s, 0) && s.threads == [Idle, Idle] && n <= 6
    ensures Runs(s, steps)
    ensures var s' := Exec(s, steps); Appended(s', n) && s'.threads == [Idle, Idle] && s'.target == s.target
  {
    if n == 0 {
      return [];
    }
    var before := Append(s, n - 1);
    var s1 := Exec(s, before);
    var one := AppendAndGo(s1, n - 1);
    RunsConcat(s, before, one);
    steps := before + one;
  }

  lemma EightAppends(s0: System) returns (steps: seq<Step>)
    requires Appended(s0, 0) && s0.threads == [Idle, Idle]
    ensures Runs(s0, steps)
    ensures var s := Exec(s0, steps); Appended(s, 8) && s.threads == [Waiting, Waiting] && s.target == s0.target
  {
    var six := Append(s0, 6);
    var s1 := Exec(s0, six);
    var seven := AppendOne(s1, 6, 0);
    var s2 := Exec(s1, seven);
    var eight := AppendOne(s2, 7, 1);
    RunsConcat(s1, seven, eight);
    RunsConcat(s0, six, seven + eight);
    steps := six + (seven + eight);
  }

  /** Eight appends by two threads, not one failed send: neither thread can ever be let go. */
  lemma TwoWritersStuck() returns (s: System)
    ensures Reachable(s) && s.threads == [Waiting, Waiting] && s.q.errors == 0 && Deliverable(s)
    ensures !CanBeReleased(s, 0) && !CanBeReleased(s, 1)
  {
    var s0 := System(AsWritten, EMPTY, map[], map["f" := []], [Idle, Idle], map[], {}, {}, {}, 0);
    var steps := EightAppends(s0);
    s := Exec(s0, steps);
    assert Reachable(s);
    AppendedLeak(s, 8);
    ReleasedIff(s, 0);
    ReleasedIff(s, 1);
  }
}
