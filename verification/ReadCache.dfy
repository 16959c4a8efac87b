/**
  The read cache of one remote file that nobody changes: read misses that store
  what they fetched, one background prefetch, and completed sync downloads, all
  interleaved at the level of single file accesses.
 */
module ReadCache {
  import opened Files

  const MIN_FETCH: nat := 1024 * 1024
  const PREFETCH_CHUNK: nat := 1024 * 1024

  /** A write_all under way through an open handle; a rename over the path detaches it. */
  datatype Writer = Writer(off: nat, bytes: File, done: nat, attached: bool)

  datatype Reader =
    | Ready
    | Fetched(off: nat, bytes: File)    // answered by the target, frontier not looked at yet
    | Cleared(off: nat, bytes: File)    // may extend the cached prefix, not opened yet
    | Storing(w: Writer)

  datatype Prefetch =
    | Off
    | Next(next: nat)                   // the chunk at `next` is to be stored
    | Chunk(next: nat, w: Writer)

  /** `present` is false while there is no cache file; `local` is then empty. */
  datatype State = State(remote: File, present: bool, local: File, readers: seq<Reader>, prefetch: Prefetch)

  datatype Step =
    | Fetch(t: nat, off: nat, size: nat)
    | LookAtFrontier(t: nat)
    | Open(t: nat)
    | StoreSome(t: nat, n: nat)
    | StoreEnd(t: nat)
    | Kick
    | OpenChunk
    | ChunkSome(n: nat)
    | ChunkEnd
    | StopPrefetch
    | SyncPublish

  // ----- replies

  /** The cache answers: the offset is inside it, or the cache file is empty and the read starts at 0. */
  predicate Hit(s: State, off: nat) {
    s.present && (off < |s.local| || (|s.local| == 0 && off == 0))
  }

  function HitReply(s: State, off: nat, size: nat): File {
    Slice(s.local, off, size)
  }

  function FetchLimit(size: nat): nat { if size < MIN_FETCH then MIN_FETCH else size }

  function MissReply(bytes: File, size: nat): File {
    if size < |bytes| then bytes[..size] else bytes
  }

  // ----- steps

  predicate HasMore(w: Writer, n: nat) { 0 < n <= |w.bytes| && w.done + n <= |w.bytes| }

  /** One file write through the handle; a detached handle writes a file nobody can reach. */
  function Store(s: State, w: Writer, n: nat): State
    requires HasMore(w, n)
  {
    if w.attached then s.(local := WriteAt(s.local, w.off + w.done, w.bytes[w.done..w.done + n])) else s
  }

  function Detach(r: Reader): Reader {
    if r.Storing? then Storing(r.w.(attached := false)) else r
  }

  function DetachPrefetch(p: Prefetch): Prefetch {
    if p.Chunk? then p.(w := p.w.(attached := false)) else p
  }

  predicate Enabled(s: State, step: Step) {
    match step
    case Fetch(t, off, size) => t < |s.readers| && s.readers[t].Ready? && !Hit(s, off)
    case LookAtFrontier(t) => t < |s.readers| && s.readers[t].Fetched?
    case Open(t) => t < |s.readers| && s.readers[t].Cleared?
    case StoreSome(t, n) => t < |s.readers| && s.readers[t].Storing? && HasMore(s.readers[t].w, n)
    case StoreEnd(t) => t < |s.readers| && s.readers[t].Storing?
    case Kick => s.prefetch.Off? && |s.local| < |s.remote|
    case OpenChunk => s.prefetch.Next?
    case ChunkSome(n) => s.prefetch.Chunk? && HasMore(s.prefetch.w, n)
    case ChunkEnd => s.prefetch.Chunk? && s.prefetch.w.done == |s.prefetch.w.bytes|
    case StopPrefetch => !s.prefetch.Off?
    case SyncPublish => true
  }

  function Do(s: State, step: Step): State
    requires Enabled(s, step)
  {
    match step
    case Fetch(t, off, size) =>
      s.(readers := s.readers[t := Fetched(off, Slice(s.remote, off, FetchLimit(size)))])
    case LookAtFrontier(t) =>
      var r := s.readers[t];
      s.(readers := s.readers[t := if r.off <= |s.local| then Cleared(r.off, r.bytes) else Ready])
    case Open(t) =>
      var r := s.readers[t];
      s.(present := true, readers := s.readers[t := Storing(Writer(r.off, r.bytes, 0, true))])
    case StoreSome(t, n) =>
      var w := s.readers[t].w;
      Store(s.(readers := s.readers[t := Storing(w.(done := w.done + n))]), w, n)
    case StoreEnd(t) =>
      s.(readers := s.readers[t := Ready])
    case Kick =>
      s.(prefetch := Next(|s.local|))
    case OpenChunk =>
      var at := s.prefetch.next;
      s.(present := true, prefetch := Chunk(at, Writer(at, Slice(s.remote, at, PREFETCH_CHUNK), 0, true)))
    case ChunkSome(n) =>
      var w := s.prefetch.w;
      Store(s.(prefetch := s.prefetch.(w := w.(done := w.done + n))), w, n)
    case ChunkEnd =>
      var at := s.prefetch.next + PREFETCH_CHUNK;
      s.(prefetch := if at < |s.remote| then Next(at) else Off)
    case StopPrefetch =>
      s.(prefetch := Off)
    case SyncPublish =>
      s.(present := true, local := s.remote,
         readers := seq(|s.readers|, i requires 0 <= i < |s.readers| => Detach(s.readers[i])),
         prefetch := DetachPrefetch(s.prefetch))
  }

  ghost predicate Runs(s: State, steps: seq<Step>)
    decreases |steps|
  {
    steps == [] || (Enabled(s, steps[0]) && Runs(Do(s, steps[0]), steps[1..]))
  }

  ghost function Exec(s: State, steps: seq<Step>): State
    requires Runs(s, steps)
    decreases |steps|
  {
    if steps == [] then s else Exec(Do(s, steps[0]), steps[1..])
  }

  /** No task runs; the cache file is missing, or a prefix an earlier mount left. */
  ghost predicate Init(s: State) {
    && s.local <= s.remote && (!s.present ==> s.local == []) && s.prefetch == Off
    && forall t | 0 <= t < |s.readers| :: s.readers[t] == Ready
  }

  ghost predicate Reachable(s: State) {
    exists s0, steps :: Init(s0) && Runs(s0, steps) && Exec(s0, steps) == s
  }

  // ----- the cache is always a prefix

  /** These bytes are the remote's, at `off`. */
  ghost predicate FromRemote(s: State, off: nat, bytes: File) {
    bytes != [] ==> off + |bytes| <= |s.remote| && bytes == s.remote[off..off + |bytes|]
  }

  /** An attached writer continues at or before the frontier; a detached one was overtaken by a full copy. */
  ghost predicate WriterOk(s: State, w: Writer) {
    && FromRemote(s, w.off, w.bytes) && w.done <= |w.bytes|
    && w.off + w.done <= |s.local| && s.present
    && (!w.attached ==> s.local == s.remote)
  }

  ghost predicate ReaderOk(s: State, r: Reader) {
    match r
    case Ready => true
    case Fetched(off, bytes) => FromRemote(s, off, bytes)
    case Cleared(off, bytes) => FromRemote(s, off, bytes) && off <= |s.local|
    case Storing(w) => WriterOk(s, w)
  }

  ghost predicate PrefetchOk(s: State) {
    match s.prefetch
    case Off => true
    case Next(next) => next <= |s.local| && next < |s.remote|
    case Chunk(next, w) =>
      WriterOk(s, w) && w.off == next && w.bytes == Slice(s.remote, next, PREFETCH_CHUNK) && next < |s.remote|
  }

  ghost predicate Inv(s: State) {
    && s.local <= s.remote && (!s.present ==> s.local == [])
    && (forall t | 0 <= t < |s.readers| :: ReaderOk(s, s.readers[t]))
    && PrefetchOk(s)
  }

  /** A store keeps the cache a prefix and never shortens it. */
  lemma StoreKeeps(s: State, w: Writer, n: nat)
    requires s.local <= s.remote && WriterOk(s, w) && HasMore(w, n)
    ensures var s' := Store(s, w, n);
      && s'.local <= s'.remote && |s.local| <= |s'.local| && w.off + w.done + n <= |s'.local|
      && (s.local == s.remote ==> s'.local == s'.remote)
  {
    var at := w.off + w.done;
    assert w.bytes[w.done..w.done + n] == s.remote[at..at + n];
    WriteAtExtendsPrefix(s.local, at, s.remote, n);
  }

  /** Growing the cache by more of the remote invalidates nobody. */
  lemma GrowKeeps(s: State, s': State, r: Reader)
    requires s'.remote == s.remote && s.local <= s.remote && s'.local <= s.remote && |s.local| <= |s'.local|
    requires ReaderOk(s, r) && (s.present ==> s'.present)
    ensures ReaderOk(s', r)
  {
    assert |s'.local| == |s.remote| ==> s'.local == s.remote[..|s.remote|] == s.remote;
  }

  lemma ReaderStep(s: State, step: Step, t: nat, r: Reader)
    requires Inv(s) && Enabled(s, step) && t < |s.readers|
    requires Do(s, step) == s.(readers := s.readers[t := r], present := Do(s, step).present)
    requires ReaderOk(Do(s, step), r) && (s.present ==> Do(s, step).present)
    ensures Inv(Do(s, step))
  {
    var s' := Do(s, step);
    forall u | 0 <= u < |s'.readers| ensures ReaderOk(s', s'.readers[u]) {
      GrowKeeps(s, s', s.readers[u]);
    }
    if s.prefetch.Chunk? {
      GrowKeeps(s, s', Storing(s.prefetch.w));
    }
  }

  lemma StoreSomeInv(s: State, t: nat, n: nat)
    requires Inv(s) && Enabled(s, StoreSome(t, n))
    ensures Inv(Do(s, StoreSome(t, n)))
  {
    var s' := Do(s, StoreSome(t, n));
    assert ReaderOk(s, s.readers[t]);
    StoreKeeps(s, s.readers[t].w, n);
    forall u | 0 <= u < |s'.readers| ensures ReaderOk(s', s'.readers[u]) {
      GrowKeeps(s, s', s.readers[u]);
    }
    if s.prefetch.Chunk? {
      GrowKeeps(s, s', Storing(s.prefetch.w));
    }
  }

  lemma ChunkSomeInv(s: State, n: nat)
    requires Inv(s) && Enabled(s, ChunkSome(n))
    ensures Inv(Do(s, ChunkSome(n)))
  {
    var s' := Do(s, ChunkSome(n));
    StoreKeeps(s, s.prefetch.w, n);
    forall u | 0 <= u < |s'.readers| ensures ReaderOk(s', s'.readers[u]) {
      GrowKeeps(s, s', s.readers[u]);
    }
    GrowKeeps(s, s', Storing(s.prefetch.w));
  }

  lemma SyncInv(s: State)
    requires Inv(s)
    ensures Inv(Do(s, SyncPublish))
  {
    var s' := Do(s, SyncPublish);
    forall u | 0 <= u < |s'.readers| ensures ReaderOk(s', s'.readers[u]) {
      GrowKeeps(s, s', s.readers[u]);
    }
    if s.prefetch.Chunk? {
      GrowKeeps(s, s', Storing(s.prefetch.w));
    }
  }

  lemma StepInv(s: State, step: Step)
    requires Inv(s) && Enabled(s, step)
    ensures Inv(Do(s, step)) && Do(s, step).remote == s.remote
  {
    match step
    case Fetch(t, off, size) => ReaderStep(s, step, t, Do(s, step).readers[t]);
    case LookAtFrontier(t) =>
      assert ReaderOk(s, s.readers[t]);
      ReaderStep(s, step, t, Do(s, step).readers[t]);
    case Open(t) =>
      assert ReaderOk(s, s.readers[t]);
      ReaderStep(s, step, t, Do(s, step).readers[t]);
    case StoreSome(t, n) => StoreSomeInv(s, t, n);
    case StoreEnd(t) => ReaderStep(s, step, t, Ready);
    case ChunkSome(n) => ChunkSomeInv(s, n);
    case SyncPublish => SyncInv(s);
    case _ => OtherInv(s, step);
  }

  lemma OtherInv(s: State, step: Step)
    requires Inv(s) && Enabled(s, step) && (step.Kick? || step.OpenChunk? || step.ChunkEnd? || step.StopPrefetch?)
    ensures Inv(Do(s, step))
  {
    var s' := Do(s, step);
    forall u | 0 <= u < |s'.readers| ensures ReaderOk(s', s'.readers[u]) {
      GrowKeeps(s, s', s.readers[u]);
    }
  }

  lemma {:induction false} RunInv(s: State, steps: seq<Step>)
    requires Inv(s) && Runs(s, steps)
    ensures Inv(Exec(s, steps)) && Exec(s, steps).remote == s.remote
    decreases |steps|
  {
    if steps == [] {
    } else {
      StepInv(s, steps[0]);
      RunInv(Do(s, steps[0]), steps[1..]);
    }
  }

  /**
    In every run the cache file is a prefix of the remote file, so a hit serves
    remote bytes only. It serves all that a read of the remote would return
    exactly when the cache reaches the end of the request or of the file.
   */
  lemma HitsAreRemote(s: State, off: nat, size: nat)
    requires Reachable(s) && Hit(s, off)
    ensures var whole, reply := Slice(s.remote, off, size), HitReply(s, off, size);
      && s.local <= s.remote
      && reply <= whole
      && (reply == whole <==> off + size <= |s.local| || s.local == s.remote || size == 0)
  {
    var s0, steps :| Init(s0) && Runs(s0, steps) && Exec(s0, steps) == s;
    RunInv(s0, steps);
    if |s.local| == |s.remote| {
      assert s.local == s.remote[..|s.local|] == s.remote;
    }
  }

  /** A miss, whatever the cache does meanwhile, returns exactly what the remote holds there. */
  lemma MissIsRemote(remote: File, off: nat, size: nat)
    ensures MissReply(Slice(remote, off, FetchLimit(size)), size) == Slice(remote, off, size)
  {
  }

  /**
    While a miss has the cache file open but nothing stored, another read at 0
    is answered with no bytes at all, as if the file ended there.
   */
  lemma EmptyHitReachable() returns (s: State)
    ensures Reachable(s) && |s.remote| == 2 && Hit(s, 0) && HitReply(s, 0, 2) == []
  {
    var s0 := State([7, 8], false, [], [Ready, Ready], Off);
    var a, b, c := Fetch(0, 0, 2), LookAtFrontier(0), Open(0);
    var s1 := Do(s0, a);
    var s2 := Do(s1, b);
    s := Do(s2, c);
    RunsCons(s2, c, []);
    RunsCons(s1, b, [c]);
    RunsCons(s0, a, [b] + [c]);
  }

  lemma RunsCons(s: State, step: Step, rest: seq<Step>)
    requires Enabled(s, step) && Runs(Do(s, step), rest)
    ensures Runs(s, [step] + rest) && Exec(s, [step] + rest) == Exec(Do(s, step), rest)
  {
    assert ([step] + rest)[1..] == rest;
  }

  // ----- the cache fills up

  /** A step never shortens the cache; without a stop the prefetch is off only if it was or the cache is complete. */
  lemma StepGrows(s: State, step: Step)
    requires Inv(s) && Enabled(s, step)
    ensures var s' := Do(s, step);
      && s.local <= s'.local && (s.present ==> s'.present) && |s'.readers| == |s.readers|
      && (s.local == s.remote ==> s'.local == s'.remote)
      && (!step.StopPrefetch? && s'.prefetch.Off? && !s.prefetch.Off? ==> s'.local == s'.remote)
  {
    var s' := Do(s, step);
    StepInv(s, step);
    match step
    case StoreSome(t, n) =>
      assert ReaderOk(s, s.readers[t]);
      StoreKeeps(s, s.readers[t].w, n);
    case ChunkSome(n) => StoreKeeps(s, s.prefetch.w, n);
    case ChunkEnd =>
      if s'.prefetch.Off? {
        assert |s.local| == |s.remote| && s.local == s.remote[..|s.local|];
      }
    case _ =>
    assert s.local == s.remote[..|s.local|] && s'.local == s'.remote[..|s'.local|];
  }

  /** Off without having been stopped means complete. */
  predicate RanToEnd(s: State) { s.prefetch.Off? ==> s.local == s.remote }

  lemma {:induction false} RunGrows(s: State, steps: seq<Step>)
    requires Inv(s) && Runs(s, steps)
    ensures var s' := Exec(s, steps);
      && s.local <= s'.local && (s.present ==> s'.present)
      && (RanToEnd(s) && (forall k | 0 <= k < |steps| :: !steps[k].StopPrefetch?) ==> RanToEnd(s'))
    decreases |steps|
  {
    if steps == [] {
    } else {
      StepGrows(s, steps[0]);
      StepInv(s, steps[0]);
      assert forall k | 0 <= k < |steps| - 1 :: steps[1..][k] == steps[k + 1];
      RunGrows(Do(s, steps[0]), steps[1..]);
    }
  }

  /** A prefetch that ends without being stopped leaves the whole file in the cache. */
  lemma PrefetchCompletes(s: State, steps: seq<Step>)
    requires Reachable(s) && Enabled(s, Kick) && Runs(Do(s, Kick), steps)
    requires forall k | 0 <= k < |steps| :: !steps[k].StopPrefetch?
    requires Exec(Do(s, Kick), steps).prefetch.Off?
    ensures Exec(Do(s, Kick), steps).local == s.remote
  {
    ReachableInv(s);
    StepInv(s, Kick);
    RunInv(Do(s, Kick), steps);
    RunGrows(Do(s, Kick), steps);
  }

  /** The prefetch has nothing to do below n. */
  predicate Beyond(s: State, n: nat) { n <= |s.local| && (!s.prefetch.Off? ==> n <= s.prefetch.next) }

  lemma {:induction false} RunBeyond(s: State, steps: seq<Step>, n: nat)
    requires Inv(s) && Runs(s, steps) && Beyond(s, n)
    ensures Beyond(Exec(s, steps), n)
    decreases |steps|
  {
    if steps == [] {
    } else {
      StepGrows(s, steps[0]);
      StepInv(s, steps[0]);
      RunBeyond(Do(s, steps[0]), steps[1..], n);
    }
  }

  /** What was cached when a prefetch started is never prefetched again. */
  lemma PrefetchSkipsCached(s: State, steps: seq<Step>)
    requires Reachable(s) && Enabled(s, Kick) && Runs(Do(s, Kick), steps)
    ensures var p := Exec(Do(s, Kick), steps).prefetch; p.Off? || |s.local| <= p.next
  {
    ReachableInv(s);
    StepInv(s, Kick);
    RunBeyond(Do(s, Kick), steps, |s.local|);
  }

  lemma ReachableInv(s: State)
    requires Reachable(s)
    ensures Inv(s)
  {
    var s0, steps :| Init(s0) && Runs(s0, steps) && Exec(s0, steps) == s;
    RunInv(s0, steps);
  }

  predicate PrefetchStep(step: Step) { step.OpenChunk? || step.ChunkSome? || step.ChunkEnd? }

  /** The chunk under way can be stored in full. */
  lemma EndChunk(s: State) returns (steps: seq<Step>)
    requires Inv(s) && s.prefetch.Chunk?
    ensures Runs(s, steps) && forall k | 0 <= k < |steps| :: PrefetchStep(steps[k])
    ensures var p, at := Exec(s, steps).prefetch, s.prefetch.next + PREFETCH_CHUNK;
      p == if at < |s.remote| then Next(at) else Off
  {
    var w := s.prefetch.w;
    if w.done == |w.bytes| {
      RunsCons(s, ChunkEnd, []);
      return [ChunkEnd];
    }
    var some := ChunkSome(|w.bytes| - w.done);
    var s1 := Do(s, some);
    RunsCons(s1, ChunkEnd, []);
    RunsCons(s, some, [ChunkEnd]);
    steps := [some] + [ChunkEnd];
  }

  /** The chunk under way, or the next one, can be stored in full. */
  lemma StoreChunk(s: State) returns (steps: seq<Step>)
    requires Inv(s) && !s.prefetch.Off?
    ensures Runs(s, steps) && forall k | 0 <= k < |steps| :: PrefetchStep(steps[k])
    ensures var p, at := Exec(s, steps).prefetch, s.prefetch.next + PREFETCH_CHUNK;
      p == if at < |s.remote| then Next(at) else Off
  {
    if s.prefetch.Chunk? {
      steps := EndChunk(s);
    } else {
      StepInv(s, OpenChunk);
      var rest := EndChunk(Do(s, OpenChunk));
      RunsCons(s, OpenChunk, rest);
      steps := [OpenChunk] + rest;
    }
  }

  lemma {:induction false} RunsJoin(s: State, a: seq<Step>, b: seq<Step>)
    requires Runs(s, a) && Runs(Exec(s, a), b)
    ensures Runs(s, a + b) && Exec(s, a + b) == Exec(Exec(s, a), b)
    decreases |a|
  {
    if a == [] {
      assert a + b == b;
    } else {
      RunsJoin(Do(s, a[0]), a[1..], b);
      assert (a + b)[0] == a[0] && (a + b)[1..] == a[1..] + b;
    }
  }

  /** A prefetch under way can always go on, by its own steps alone, until the whole file is cached. */
  lemma {:induction false} PrefetchCanFinish(s: State) returns (steps: seq<Step>)
    requires Inv(s) && !s.prefetch.Off?
    ensures Runs(s, steps) && forall k | 0 <= k < |steps| :: PrefetchStep(steps[k])
    ensures Exec(s, steps).prefetch.Off? && Exec(s, steps).local == s.remote
    decreases |s.remote| - s.prefetch.next
  {
    var chunk := StoreChunk(s);
    var s' := Exec(s, chunk);
    RunInv(s, chunk);
    RunGrows(s, chunk);
    if s'.prefetch.Off? {
      return chunk;
    }
    var rest := PrefetchCanFinish(s');
    RunsJoin(s, chunk, rest);
    steps := chunk + rest;
  }

  /** A miss at or before the frontier can put all that it fetched into the cache. */
  lemma MissRun(s: State, t: nat, off: nat, size: nat) returns (steps: seq<Step>)
    requires Inv(s) && Enabled(s, Fetch(t, off, size)) && off <= |s.local| && off < |s.remote|
    ensures Runs(s, steps)
    ensures var s' := Exec(s, steps);
      && s'.readers == s.readers && s'.remote == s.remote && s'.present && Inv(s')
      && off + |Slice(s.remote, off, FetchLimit(size))| <= |s'.local|
  {
    var bytes := Slice(s.remote, off, FetchLimit(size));
    var a, b, c := Fetch(t, off, size), LookAtFrontier(t), Open(t);
    var s1 := Do(s, a);
    StepInv(s, a);
    var s2 := Do(s1, b);
    StepInv(s1, b);
    var s3 := Do(s2, c);
    StepInv(s2, c);
    assert s3.readers == s.readers[t := Storing(Writer(off, bytes, 0, true))];
    var rest := StoreAll(s3, t);
    RunsCons(s2, c, rest);
    RunsCons(s1, b, [c] + rest);
    RunsCons(s, a, [b] + ([c] + rest));
    steps := [a] + ([b] + ([c] + rest));
    assert s.readers[t := Ready] == s.readers;
  }

  lemma StoreAll(s: State, t: nat) returns (steps: seq<Step>)
    requires Inv(s) && t < |s.readers| && s.readers[t].Storing?
    requires var w := s.readers[t].w; w.attached && w.done == 0 && w.bytes != []
    ensures Runs(s, steps)
    ensures var s', w := Exec(s, steps), s.readers[t].w;
      && s'.readers == s.readers[t := Ready] && s'.remote == s.remote && s'.present && Inv(s')
      && w.off + |w.bytes| <= |s'.local|
  {
    var w := s.readers[t].w;
    var d, e := StoreSome(t, |w.bytes|), StoreEnd(t);
    assert ReaderOk(s, s.readers[t]);
    StoreKeeps(s, w, |w.bytes|);
    var s' := Do(s, d);
    StepInv(s, d);
    StepInv(s', e);
    RunsCons(s', e, []);
    RunsCons(s, d, [e]);
    steps := [d] + [e];
  }

  /**
    After a miss at or before the frontier a run leads to a state from which on,
    whatever happens, reads of the bytes it fetched are hits that serve them.
   */
  lemma MissWarms(s: State, t: nat, off: nat, size: nat) returns (steps: seq<Step>)
    requires Reachable(s) && Enabled(s, Fetch(t, off, size)) && off <= |s.local| && off < |s.remote|
    ensures Runs(s, steps) && Exec(s, steps).readers == s.readers
    ensures forall more | Runs(Exec(s, steps), more) :: Warm(s, Exec(Exec(s, steps), more), off, size)
  {
    ReachableInv(s);
    steps := MissRun(s, t, off, size);
    var s' := Exec(s, steps);
    forall more | Runs(s', more) ensures Warm(s, Exec(s', more), off, size) {
      RunInv(s', more);
      RunGrows(s', more);
      WarmIf(s, Exec(s', more), off, size);
    }
  }

  /** Reads of the next MiB of the file, or of all that was asked for, are hits; the same read is answered in full. */
  ghost predicate Warm(s: State, s': State, off: nat, size: nat) {
    && (forall o: nat | off <= o < |s.remote| && (o < off + 1024 * 1024 || o < off + size) :: Hit(s', o))
    && HitReply(s', off, size) == Slice(s.remote, off, size)
  }

  lemma WarmIf(s: State, s': State, off: nat, size: nat)
    requires s'.remote == s.remote && s'.local <= s'.remote && s'.present
    requires off + |Slice(s.remote, off, FetchLimit(size))| <= |s'.local|
    ensures Warm(s, s', off, size)
  {
    assert s'.local == s.remote[..|s'.local|];
  }

  // ----- mount writes into a file that is not wholly cached

  /** What changes the cache file: a write through the mount, or a miss that stores up to `n` bytes at its end. */
  datatype Event = Wrote(off: nat, bytes: File) | Stored(n: nat)

  function Cache(local: File, remote: File, es: seq<Event>): File {
    if es == [] then local
    else
      var c := Cache(local, remote, es[..|es| - 1]);
      match es[|es| - 1]
      case Wrote(off, bytes) => WriteAt(c, off, bytes)
      case Stored(n) => WriteAt(c, |c|, Slice(remote, |c|, n))
  }

  /** What readers should see: the remote file with the writes over it. */
  function Expected(remote: File, es: seq<Event>): File {
    if es == [] then remote
    else
      var e, last := Expected(remote, es[..|es| - 1]), es[|es| - 1];
      if last.Wrote? then WriteAt(e, last.off, last.bytes) else e
  }

  /** The byte was cached from the start, written, or stored by a miss. */
  predicate Known(local: File, remote: File, es: seq<Event>, o: nat) {
    if es == [] then o < |local|
    else
      var init := es[..|es| - 1];
      var c := Cache(local, remote, init);
      Known(local, remote, init, o) ||
      match es[|es| - 1]
      case Wrote(off, bytes) => off <= o < off + |bytes|
      case Stored(n) => |c| <= o < |c| + |Slice(remote, |c|, n)|
  }

  /** A byte of the cache file `c` is the one readers should see in `e`, or a zero over the remote's byte `r`. */
  ghost predicate RightOrHole(c: File, e: File, o: nat, known: bool, r: Byte) {
    if known then o < |c| && At(c, o) == At(e, o) else At(c, o) == 0 && At(e, o) == r
  }

  lemma WroteKnown(c: File, e: File, off: nat, bytes: File, o: nat, known: bool, r: Byte)
    requires RightOrHole(c, e, o, known, r)
    ensures RightOrHole(WriteAt(c, off, bytes), WriteAt(e, off, bytes), o, known || off <= o < off + |bytes|, r)
  {
    WriteAtEffect(c, off, bytes, o);
    WriteAtEffect(e, off, bytes, o);
  }

  lemma StoredKnown(c: File, e: File, remote: File, n: nat, o: nat, known: bool)
    requires RightOrHole(c, e, o, known, At(remote, o)) && (known ==> o < |c|)
    ensures var more := Slice(remote, |c|, n);
      RightOrHole(WriteAt(c, |c|, more), e, o, known || |c| <= o < |c| + |more|, At(remote, o))
  {
    WriteAtEffect(c, |c|, Slice(remote, |c|, n), o);
  }

  lemma {:induction false} KnownRight(local: File, remote: File, es: seq<Event>, o: nat)
    requires local <= remote
    ensures RightOrHole(Cache(local, remote, es), Expected(remote, es), o, Known(local, remote, es, o), At(remote, o))
  {
    if es == [] {
    } else {
      var init := es[..|es| - 1];
      var c, e := Cache(local, remote, init), Expected(remote, init);
      KnownRight(local, remote, init, o);
      match es[|es| - 1]
      case Wrote(off, bytes) => WroteKnown(c, e, off, bytes, o, Known(local, remote, init, o), At(remote, o));
      case Stored(n) => StoredKnown(c, e, remote, n, o, Known(local, remote, init, o));
    }
  }

  /**
    A write beyond the cached prefix leaves a hole, which hits serve as zeros: a
    cached byte is right exactly if it was cached before the writes, written, or
    stored by a miss since, or if the remote file has a zero there.
   */
  lemma HoleIff(local: File, remote: File, es: seq<Event>, o: nat)
    requires local <= remote && o < |Cache(local, remote, es)|
    ensures Cache(local, remote, es)[o] == At(Expected(remote, es), o)
       <==> Known(local, remote, es, o) || At(remote, o) == 0
  {
    KnownRight(local, remote, es, o);
  }

  /** Nothing cached of six bytes, one written at 5: a read at 0 is served a zero. */
  lemma HoleServed()
    ensures var remote, es := [1, 2, 3, 4, 5, 6], [Wrote(5, [9])];
      |Cache([], remote, es)| == 6 && Cache([], remote, es)[0] == 0 && Expected(remote, es)[0] == 1
  {
    var remote: File, es := [1, 2, 3, 4, 5, 6], [Wrote(5, [9])];
    assert es[..0] == [];
    WriteAtEffect([], 5, [9], 0);
    WriteAtEffect(remote, 5, [9], 0);
  }
}
