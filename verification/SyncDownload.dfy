/**
  Filling the cache with one whole file: up to eight chunk fetches run at once,
  land in a temporary file in any order and in parts, and only a temporary file
  whose every task succeeded replaces the cache file.

  A task succeeds once it has written whatever non-empty reply it got. So the
  result is the remote file if replies are complete; after short ones it has
  holes, and Assembled says exactly where.
 */
module SyncDownload {
  import opened Files
  import opened Options
  import opened Ranges

  const SYNC_INFLIGHT: nat := 8
  const SYNC_CHUNK: nat := 0x10_0000

  /** Where chunk k starts. */
  function Start(k: nat): nat { k * 0x10_0000 }

  /** The chunk that starts at `start`. */
  function ChunkAt(start: nat, total: nat): Range { Range(start, Min(start + SYNC_CHUNK, total)) }

  // ----- replies

  /** What READ_FILE answers per chunk start; a start without an entry is a failed request. */
  type Replies = map<nat, File>

  /** Each reply is a piece of one unchanging file, empty only past its end. */
  ghost predicate FromRemote(remote: File, total: nat, replies: Replies) {
    forall start | start in replies && start < total ::
      && |replies[start]| <= ChunkAt(start, total).hi - start
      && replies[start] == Slice(remote, start, |replies[start]|)
      && (replies[start] == [] <==> |remote| <= start)
  }

  /** No read stops short of its limit before the end of the file. */
  ghost predicate FullReads(remote: File, total: nat, replies: Replies) {
    forall start | start in replies && start < total ::
      replies[start] == Slice(remote, start, ChunkAt(start, total).hi - start)
  }

  function Reply(replies: Replies, start: nat): File { if start in replies then replies[start] else [] }

  lemma ReplyByte(remote: File, total: nat, replies: Replies, start: nat, i: nat)
    requires FromRemote(remote, total, replies) && start < total && i < |Reply(replies, start)|
    ensures start + i < |remote| && start + i < ChunkAt(start, total).hi <= total
    ensures Reply(replies, start)[i] == remote[start + i]
  {
  }

  // ----- files with holes

  /** How many bytes of the reply for each start are somewhere. */
  type Extents = map<nat, nat>

  ghost predicate InExtent(have: Extents, start: nat, o: nat) { start in have && start <= o < start + have[start] }

  ghost predicate Has(have: Extents, o: nat) { exists start :: InExtent(have, start, o) }

  ghost predicate HoldsAt(remote: File, f: File, have: Extents, o: nat) {
    if Has(have, o) then o < |f| && At(f, o) == At(remote, o) else At(f, o) == 0
  }

  /** `f` has the remote's bytes in `have`, zeros between them, and ends with the last of them. */
  ghost predicate Holds(remote: File, f: File, have: Extents) {
    && (forall o: nat :: HoldsAt(remote, f, have, o))
    && (f != [] ==> Has(have, |f| - 1))
  }

  lemma HasMore(have: Extents, start: nat, n: nat, o: nat)
    requires start in have
    ensures var at := start + have[start];
      Has(have[start := have[start] + n], o) <==> Has(have, o) || at <= o < at + n
  {
    var more := have[start := have[start] + n];
    if x :| InExtent(have, x, o) {
      assert InExtent(more, x, o);
    }
    if x :| InExtent(more, x, o) {
      assert x != start ==> InExtent(have, x, o);
      assert x == start ==> InExtent(have, x, o) || start + have[start] <= o;
    }
    if start + have[start] <= o < start + have[start] + n {
      assert InExtent(more, start, o);
    }
  }

  /** A part written right behind what is there from `start` on. */
  lemma HoldsMore(remote: File, f: File, have: Extents, start: nat, part: File)
    requires Holds(remote, f, have) && start in have && Carries(remote, start + have[start], part)
    ensures Holds(remote, WriteAt(f, start + have[start], part), have[start := have[start] + |part|])
  {
    var at := start + have[start];
    var f', more := WriteAt(f, at, part), have[start := have[start] + |part|];
    forall o: nat ensures HoldsAt(remote, f', more, o) {
      WriteAtEffect(f, at, part, o);
      HasMore(have, start, |part|, o);
      assert HoldsAt(remote, f, have, o);
      assert at <= o < at + |part| ==> part[o - at] == remote[at + (o - at)];
    }
    WriteAtEffect(f, at, part, 0);
    if f' != [] {
      HasMore(have, start, |part|, |f'| - 1);
    }
  }

  ghost predicate Carries(remote: File, at: nat, part: File) {
    forall i: nat | i < |part| :: at + i < |remote| && part[i] == remote[at + i]
  }

  /** A start with nothing there yet adds nothing. */
  lemma HoldsNew(remote: File, f: File, have: Extents, start: nat)
    requires Holds(remote, f, have) && start !in have
    ensures Holds(remote, f, have[start := 0])
  {
    var more := have[start := 0];
    forall o: nat ensures Has(more, o) <==> Has(have, o) {
      HasNew(have, more, start, o);
    }
    forall o: nat ensures HoldsAt(remote, f, more, o) {
      assert HoldsAt(remote, f, have, o);
    }
  }

  lemma HasNew(have: Extents, more: Extents, start: nat, o: nat)
    requires start !in have && more == have[start := 0]
    ensures Has(more, o) <==> Has(have, o)
  {
    if x :| InExtent(have, x, o) {
      assert InExtent(more, x, o);
    }
    if x :| InExtent(more, x, o) {
      assert InExtent(have, x, o);
    }
  }

  // ----- the chunks

  /** Chunk k starts at k MiB; together they are [0, end) and nothing overlaps. */
  ghost predicate Tiles(issued: seq<Range>, end: nat, total: nat) {
    && end == Min(Start(|issued|), total)
    && (|issued| > 0 ==> Start(|issued| - 1) < total)
    && forall k: nat | k < |issued| :: issued[k] == ChunkAt(Start(k), total)
  }

  /** Every byte of the file is in exactly one issued chunk. */
  lemma TilesOnce(issued: seq<Range>, total: nat, o: nat)
    requires Tiles(issued, total, total) && o < total
    ensures exists k: nat :: k < |issued| && Within(o, issued[k])
              && forall j: nat | j < |issued| && Within(o, issued[j]) :: j == k
  {
    var k := o / SYNC_CHUNK;
    assert Start(k) <= o < Start(k) + SYNC_CHUNK;
    assert Within(o, issued[k]);
    forall j: nat | j < |issued| && Within(o, issued[j]) ensures j == k {
      assert Start(j) <= o < Start(j) + SYNC_CHUNK;
    }
  }

  // ----- the temporary file

  ghost predicate IsStart(start: nat, total: nat) { exists k: nat :: Start(k) == start && start < total }

  ghost predicate ExtentsOk(total: nat, replies: Replies, landed: Extents) {
    forall start | start in landed :: IsStart(start, total) && landed[start] <= |Reply(replies, start)|
  }

  /** The tasks have written `landed` of their replies to the temporary file. */
  ghost predicate LandedOk(remote: File, total: nat, replies: Replies, temp: File, landed: Extents) {
    && FromRemote(remote, total, replies)
    && ExtentsOk(total, replies, landed)
    && Holds(remote, temp, landed)
  }

  /** The whole non-empty reply was written. */
  predicate Complete(replies: Replies, landed: Extents, start: nat) {
    start in landed && Reply(replies, start) != [] && landed[start] == |Reply(replies, start)|
  }

  /** The task gets a non-empty reply, and no write of it to the temporary file breaks off. */
  predicate Succeeds(replies: Replies, broken: set<nat>, start: nat) {
    Reply(replies, start) != [] && start !in broken
  }

  /** A part of a reply lands where it belongs, whatever else has landed. */
  lemma LandSome(remote: File, total: nat, replies: Replies, temp: File, landed: Extents, start: nat, part: File)
    requires LandedOk(remote, total, replies, temp, landed) && start in landed
    requires var done := landed[start];
      done + |part| <= |Reply(replies, start)| && part == Reply(replies, start)[done..done + |part|]
    ensures var done := landed[start];
      LandedOk(remote, total, replies, WriteAt(temp, start + done, part), landed[start := done + |part|])
  {
    PartCarries(remote, total, replies, start, landed[start], part);
    HoldsMore(remote, temp, landed, start, part);
    ExtentsMore(total, replies, landed, start, |part|);
  }

  lemma PartCarries(remote: File, total: nat, replies: Replies, start: nat, done: nat, part: File)
    requires FromRemote(remote, total, replies) && start < total
    requires done + |part| <= |Reply(replies, start)| && part == Reply(replies, start)[done..done + |part|]
    ensures Carries(remote, start + done, part)
  {
    forall i: nat | i < |part| ensures start + done + i < |remote| && part[i] == remote[start + done + i] {
      ReplyByte(remote, total, replies, start, done + i);
    }
  }

  lemma ExtentsMore(total: nat, replies: Replies, landed: Extents, start: nat, n: nat)
    requires ExtentsOk(total, replies, landed) && start in landed && landed[start] + n <= |Reply(replies, start)|
    ensures ExtentsOk(total, replies, landed[start := landed[start] + n])
  {
  }

  // ----- the tasks

  /** Seek behind what is there and write `part`, the next bytes of the reply. */
  method WritePart(remote: File, total: nat, replies: Replies, temp0: File, landed0: Extents,
                   start: nat, part: File)
    returns (temp: File, landed: Extents)
    requires LandedOk(remote, total, replies, temp0, landed0) && start in landed0
    requires var done, reply := landed0[start], Reply(replies, start);
      done + |part| <= |reply| && part == reply[done..done + |part|]
    ensures LandedOk(remote, total, replies, temp, landed)
    ensures landed == landed0[start := landed0[start] + |part|]
  {
    LandSome(remote, total, replies, temp0, landed0, start, part);
    temp := WriteAt(temp0, start + landed0[start], part);
    landed := landed0[start := landed0[start] + |part|];
  }

  /** One task writes any further part of its reply. */
  method RunOne(remote: File, total: nat, replies: Replies, temp0: File, landed0: Extents, start: nat)
    returns (temp: File, landed: Extents)
    requires LandedOk(remote, total, replies, temp0, landed0) && start in landed0
    ensures LandedOk(remote, total, replies, temp, landed) && landed.Keys == landed0.Keys
    ensures forall x | x in landed && x != start :: landed[x] == landed0[x]
  {
    var reply, done := Reply(replies, start), landed0[start];
    assert done + 0 <= |reply|;
    var n: nat :| done + n <= |reply|;
    temp, landed := WritePart(remote, total, replies, temp0, landed0, start, reply[done..done + n]);
  }

  /** Let the open tasks run: any of them, any number of times, in any order. */
  method RunTasks(remote: File, total: nat, replies: Replies,
                  temp0: File, landed0: Extents, tasks: set<nat>)
    returns (temp: File, landed: Extents)
    requires LandedOk(remote, total, replies, temp0, landed0) && tasks <= landed0.Keys
    ensures LandedOk(remote, total, replies, temp, landed) && landed.Keys == landed0.Keys
    ensures forall start | start in landed && start !in tasks :: landed[start] == landed0[start]
  {
    temp, landed := temp0, landed0;
    var rounds: nat := *;
    while rounds > 0 && tasks != {}
      invariant LandedOk(remote, total, replies, temp, landed) && landed.Keys == landed0.Keys
      invariant forall start | start in landed && start !in tasks :: landed[start] == landed0[start]
    {
      rounds := rounds - 1;
      var start :| start in tasks;
      temp, landed := RunOne(remote, total, replies, temp, landed, start);
    }
  }

  /**
    How a task ends: no answer, an empty answer, a write that broke off, or the
    rest of its reply written. `broken` has the starts of the tasks whose write fails.
   */
  method EndTask(remote: File, total: nat, replies: Replies, broken: set<nat>,
                 temp0: File, landed0: Extents, start: nat)
    returns (temp: File, landed: Extents, good: bool)
    requires LandedOk(remote, total, replies, temp0, landed0) && start in landed0
    ensures LandedOk(remote, total, replies, temp, landed) && landed.Keys == landed0.Keys
    ensures forall x | x in landed && x != start :: landed[x] == landed0[x]
    ensures good ==> Complete(replies, landed, start)
    ensures good <==> start in replies && replies[start] != [] && start !in broken
  {
    temp, landed, good := temp0, landed0, false;
    if start !in replies {
      return;
    }
    var bytes := replies[start];
    if bytes == [] {
      return;
    }
    assert bytes == Reply(replies, start);
    if start !in broken {
      temp, landed := WritePart(remote, total, replies, temp0, landed0, start, bytes[landed0[start]..]);
      good := true;
    }
  }

  ghost predicate Issued(issued: seq<Range>, start: nat) {
    exists k: nat :: k < |issued| && issued[k].lo == start
  }

  /** Between two steps of the issuing loop: unless a task failed, all joined ones wrote their whole reply. */
  ghost predicate Progress(remote: File, total: nat, replies: Replies, broken: set<nat>, temp: File, landed: Extents,
                           issued: seq<Range>, tasks: set<nat>, failed: bool) {
    && LandedOk(remote, total, replies, temp, landed)
    && (forall start :: start in landed <==> Issued(issued, start))
    && tasks <= landed.Keys && |tasks| <= SYNC_INFLIGHT
    && (!failed ==> forall start | start in landed && start !in tasks ::
          Succeeds(replies, broken, start) && Complete(replies, landed, start))
    && (failed ==> exists start :: start in landed && !Succeeds(replies, broken, start))
  }

  lemma TilesMore(issued: seq<Range>, next: Range, total: nat)
    requires Tiles(issued, next.lo, total) && next.lo < total && next == ChunkAt(next.lo, total)
    ensures Tiles(issued + [next], next.hi, total) && !Issued(issued, next.lo) && IsStart(next.lo, total)
  {
    assert next.lo == Start(|issued|);
    forall k: nat | k < |issued| ensures issued[k].lo < next.lo {
      assert Start(k) < Start(|issued|);
    }
    assert !Issued(issued, next.lo);
    var all := issued + [next];
    forall k: nat | k < |all| ensures all[k] == ChunkAt(Start(k), total) {
      assert k < |issued| ==> all[k] == issued[k];
    }
  }

  lemma Issue(remote: File, total: nat, replies: Replies, broken: set<nat>, temp: File, landed: Extents,
              issued: seq<Range>, tasks: set<nat>, next: Range)
    requires Progress(remote, total, replies, broken, temp, landed, issued, tasks, false) && |tasks| < SYNC_INFLIGHT
    requires !Issued(issued, next.lo) && IsStart(next.lo, total)
    ensures Progress(remote, total, replies, broken,
                     temp, landed[next.lo := 0], issued + [next], tasks + {next.lo}, false)
  {
    var issued', landed' := issued + [next], landed[next.lo := 0];
    forall start ensures start in landed' <==> Issued(issued', start) {
      IssuedMore(issued, next, start);
    }
    HoldsNew(remote, temp, landed, next.lo);
    assert ExtentsOk(total, replies, landed') && LandedOk(remote, total, replies, temp, landed');
    forall start | start in landed' && start !in tasks + {next.lo}
      ensures Succeeds(replies, broken, start) && Complete(replies, landed', start)
    {
      assert Succeeds(replies, broken, start) && Complete(replies, landed, start);
    }
  }

  lemma IssuedMore(issued: seq<Range>, next: Range, start: nat)
    ensures Issued(issued + [next], start) <==> Issued(issued, start) || start == next.lo
  {
    var issued' := issued + [next];
    assert issued'[|issued|] == next;
    if k: nat :| k < |issued| && issued[k].lo == start {
      assert issued'[k].lo == start;
    }
    if k: nat :| k < |issued'| && issued'[k].lo == start {
      assert k < |issued| ==> issued[k].lo == start;
    }
  }

  /** Wait for some task to end. */
  method JoinNext(remote: File, total: nat, replies: Replies, broken: set<nat>, temp0: File, landed0: Extents,
                  tasks0: set<nat>, issued: seq<Range>, failed: bool)
    returns (temp: File, landed: Extents, tasks: set<nat>, good: bool)
    requires Progress(remote, total, replies, broken, temp0, landed0, issued, tasks0, failed) && tasks0 != {}
    ensures Progress(remote, total, replies, broken, temp, landed, issued, tasks, failed || !good)
    ensures |tasks| == |tasks0| - 1
  {
    temp, landed := RunTasks(remote, total, replies, temp0, landed0, tasks0);
    var ended :| ended in tasks0;
    temp, landed, good := EndTask(remote, total, replies, broken, temp, landed, ended);
    tasks := tasks0 - {ended};
    assert good <==> Succeeds(replies, broken, ended);
    forall start | start in landed && start !in tasks && !(failed || !good)
      ensures Succeeds(replies, broken, start) && Complete(replies, landed, start)
    {
      assert start != ended ==> Succeeds(replies, broken, start) && Complete(replies, landed0, start);
    }
  }

  /** Wait until the window has room for one more task, or one has failed. */
  method AwaitRoom(remote: File, total: nat, replies: Replies, broken: set<nat>, temp0: File, landed0: Extents,
                   tasks0: set<nat>, issued: seq<Range>)
    returns (temp: File, landed: Extents, tasks: set<nat>, failed: bool)
    requires Progress(remote, total, replies, broken, temp0, landed0, issued, tasks0, false)
    ensures Progress(remote, total, replies, broken, temp, landed, issued, tasks, failed)
    ensures |tasks| == Min(|tasks0|, SYNC_INFLIGHT - 1)
  {
    temp, landed, tasks, failed := temp0, landed0, tasks0, false;
    while |tasks| >= SYNC_INFLIGHT && !failed
      invariant Progress(remote, total, replies, broken, temp, landed, issued, tasks, failed)
      invariant |tasks| == |tasks0| || |tasks| == SYNC_INFLIGHT - 1 == |tasks0| - 1
      invariant failed ==> |tasks| < SYNC_INFLIGHT
      decreases |tasks|
    {
      var good;
      temp, landed, tasks, good := JoinNext(remote, total, replies, broken, temp, landed, tasks, issued, failed);
      failed := !good;
    }
  }

  /** Issue the chunks in order, as many at once as the window allows, until all are issued or a task failed. */
  method IssueAll(remote: File, total: nat, replies: Replies, broken: set<nat>)
    returns (temp: File, landed: Extents, tasks: set<nat>, issued: seq<Range>, failed: bool, peak: nat)
    requires FromRemote(remote, total, replies)
    ensures Progress(remote, total, replies, broken, temp, landed, issued, tasks, failed)
    ensures peak == Min(|issued|, SYNC_INFLIGHT)
    ensures !failed ==> Tiles(issued, total, total)
  {
    temp, landed, tasks, issued, failed, peak := [], map[], {}, [], false, 0;
    var offset: nat := 0;
    while offset < total
      invariant Tiles(issued, offset, total) && offset <= total
      invariant |tasks| == peak == Min(|issued|, SYNC_INFLIGHT)
      invariant Progress(remote, total, replies, broken, temp, landed, issued, tasks, failed) && !failed
    {
      temp, landed, tasks, failed := AwaitRoom(remote, total, replies, broken, temp, landed, tasks, issued);
      if failed {
        break;
      }
      var next := Range(offset, offset + Min(total - offset, SYNC_CHUNK));
      TilesMore(issued, next, total);
      Issue(remote, total, replies, broken, temp, landed, issued, tasks, next);
      landed := landed[offset := 0];
      tasks := tasks + {offset};
      issued := issued + [next];
      peak := Max(peak, |tasks|);
      offset := next.hi;
    }
  }

  // ----- what a successful download leaves in the cache

  /** What the replies carried: of each chunk, the bytes its reply had. */
  ghost function Carried(replies: Replies, total: nat): Extents {
    map start | start in replies && IsStart(start, total) :: |replies[start]|
  }

  ghost predicate AllAnswered(replies: Replies, total: nat) {
    forall k: nat | Start(k) < total :: Reply(replies, Start(k)) != []
  }

  ghost predicate AllSucceed(replies: Replies, broken: set<nat>, total: nat) {
    forall k: nat | Start(k) < total :: Succeeds(replies, broken, Start(k))
  }

  /** The remote's bytes where a reply carried them, zeros between, and nothing after the last of them. */
  ghost predicate Assembled(remote: File, total: nat, replies: Replies, f: File) {
    Holds(remote, f, Carried(replies, total))
  }

  lemma CarriedBytes(remote: File, total: nat, replies: Replies, o: nat)
    requires FromRemote(remote, total, replies) && Has(Carried(replies, total), o)
    ensures o < |remote| && o < total
  {
    var start :| InExtent(Carried(replies, total), start, o);
    ReplyByte(remote, total, replies, start, o - start);
  }

  /** A file put together from `have` is `whole` exactly if it misses only zeros, and not the last byte. */
  lemma HoldsIff(remote: File, whole: File, f: File, have: Extents)
    requires Holds(remote, f, have) && whole != [] && whole <= remote
    requires forall o: nat | Has(have, o) :: o < |whole|
    ensures f == whole <==> Has(have, |whole| - 1) && forall o: nat | o < |whole| && !Has(have, o) :: whole[o] == 0
  {
    assert HoldsAt(remote, f, have, |whole| - 1);
    if Has(have, |whole| - 1) && forall o: nat | o < |whole| && !Has(have, o) :: whole[o] == 0 {
      forall o: nat | o < |whole| ensures At(f, o) == At(whole, o) {
        assert HoldsAt(remote, f, have, o);
      }
      SameFile(whole, f);
    }
    if f == whole {
      forall o: nat | o < |whole| && !Has(have, o) ensures whole[o] == 0 {
        assert HoldsAt(remote, f, have, o);
      }
    }
  }

  /**
    The cache file is the remote file, up to the listed size, exactly if its last
    byte was carried and every byte that no reply carried is a zero anyway.
   */
  lemma AssembledIff(remote: File, total: nat, replies: Replies, f: File)
    requires FromRemote(remote, total, replies) && 0 < total
    requires Assembled(remote, total, replies, f) && AllAnswered(replies, total)
    ensures var whole, have := Slice(remote, 0, total), Carried(replies, total);
      && whole != []
      && (f == whole <==> Has(have, |whole| - 1) && forall o: nat | o < |whole| && !Has(have, o) :: whole[o] == 0)
  {
    var whole, have := Slice(remote, 0, total), Carried(replies, total);
    assert Start(0) == 0 && Reply(replies, Start(0)) != [];
    ReplyByte(remote, total, replies, 0, 0);
    forall o: nat | Has(have, o) ensures o < |whole| {
      CarriedBytes(remote, total, replies, o);
    }
    HoldsIff(remote, whole, f, have);
  }

  /** With full reads every byte is carried, so the cache file is the remote file. */
  lemma FullReadsAssemble(remote: File, total: nat, replies: Replies, f: File)
    requires FromRemote(remote, total, replies) && FullReads(remote, total, replies) && 0 < total
    requires Assembled(remote, total, replies, f) && AllAnswered(replies, total)
    ensures f == Slice(remote, 0, total)
  {
    var whole := Slice(remote, 0, total);
    AssembledIff(remote, total, replies, f);
    forall o: nat | o < |whole| ensures Has(Carried(replies, total), o) {
      var k := o / SYNC_CHUNK;
      assert Start(k) <= o < Start(k) + SYNC_CHUNK && o < total;
      assert Reply(replies, Start(k)) != [] && Start(k) in replies;
      assert IsStart(Start(k), total);
      assert InExtent(Carried(replies, total), Start(k), o);
    }
  }

  /** One byte of two is sent back: it is accepted, and the cache file is one byte short. */
  lemma ShortReplyAccepted(remote: File, replies: Replies)
    requires remote == [7, 8] && replies == map[0 := [7]]
    ensures FromRemote(remote, 2, replies) && AllAnswered(replies, 2)
    ensures Assembled(remote, 2, replies, [7]) && [7] != Slice(remote, 0, 2)
  {
    assert IsStart(Start(0), 2) && Carried(replies, 2) == map[0 := 1];
    forall o: nat ensures HoldsAt(remote, [7], Carried(replies, 2), o) {
      assert InExtent(Carried(replies, 2), 0, o) <==> o == 0;
    }
    assert InExtent(Carried(replies, 2), 0, 0);
    forall k: nat | Start(k) < 2 ensures Reply(replies, Start(k)) != [] {
      assert k == 0;
    }
  }

  /** The starts of the issued chunks are all the starts there are. */
  lemma TilesStarts(issued: seq<Range>, total: nat, start: nat)
    requires Tiles(issued, total, total)
    ensures Issued(issued, start) <==> IsStart(start, total)
  {
    if Issued(issued, start) {
      var k: nat :| k < |issued| && issued[k].lo == start;
      assert start == Start(k) < total;
    }
    if IsStart(start, total) {
      var k: nat :| Start(k) == start;
      assert k < |issued| && issued[k].lo == start;
    }
  }

  lemma LandedIsCarried(total: nat, replies: Replies, landed: Extents)
    requires forall start :: start in landed <==> IsStart(start, total)
    requires forall start | start in landed :: Complete(replies, landed, start)
    ensures landed == Carried(replies, total)
  {
    forall start ensures start in landed <==> start in Carried(replies, total) {
      assert start in landed ==> Complete(replies, landed, start);
    }
  }

  /** Nothing outstanding and nothing failed: the temporary file is the replies put together. */
  lemma AllLanded(remote: File, total: nat, replies: Replies, broken: set<nat>,
                  temp: File, landed: Extents, issued: seq<Range>)
    requires Progress(remote, total, replies, broken, temp, landed, issued, {}, false) && Tiles(issued, total, total)
    ensures Assembled(remote, total, replies, temp) && AllAnswered(replies, total) && AllSucceed(replies, broken, total)
  {
    forall start ensures start in landed <==> IsStart(start, total) {
      TilesStarts(issued, total, start);
    }
    forall k: nat | Start(k) < total ensures Succeeds(replies, broken, Start(k)) {
      assert IsStart(Start(k), total);
    }
    LandedIsCarried(total, replies, landed);
  }

  lemma SomeFails(total: nat, replies: Replies, broken: set<nat>, landed: Extents)
    requires ExtentsOk(total, replies, landed)
    requires exists start :: start in landed && !Succeeds(replies, broken, start)
    ensures !AllSucceed(replies, broken, total)
  {
    var start :| start in landed && !Succeeds(replies, broken, start);
    assert IsStart(start, total);
    var k: nat :| Start(k) == start;
  }

  /**
    The cache file is replaced exactly when every task succeeds and the rename
    works, and then by the replies put together, whatever the completion order;
    otherwise it is untouched. With full reads that is the remote file up to the
    listed size. Eight fetches are outstanding at the peak, or all if there are fewer.
   */
  method DownloadToCache(remote: File, total: nat, replies: Replies, broken: set<nat>, renames: bool,
                         before: Option<File>)
    returns (ok: bool, after: Option<File>, issued: seq<Range>, peak: nat)
    requires FromRemote(remote, total, replies)
    ensures !ok ==> after == before
    ensures total == 0 ==> ok && (after == before || after == Some([]))
    ensures total > 0 ==> (ok <==> AllSucceed(replies, broken, total) && renames)
    ensures ok && total > 0 ==>
      && Tiles(issued, total, total) && AllAnswered(replies, total)
      && after.Some? && Assembled(remote, total, replies, after.value)
      && (FullReads(remote, total, replies) ==> after.value == Slice(remote, 0, total))
    ensures peak == Min(|issued|, SYNC_INFLIGHT)
  {
    issued, peak := [], 0;
    if total == 0 {
      var created: bool := *;
      return true, if created then Some([]) else before, issued, peak;
    }
    var temp, landed, tasks, failed;
    temp, landed, tasks, issued, failed, peak := IssueAll(remote, total, replies, broken);
    while tasks != {}
      invariant Progress(remote, total, replies, broken, temp, landed, issued, tasks, failed)
      invariant !failed ==> Tiles(issued, total, total)
      decreases |tasks|
    {
      var good;
      temp, landed, tasks, good := JoinNext(remote, total, replies, broken, temp, landed, tasks, issued, failed);
      failed := failed || !good;
    }
    if failed {
      SomeFails(total, replies, broken, landed);
      return false, before, issued, peak;
    }
    AllLanded(remote, total, replies, broken, temp, landed, issued);
    if FullReads(remote, total, replies) {
      FullReadsAssemble(remote, total, replies, temp);
    }
    ok := renames;
    after := if renames then Some(temp) else before;
  }
}
