/**
  Byte files as the target's operating system keeps them: positioned writes that
  grow and zero-fill, positioned reads, set_len, and a table of files by path.
 */
module Files {

  newtype Byte = x: int | 0 <= x < 256

  type File = seq<Byte>

  type Path = string

  /** The target's limits on one file payload, raw and in base64. */
  const MAX_DIRECT_FILE_BYTES: nat := 8 * 1024 * 1024
  const MAX_DIRECT_FILE_BASE64_BYTES: nat := (MAX_DIRECT_FILE_BYTES + 2) / 3 * 4

  function Base64Length(n: nat): nat { (n + 2) / 3 * 4 }

  function Zeros(n: nat): (z: File)
    ensures |z| == n && forall i | 0 <= i < n :: z[i] == 0
  {
    seq(n, _ => 0)
  }

  /** Seek to `off` and write all of `data`; writing nothing never grows a file. */
  function WriteAt(f: File, off: nat, data: File): File {
    if data == [] then f
    else
      var base := if |f| < off then f + Zeros(off - |f|) else f;
      base[..off] + data + (if off + |data| < |f| then f[off + |data|..] else [])
  }

  function SetLen(f: File, size: nat): File {
    if size <= |f| then f[..size] else f + Zeros(size - |f|)
  }

  function Slice(f: File, off: nat, limit: nat): File {
    if |f| <= off then [] else if |f| - off <= limit then f[off..] else f[off..off + limit]
  }

  /** The byte at `o`, a hole reading as zero. */
  function At(f: File, o: nat): Byte {
    if o < |f| then f[o] else 0
  }

  function FileAt(m: map<Path, File>, p: Path): File { if p in m then m[p] else [] }

  lemma WriteAtEffect(f: File, off: nat, data: File, o: nat)
    ensures |WriteAt(f, off, data)| == if data == [] || off + |data| < |f| then |f| else off + |data|
    ensures At(WriteAt(f, off, data), o) == if off <= o < off + |data| then data[o - off] else At(f, o)
  {
  }

  lemma SetLenEffect(f: File, size: nat, o: nat)
    ensures |SetLen(f, size)| == size
    ensures o < size ==> SetLen(f, size)[o] == At(f, o)
  {
  }

  /** A positioned read: what is there from `off`, up to `limit` bytes. */
  lemma SliceEffect(f: File, off: nat, limit: nat, i: nat)
    ensures i < |Slice(f, off, limit)| <==> i < limit && off + i < |f|
    ensures i < |Slice(f, off, limit)| ==> Slice(f, off, limit)[i] == f[off + i]
  {
  }

  lemma SameFile(f: File, g: File)
    requires |f| == |g| && forall o: nat | o < |f| :: At(f, o) == At(g, o)
    ensures f == g
  {
    forall o | 0 <= o < |f| ensures f[o] == g[o] {
      assert At(f, o) == At(g, o);
    }
  }

  /** Appending at the end, in any chunks, extends a prefix of `whole`. */
  lemma WriteAtExtendsPrefix(f: File, off: nat, whole: File, n: nat)
    requires f <= whole && off <= |f| && off + n <= |whole|
    ensures WriteAt(f, off, whole[off..off + n]) <= whole
    ensures |WriteAt(f, off, whole[off..off + n])| == if |f| < off + n then off + n else |f|
  {
    var g := WriteAt(f, off, whole[off..off + n]);
    forall o | 0 <= o < |g| ensures g[o] == whole[o] {
      WriteAtEffect(f, off, whole[off..off + n], o);
    }
  }

  // ----- disjoint writes in any order

  datatype Write = Write(off: nat, data: File)

  ghost predicate Apart(a: Write, b: Write) {
    a.off + |a.data| <= b.off || b.off + |b.data| <= a.off
  }

  ghost function ApplyAll(f: File, ws: seq<Write>): File {
    if ws == [] then f
    else WriteAt(ApplyAll(f, ws[..|ws| - 1]), ws[|ws| - 1].off, ws[|ws| - 1].data)
  }

  ghost predicate PairwiseApart(ws: seq<Write>) {
    forall i, j | 0 <= i < j < |ws| :: Apart(ws[i], ws[j])
  }

  ghost predicate Hits(ws: seq<Write>, o: nat, b: Byte) {
    exists w :: w in ws && w.off <= o < w.off + |w.data| && w.data[o - w.off] == b
  }

  ghost predicate Untouched(ws: seq<Write>, o: nat) {
    forall w | w in ws :: !(w.off <= o < w.off + |w.data|)
  }

  /** The furthest end of the writes that carry data. */
  ghost predicate EndsAt(ws: seq<Write>, f: File, n: nat) {
    && |f| <= n
    && (forall w | w in ws :: w.data != [] ==> w.off + |w.data| <= n)
    && (n == |f| || exists w :: w in ws && w.data != [] && n == w.off + |w.data|)
  }

  lemma {:induction false} ApplyAllByte(f: File, ws: seq<Write>, o: nat)
    requires PairwiseApart(ws)
    ensures Untouched(ws, o) ==> At(ApplyAll(f, ws), o) == At(f, o)
    ensures !Untouched(ws, o) ==> Hits(ws, o, At(ApplyAll(f, ws), o))
  {
    if ws == [] {
    } else {
      var init, last := ws[..|ws| - 1], ws[|ws| - 1];
      assert ws == init + [last];
      ApplyAllByte(f, init, o);
      WriteAtEffect(ApplyAll(f, init), last.off, last.data, o);
      if last.off <= o < last.off + |last.data| {
        assert last in ws;
      } else if !Untouched(ws, o) {
        assert !Untouched(init, o);
        var b := At(ApplyAll(f, ws), o);
        var w :| w in init && w.off <= o < w.off + |w.data| && w.data[o - w.off] == b;
        assert w in ws;
      }
    }
  }

  lemma {:induction false} ApplyAllLength(f: File, ws: seq<Write>)
    ensures EndsAt(ws, f, |ApplyAll(f, ws)|)
  {
    if ws == [] {
    } else {
      var init, last := ws[..|ws| - 1], ws[|ws| - 1];
      assert ws == init + [last];
      ApplyAllLength(f, init);
      var g := ApplyAll(f, init);
      WriteAtEffect(g, last.off, last.data, 0);
      assert last in ws;
      if |ApplyAll(f, ws)| == |g| && |g| != |f| {
        var w :| w in init && w.data != [] && |g| == w.off + |w.data|;
        assert w in ws;
      }
    }
  }

  lemma ApartOf(ws: seq<Write>, v: Write, w: Write)
    requires PairwiseApart(ws) && v in ws && w in ws && v != w
    ensures Apart(v, w)
  {
    var i :| 0 <= i < |ws| && ws[i] == v;
    var j :| 0 <= j < |ws| && ws[j] == w;
    assert if i < j then Apart(ws[i], ws[j]) else Apart(ws[j], ws[i]);
  }

  lemma HitsUnique(ws: seq<Write>, o: nat, a: Byte, b: Byte)
    requires PairwiseApart(ws) && Hits(ws, o, a) && Hits(ws, o, b)
    ensures a == b
  {
    var v :| v in ws && v.off <= o < v.off + |v.data| && v.data[o - v.off] == a;
    var w :| w in ws && w.off <= o < w.off + |w.data| && w.data[o - w.off] == b;
    if v != w {
      ApartOf(ws, v, w);
    }
  }

  /**
    However the target schedules pairwise disjoint writes, the file ends up the
    same: same length, same bytes, same zero fill. Only the set of writes counts.
   */
  lemma OrderIrrelevant(f: File, ws: seq<Write>, vs: seq<Write>)
    requires PairwiseApart(ws) && PairwiseApart(vs)
    requires forall w :: w in ws <==> w in vs
    ensures ApplyAll(f, ws) == ApplyAll(f, vs)
  {
    var g, h := ApplyAll(f, ws), ApplyAll(f, vs);
    ApplyAllLength(f, ws);
    ApplyAllLength(f, vs);
    assert |g| == |h|;
    forall o: nat | o < |g| ensures At(g, o) == At(h, o) {
      ApplyAllByte(f, ws, o);
      ApplyAllByte(f, vs, o);
      if !Untouched(ws, o) {
        var w :| w in ws && w.off <= o < w.off + |w.data| && w.data[o - w.off] == At(g, o);
        assert w in vs;
        assert Hits(vs, o, At(g, o));
        HitsUnique(vs, o, At(g, o), At(h, o));
      } else {
        assert Untouched(vs, o);
      }
    }
    SameFile(g, h);
  }
}
