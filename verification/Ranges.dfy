/**
  Sorted lists of half-open byte ranges, as kept per file by the upload queue.

  Merge is the list `merge_range` leaves behind, Growth the number it returns.
  The byte set of a list (Bytes) is the independent meaning both are proved against.
 */
module Ranges {

  datatype Range = Range(lo: nat, hi: nat)

  function Min(a: nat, b: nat): nat { if a <= b then a else b }

  function Max(a: nat, b: nat): nat { if a <= b then b else a }

  /** The offsets of one range. */
  ghost function Span(r: Range): set<nat> {
    set o: nat | o < r.hi && Within(o, r)
  }

  predicate Within(o: nat, r: Range) { r.lo <= o < r.hi }

  /** The offsets a list of ranges covers. */
  ghost function Bytes(rs: seq<Range>): set<nat> {
    if rs == [] then {} else Span(rs[0]) + Bytes(rs[1..])
  }

  /** Sorted, disjoint, non-adjacent, and no range is empty; see CanonicalMeans. */
  ghost predicate Canonical(rs: seq<Range>) {
    rs == [] || (
      && rs[0].lo < rs[0].hi
      && (|rs| > 1 ==> rs[0].hi < rs[1].lo)
      && Canonical(rs[1..])
    )
  }

  lemma {:induction false} CanonicalMeans(rs: seq<Range>)
    ensures Canonical(rs) <==>
      && (forall i | 0 <= i < |rs| :: rs[i].lo < rs[i].hi)
      && (forall i, j | 0 <= i < j < |rs| :: rs[i].hi < rs[j].lo)
  {
    if rs == [] {
    } else {
      var rest := rs[1..];
      CanonicalMeans(rest);
      assert forall i | 0 < i < |rs| :: rs[i] == rest[i - 1];
      if Canonical(rs) {
        forall j | 0 < j < |rs| ensures rs[0].hi < rs[j].lo {
          assert rest[0].lo <= rest[j - 1].lo by {
            assert j > 1 ==> rest[0].hi < rest[j - 1].lo && rest[0].lo < rest[0].hi;
          }
        }
      } else {
        assert forall i | 0 <= i < |rest| :: rest[i] == rs[i + 1];
      }
    }
  }

  /** Sum of the range lengths. */
  ghost function Total(rs: seq<Range>): nat {
    if rs == [] then 0
    else (if rs[0].lo <= rs[0].hi then rs[0].hi - rs[0].lo else 0) + Total(rs[1..])
  }

  /** The list after inserting [lo, hi), merging overlap and adjacency. */
  function Merge(rs: seq<Range>, lo: nat, hi: nat): seq<Range> {
    if rs == [] then [Range(lo, hi)]
    else if rs[0].hi < lo then [rs[0]] + Merge(rs[1..], lo, hi)
    else if rs[0].lo > hi then [Range(lo, hi)] + rs
    else Merge(rs[1..], Min(lo, rs[0].lo), Max(hi, rs[0].hi))
  }

  /** The one range of Merge(rs, lo, hi) that swallowed [lo, hi). */
  function Hull(rs: seq<Range>, lo: nat, hi: nat): Range {
    if rs == [] then Range(lo, hi)
    else if rs[0].hi < lo then Hull(rs[1..], lo, hi)
    else if rs[0].lo > hi then Range(lo, hi)
    else Hull(rs[1..], Min(lo, rs[0].lo), Max(hi, rs[0].hi))
  }

  /** Bytes of [lo, hi) that the list covers already. */
  function Covered(rs: seq<Range>, lo: nat, hi: nat): int {
    if rs == [] then 0
    else
      (if rs[0].lo < hi && lo < rs[0].hi then Min(rs[0].hi, hi) - Max(rs[0].lo, lo) else 0)
      + Covered(rs[1..], lo, hi)
  }

  // ----- the byte set of the result

  lemma {:induction false} BytesIn(rs: seq<Range>, o: nat)
    ensures o in Bytes(rs) <==> exists i :: 0 <= i < |rs| && rs[i].lo <= o < rs[i].hi
  {
    if rs == [] {
    } else {
      BytesIn(rs[1..], o);
      if o in Span(rs[0]) {
        assert rs[0].lo <= o < rs[0].hi;
      }
      if i :| 0 <= i < |rs[1..]| && rs[1..][i].lo <= o < rs[1..][i].hi {
        assert rs[i + 1].lo <= o < rs[i + 1].hi;
      }
      if i :| 0 <= i < |rs| && rs[i].lo <= o < rs[i].hi {
        if i > 0 {
          assert rs[1..][i - 1].lo <= o < rs[1..][i - 1].hi;
        }
      }
    }
  }

  lemma {:induction false} MergeBytes(rs: seq<Range>, lo: nat, hi: nat)
    requires lo < hi && Canonical(rs)
    ensures Bytes(Merge(rs, lo, hi)) == Bytes(rs) + Span(Range(lo, hi))
  {
    if rs == [] {
    } else if rs[0].hi < lo {
      MergeBytes(rs[1..], lo, hi);
      assert Merge(rs, lo, hi)[1..] == Merge(rs[1..], lo, hi);
    } else if rs[0].lo > hi {
      assert Merge(rs, lo, hi)[1..] == rs;
    } else {
      MergeBytes(rs[1..], Min(lo, rs[0].lo), Max(hi, rs[0].hi));
      assert Span(Range(Min(lo, rs[0].lo), Max(hi, rs[0].hi))) == Span(rs[0]) + Span(Range(lo, hi));
    }
  }

  lemma {:induction false} MergeCanonical(rs: seq<Range>, lo: nat, hi: nat)
    requires Canonical(rs) && lo < hi
    ensures Canonical(Merge(rs, lo, hi)) && Merge(rs, lo, hi) != []
    ensures Merge(rs, lo, hi)[0].lo == if rs == [] then lo else Min(lo, rs[0].lo)
  {
    if rs == [] {
    } else if rs[0].hi < lo {
      MergeCanonical(rs[1..], lo, hi);
      assert Merge(rs, lo, hi)[1..] == Merge(rs[1..], lo, hi);
    } else if rs[0].lo > hi {
      assert Merge(rs, lo, hi)[1..] == rs;
    } else {
      MergeCanonical(rs[1..], Min(lo, rs[0].lo), Max(hi, rs[0].hi));
    }
  }

  /** Two canonical lists of the same bytes are the same list. */
  lemma {:induction false} CanonicalUnique(a: seq<Range>, b: seq<Range>)
    requires Canonical(a) && Canonical(b) && Bytes(a) == Bytes(b)
    ensures a == b
  {
    if a == [] {
      if b != [] {
        BytesIn(b, b[0].lo);
        assert false;
      }
    } else {
      assert a[0].lo in Span(a[0]);
      assert b != [];
      FirstRange(a, b);
      FirstRange(b, a);
      TailBytes(a);
      TailBytes(b);
      CanonicalUnique(a[1..], b[1..]);
      assert a == [a[0]] + a[1..] && b == [b[0]] + b[1..];
    }
  }

  lemma {:induction false} BytesFrom(rs: seq<Range>)
    requires Canonical(rs) && rs != []
    ensures forall o | o in Bytes(rs) :: rs[0].lo <= o
    ensures forall o | o in Bytes(rs[1..]) :: rs[0].hi < o
  {
    if |rs| > 1 {
      BytesFrom(rs[1..]);
    }
  }

  lemma FirstRange(a: seq<Range>, b: seq<Range>)
    requires Canonical(a) && Canonical(b) && a != [] && b != [] && Bytes(a) == Bytes(b)
    ensures b[0].lo <= a[0].lo && b[0].hi <= a[0].hi
  {
    BytesFrom(a);
    BytesFrom(b);
    assert a[0].lo in Bytes(a);
    assert a[0].hi !in Bytes(a);
    assert a[0].hi in Span(b[0]) <==> b[0].lo <= a[0].hi < b[0].hi;
  }

  lemma TailBytes(a: seq<Range>)
    requires Canonical(a) && a != []
    ensures Bytes(a[1..]) == Bytes(a) - Span(a[0])
  {
    BytesFrom(a);
  }

  // ----- insertion order never matters

  ghost function MergeAll(rs: seq<Range>, xs: seq<Range>): seq<Range>
    decreases xs
  {
    if xs == [] then rs else MergeAll(Merge(rs, xs[0].lo, xs[0].hi), xs[1..])
  }

  lemma {:induction false} MergeAllBytes(rs: seq<Range>, xs: seq<Range>)
    requires Canonical(rs) && forall i | 0 <= i < |xs| :: xs[i].lo < xs[i].hi
    ensures Canonical(MergeAll(rs, xs)) && Bytes(MergeAll(rs, xs)) == Bytes(rs) + Bytes(xs)
    decreases xs
  {
    if xs == [] {
    } else {
      MergeCanonical(rs, xs[0].lo, xs[0].hi);
      MergeBytes(rs, xs[0].lo, xs[0].hi);
      MergeAllBytes(Merge(rs, xs[0].lo, xs[0].hi), xs[1..]);
    }
  }

  /** Any two insertion sequences over the same bytes leave the same list. */
  lemma InsertionOrderIrrelevant(rs: seq<Range>, xs: seq<Range>, ys: seq<Range>)
    requires Canonical(rs) && Bytes(xs) == Bytes(ys)
    requires forall i | 0 <= i < |xs| :: xs[i].lo < xs[i].hi
    requires forall i | 0 <= i < |ys| :: ys[i].lo < ys[i].hi
    ensures MergeAll(rs, xs) == MergeAll(rs, ys)
  {
    MergeAllBytes(rs, xs);
    MergeAllBytes(rs, ys);
    CanonicalUnique(MergeAll(rs, xs), MergeAll(rs, ys));
  }

  // ----- what the returned number is

  lemma {:induction false} SpanSize(r: Range)
    requires r.lo <= r.hi
    ensures |Span(r)| == r.hi - r.lo
    decreases r.hi - r.lo
  {
    if r.lo == r.hi {
      assert Span(r) == {};
    } else {
      var s := Range(r.lo, r.hi - 1);
      SpanSize(s);
      assert Span(r) == Span(s) + {r.hi - 1};
    }
  }

  lemma {:induction false} TotalSize(rs: seq<Range>)
    requires Canonical(rs)
    ensures |Bytes(rs)| == Total(rs)
  {
    if rs == [] {
    } else {
      TailBytes(rs);
      TotalSize(rs[1..]);
      SpanSize(rs[0]);
      assert Bytes(rs) == Span(rs[0]) + Bytes(rs[1..]) && Span(rs[0]) !! Bytes(rs[1..]);
    }
  }

  /** Ranges that start above both `lo` and the old end cover no more of a wider range. */
  lemma {:induction false} CoveredWiden(rs: seq<Range>, lo: nat, hi: nat, lo': nat, hi': nat)
    requires Canonical(rs) && lo' <= lo < hi <= hi'
    requires rs != [] ==> lo < rs[0].lo && (hi == hi' || hi' < rs[0].lo)
    ensures Covered(rs, lo, hi) == Covered(rs, lo', hi')
  {
    if rs == [] {
    } else {
      CoveredWiden(rs[1..], lo, hi, lo', hi');
    }
  }

  lemma {:induction false} CoveredBound(rs: seq<Range>, lo: nat, hi: nat)
    requires Canonical(rs) && lo < hi
    ensures 0 <= Covered(rs, lo, hi)
         <= if rs == [] || hi <= rs[0].lo then 0 else hi - Max(lo, rs[0].lo)
  {
    if rs == [] {
    } else {
      CoveredBound(rs[1..], lo, hi);
    }
  }

  /** New total = old total + the bytes of [lo, hi) not covered before. */
  lemma {:induction false} MergeTotal(rs: seq<Range>, lo: nat, hi: nat)
    requires Canonical(rs) && lo < hi
    ensures Total(Merge(rs, lo, hi)) == Total(rs) + (hi - lo) - Covered(rs, lo, hi)
  {
    if rs == [] {
      assert Merge(rs, lo, hi)[1..] == [];
    } else if rs[0].hi < lo {
      MergeTotal(rs[1..], lo, hi);
      assert Merge(rs, lo, hi)[1..] == Merge(rs[1..], lo, hi);
    } else if rs[0].lo > hi {
      assert Merge(rs, lo, hi)[1..] == rs;
      CoveredBound(rs, lo, hi);
    } else {
      var lo', hi' := Min(lo, rs[0].lo), Max(hi, rs[0].hi);
      MergeTotal(rs[1..], lo', hi');
      CoveredWiden(rs[1..], lo, hi, lo', hi');
    }
  }

  lemma {:induction false} HullContains(rs: seq<Range>, lo: nat, hi: nat)
    requires lo < hi
    ensures Hull(rs, lo, hi).lo <= lo && hi <= Hull(rs, lo, hi).hi
    ensures Hull(rs, lo, hi) in Merge(rs, lo, hi)
  {
    if rs == [] || (rs[0].hi >= lo && rs[0].lo > hi) {
    } else if rs[0].hi < lo {
      HullContains(rs[1..], lo, hi);
    } else {
      HullContains(rs[1..], Min(lo, rs[0].lo), Max(hi, rs[0].hi));
    }
  }

  /** The number `merge_range` returns. */
  function MergeReturn(rs: seq<Range>, lo: nat, hi: nat): int {
    if hi <= lo then 0 else Hull(rs, lo, hi).hi - Hull(rs, lo, hi).lo - Covered(rs, lo, hi)
  }

  /** Bytes of [lo, hi) that were not covered before. */
  lemma NewlyCovered(rs: seq<Range>, lo: nat, hi: nat)
    requires Canonical(rs) && lo < hi
    ensures (hi - lo) - Covered(rs, lo, hi) == |Span(Range(lo, hi)) - Bytes(rs)|
  {
    var m, fresh_ := Merge(rs, lo, hi), Span(Range(lo, hi)) - Bytes(rs);
    MergeTotal(rs, lo, hi);
    MergeCanonical(rs, lo, hi);
    MergeBytes(rs, lo, hi);
    TotalSize(rs);
    TotalSize(m);
    assert Bytes(m) == Bytes(rs) + fresh_;
  }

  /** How far the absorbed ranges stick out of [lo, hi). */
  lemma HullExcess(rs: seq<Range>, lo: nat, hi: nat)
    requires lo < hi
    ensures var hull := Hull(rs, lo, hi);
      && hull.lo <= lo && hi <= hull.hi
      && |Span(hull) - Span(Range(lo, hi))| == (hull.hi - hull.lo) - (hi - lo)
  {
    var hull, part := Hull(rs, lo, hi), Span(Range(lo, hi));
    HullContains(rs, lo, hi);
    SpanSize(hull);
    SpanSize(Range(lo, hi));
    assert part <= Span(hull);
    assert |part + (Span(hull) - part)| == |part| + |Span(hull) - part|;
    assert Span(hull) == part + (Span(hull) - part);
  }

  /** No range that touches [lo, hi) reaches beyond it. */
  ghost predicate Inside(rs: seq<Range>, lo: nat, hi: nat) {
    forall r | r in rs && lo <= r.hi && r.lo <= hi :: lo <= r.lo && r.hi <= hi
  }

  /** The range grows only if some range it touches sticks out of it. */
  lemma {:induction false} HullStays(rs: seq<Range>, lo: nat, hi: nat)
    requires Canonical(rs) && lo < hi
    ensures Hull(rs, lo, hi) == Range(lo, hi) <==> Inside(rs, lo, hi)
  {
    if rs == [] {
    } else {
      CanonicalMeans(rs);
      assert forall r | r in rs :: r == rs[0] || r in rs[1..];
      HullStays(rs[1..], lo, hi);
      if rs[0].hi >= lo && rs[0].lo <= hi {
        HullContains(rs[1..], Min(lo, rs[0].lo), Max(hi, rs[0].hi));
      }
    }
  }

  /**
    The returned number is the count of newly covered bytes plus the count of
    bytes of absorbed ranges that lie outside [lo, hi). It is the documented
    count exactly when no range that touches [lo, hi) reaches beyond it.
   */
  lemma MergeReturnMeaning(rs: seq<Range>, lo: nat, hi: nat)
    requires Canonical(rs) && lo < hi
    ensures MergeReturn(rs, lo, hi)
         == |Span(Range(lo, hi)) - Bytes(rs)| + |Span(Hull(rs, lo, hi)) - Span(Range(lo, hi))|
    ensures MergeReturn(rs, lo, hi) == |Span(Range(lo, hi)) - Bytes(rs)|
       <==> Inside(rs, lo, hi)
  {
    NewlyCovered(rs, lo, hi);
    HullExcess(rs, lo, hi);
    HullStays(rs, lo, hi);
  }

  /** [0,10) then [10,20): twenty bytes are reported, ten are new. */
  lemma MergeReturnOvercounts()
    ensures MergeReturn([Range(0, 10)], 10, 20) == 20
    ensures |Span(Range(10, 20)) - Bytes([Range(0, 10)])| == 10
  {
    assert [Range(0, 10)][1..] == [];
    SpanSize(Range(10, 20));
    assert Span(Range(10, 20)) - Bytes([Range(0, 10)]) == Span(Range(10, 20));
  }

  // ----- the loop

  /** The Vec is edited in place; here the list comes back as `out`. */
  method MergeRange(ranges: seq<Range>, lo: nat, hi: nat) returns (out: seq<Range>, grown: int)
    ensures out == if hi <= lo then ranges else Merge(ranges, lo, hi)
    ensures grown == MergeReturn(ranges, lo, hi)
  {
    if hi <= lo {
      return ranges, 0;
    }
    var covered := 0;
    for k := 0 to |ranges|
      invariant covered + Covered(ranges[k..], lo, hi) == Covered(ranges, lo, hi)
    {
      var r := ranges[k];
      if r.lo < hi && lo < r.hi {
        covered := covered + (Min(r.hi, hi) - Max(r.lo, lo));
      }
      assert ranges[k..][1..] == ranges[k + 1..];
    }
    out := ranges;
    var newLo: nat, newHi: nat, i := lo, hi, 0;
    while i < |out|
      invariant 0 <= i <= |out|
      invariant out[..i] + Merge(out[i..], newLo, newHi) == Merge(ranges, lo, hi)
      invariant Hull(out[i..], newLo, newHi) == Hull(ranges, lo, hi)
      decreases |out| - i
    {
      var r := out[i];
      ghost var rest := out[i..];
      if r.hi < newLo {
        assert rest[1..] == out[i + 1..];
        assert out[..i + 1] + Merge(out[i + 1..], newLo, newHi)
            == out[..i] + ([r] + Merge(out[i + 1..], newLo, newHi));
        i := i + 1;
        continue;
      }
      if r.lo > newHi {
        break;
      }
      assert rest[1..] == out[i + 1..];
      newLo := Min(newLo, r.lo);
      newHi := Max(newHi, r.hi);
      out := out[..i] + out[i + 1..];
      assert out[i..] == rest[1..];
    }
    out := out[..i] + [Range(newLo, newHi)] + out[i..];
    grown := newHi - newLo - covered;
  }
}
