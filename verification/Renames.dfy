/** Path names below a directory, and what a rename does to a table of files: whole subtrees move. */
module Renames {
  import opened Files

  /** `p` lies strictly below the directory `dir`. */
  predicate Below(dir: Path, p: Path) { |dir| < |p| && p[..|dir|] == dir && p[|dir|] == '/' }

  predicate Under(dir: Path, p: Path) { p == dir || Below(dir, p) }

  function Rebase(p: Path, from: Path, to: Path): Path
    requires Under(from, p)
  {
    to + p[|from|..]
  }

  lemma RebaseBack(p: Path, from: Path, to: Path)
    requires Under(from, p)
    ensures Under(to, Rebase(p, from, to)) && Rebase(Rebase(p, from, to), to, from) == p
    ensures p != from ==> Below(to, Rebase(p, from, to))
  {
    var q := Rebase(p, from, to);
    assert q[|to|..] == p[|from|..] && q[..|to|] == to;
    assert from + p[|from|..] == p;
  }

  /** Two directories above one path lie one above the other. */
  lemma UnderBoth(a: Path, b: Path, p: Path)
    requires Under(a, p) && Under(b, p)
    ensures Under(a, b) || Under(b, a)
  {
    if |a| <= |b| {
      assert b == p[..|b|] && a == p[..|a|] == b[..|a|];
    } else {
      assert a == p[..|a|] && b == p[..|b|] == a[..|b|];
    }
  }

  lemma BelowTrans(a: Path, b: Path, p: Path)
    requires Below(a, b) && Under(b, p)
    ensures Below(a, p)
  {
    assert p[..|a|] == b[..|a|] && p[|a|] == b[|a|];
  }

  /** Neither name is above the other. */
  predicate Unrelated(from: Path, to: Path) { !Under(from, to) && !Under(to, from) }

  /** rename succeeds: something is there, and nothing that it could not replace is at its new place. */
  predicate Movable(m: map<Path, File>, from: Path, to: Path) {
    && !Under(from, to)
    && (exists p | p in m :: Under(from, p))
    && (forall p | p in m :: !Below(to, p))
    && (to in m ==> from in m)
  }

  /** Where the files at or below `from` go when the rename succeeds; it changes nothing otherwise. */
  ghost function Move(m: map<Path, File>, from: Path, to: Path): map<Path, File> {
    if !Movable(m, from, to) then m
    else
      map p | p in MovedKeys(m, from, to) && Origin(p, from, to) in m :: m[Origin(p, from, to)]
  }

  ghost function MovedKeys(m: map<Path, File>, from: Path, to: Path): set<Path> {
    (set p | p in m && !Under(from, p) && !Under(to, p)) + (set p | p in m && Under(from, p) :: Rebase(p, from, to))
  }

  /** Where the file that is at `p` afterwards was before. */
  function Origin(p: Path, from: Path, to: Path): Path {
    if Under(to, p) then Rebase(p, to, from) else p
  }

  lemma MovableApart(m: map<Path, File>, from: Path, to: Path)
    requires Movable(m, from, to)
    ensures Unrelated(from, to)
  {
    var p :| p in m && Under(from, p);
    if Below(to, from) {
      BelowTrans(to, from, p);
    }
  }

  /** The files below the new name are those that were below the old one, and no others. */
  lemma MoveAt(m: map<Path, File>, from: Path, to: Path, p: Path)
    requires Movable(m, from, to)
    ensures var m' := Move(m, from, to);
      && (p in m' <==> Origin(p, from, to) in m && (Under(to, p) || !Under(from, p)))
      && FileAt(m', p) == if Under(to, p) || !Under(from, p) then FileAt(m, Origin(p, from, to)) else []
  {
    MovableApart(m, from, to);
    if Under(to, p) {
      RebaseBack(p, to, from);
      var q := Origin(p, from, to);
      assert Rebase(q, from, to) == p;
      if q in m {
        assert p in MovedKeys(m, from, to);
      }
    } else if p in MovedKeys(m, from, to) && Under(from, p) {
      var q :| q in m && Under(from, q) && Rebase(q, from, to) == p;
      RebaseBack(q, from, to);
    }
  }

  // ----- when a rename moves something

  /**
    A rename changes the table exactly if a file or a directory with files has the
    old name, the new name is not at or below it, no file is below the new name,
    and a file of the new name is replaced by a file only.
   */
  lemma MovesIff(m: map<Path, File>, from: Path, to: Path)
    ensures Move(m, from, to) != m
       <==> && to != from && !Below(from, to)
            && (forall p | p in m :: !Below(to, p))
            && (from in m || (to !in m && exists p :: p in m && Below(from, p)))
  {
    if Movable(m, from, to) {
      var p :| p in m && Under(from, p);
      MovableApart(m, from, to);
      if Under(to, p) {
        UnderBoth(from, to, p);
      }
      MoveAt(m, from, to, p);
    }
  }

  /** A file has the name `a`; `b` is another name that is neither below `a` nor above a file. */
  ghost predicate FileCanMove(m: map<Path, File>, a: Path, b: Path) {
    a in m && b != a && !Below(a, b) && forall p | p in m :: !Below(b, p)
  }

  /** The content is at the new name, whatever was there, and gone from the old one; no other plain file changes. */
  lemma FileMoves(m: map<Path, File>, a: Path, b: Path)
    requires FileCanMove(m, a, b)
    ensures var m' := Move(m, a, b); b in m' && m'[b] == m[a] && a !in m'
    ensures (forall p | p in m :: !Below(a, p)) ==> Move(m, a, b) == (m - {a})[b := m[a]]
  {
    var m', want := Move(m, a, b), (m - {a})[b := m[a]];
    assert Under(a, a) && Rebase(b, b, a) == a;
    MoveAt(m, a, b, b);
    MoveAt(m, a, b, a);
    if forall p | p in m :: !Below(a, p) {
      forall p: Path ensures (p in m' <==> p in want) && FileAt(m', p) == FileAt(want, p) {
        MoveAt(m, a, b, p);
        if Under(b, p) {
          RebaseBack(p, b, a);
        }
      }
      SameTable(m', want);
    }
  }

  lemma SameTable(m: map<Path, File>, n: map<Path, File>)
    requires forall p: Path :: (p in m <==> p in n) && FileAt(m, p) == FileAt(n, p)
    ensures m == n
  {
    forall p | p in m ensures m[p] == n[p] {
      assert FileAt(m, p) == FileAt(n, p);
    }
  }

  /** A directory moves to a free name with every file below it; all other files stay. */
  lemma DirMoves(m: map<Path, File>, a: Path, b: Path, p: Path)
    requires a !in m && b !in m && b != a && !Below(a, b) && forall x | x in m :: !Below(b, x)
    requires p in m
    ensures var m' := Move(m, a, b);
      if Below(a, p) then p !in m' && Rebase(p, a, b) in m' && m'[Rebase(p, a, b)] == m[p]
      else p in m' && m'[p] == m[p]
  {
    if exists x :: x in m && Below(a, x) {
      assert Movable(m, a, b);
      MoveAt(m, a, b, p);
      if Below(a, p) {
        RebaseBack(p, a, b);
        MoveAt(m, a, b, Rebase(p, a, b));
        if Under(b, p) {
          UnderBoth(a, b, p);
        }
      }
    }
  }
}
