/** Exactly which trees share their hashed stream with a different tree. */
module TreeAmbiguity {
  import opened TreeDigest

  /** The covered part of a tree, the part the digest speaks about. */
  ghost function Part(t: Tree): Tree {
    map p | p in Covered(t) :: t[p]
  }

  /** A covered name that reads as lying below a covered directory. */
  ghost predicate ReadsBelow(t: Tree, p: Rel, dir: Rel) {
    && p in Covered(t) && dir in Covered(t) && t[dir].Directory?
    && NameOf(dir) + "/" < NameOf(p)
  }

  ghost predicate DistinctNames(t: Tree) {
    forall p, q | p in Covered(t) && q in Covered(t) && NameOf(p) == NameOf(q) :: p == q
  }

  /** A different covered tree whose entries hash alike. */
  ghost predicate Twin(t: Tree, u: Tree) {
    WellFormed(u) && DistinctNames(u) && Items(u) == Items(t) && Part(u) != Part(t)
  }

  // ----- names of nested and flat entries

  lemma {:induction false} SlashesAppend(a: string, b: string)
    ensures Slashes(a + b) == Slashes(a) + Slashes(b)
  {
    if a == "" {
      assert a + b == b;
    } else {
      assert (a + b)[1..] == a[1..] + b;
      SlashesAppend(a[1..], b);
    }
  }

  lemma {:induction false} JoinAppend(parts: seq<string>, last: string)
    requires parts != []
    ensures Join(parts + [last]) == Join(parts) + "/" + last
  {
    if |parts| == 1 {
      assert (parts + [last])[1..] == [last];
      assert Join([last]) == last;
    } else {
      assert (parts + [last])[1..] == parts[1..] + [last];
      JoinAppend(parts[1..], last);
    }
  }

  /** The name of a nested entry continues its directory's name. */
  lemma NestedName(t: Tree, p: Rel)
    requires WellFormed(t) && p in Covered(t) && |p.parts| >= 2
    ensures ReadsBelow(t, p, Parent(p))
  {
    var n := |p.parts| - 1;
    var dir, last := p.parts[..n], p.parts[n];
    assert p.parts == dir + [last];
    JoinAppend(dir, last);
    SlashesAppend(Join(dir) + "/", last);
    SlashesAppend(Join(dir), "/");
    assert Slashes("/") == "/";
    SlashesInPlace(last);
    assert NameOf(p) == NameOf(Parent(p)) + "/" + Slashes(last);
  }

  predicate Flat(p: Rel) {
    |p.parts| == 1
  }

  /** Components of flat entries are told apart by their names. */
  lemma FlatInjective(p: Rel, q: Rel)
    requires Flat(p) && Flat(q) && '/' !in p.parts[0] && '/' !in q.parts[0] && NameOf(p) == NameOf(q)
    ensures p == q
  {
    var a, b := p.parts[0], q.parts[0];
    SlashesInPlace(a);
    SlashesInPlace(b);
    assert Slashes(a) == Slashes(b);
    forall i | 0 <= i < |a| ensures a[i] == b[i] {
      assert a[i] in a && b[i] in b;
    }
    assert a == b;
    assert p.parts == [a] && q.parts == [b];
  }

  // ----- a twin shows a name that reads as nested

  lemma TwinMember(t: Tree, u: Tree, p: Rel) returns (q: Rel)
    requires Items(t) == Items(u) && p in Covered(t)
    ensures q in Covered(u) && ItemOf(u, q) == ItemOf(t, p)
    ensures NameOf(q) == NameOf(p) && u[q] == t[p]
  {
    assert ItemOf(t, p) in Items(u);
    q :| q in Covered(u) && ItemOf(u, q) == ItemOf(t, p);
  }

  /** What reads as nested in one tree reads so in every tree with the same items. */
  lemma ReadsBelowCarries(t: Tree, u: Tree, p: Rel, dir: Rel) returns (q: Rel, up: Rel)
    requires Items(t) == Items(u) && ReadsBelow(u, p, dir)
    ensures ReadsBelow(t, q, up)
  {
    q := TwinMember(u, t, p);
    up := TwinMember(u, t, dir);
  }

  lemma FlatTwinsAgree(t: Tree, u: Tree)
    requires WellFormed(t) && WellFormed(u) && Items(t) == Items(u)
    requires (forall p | p in Covered(t) :: Flat(p)) && (forall p | p in Covered(u) :: Flat(p))
    ensures Part(t) == Part(u)
  {
    forall p | p in Covered(t) ensures p in Covered(u) && u[p] == t[p] {
      var q := TwinMember(t, u, p);
      FlatInjective(p, q);
    }
    forall p | p in Covered(u) ensures p in Covered(t) {
      var q := TwinMember(u, t, p);
      FlatInjective(p, q);
    }
  }

  lemma TwinIsNested(t: Tree, u: Tree)
    requires WellFormed(t) && Twin(t, u)
    ensures exists p, dir :: ReadsBelow(t, p, dir)
  {
    if p :| p in Covered(t) && !Flat(p) {
      NestedName(t, p);
    } else if q :| q in Covered(u) && !Flat(q) {
      NestedName(u, q);
      var p, dir := ReadsBelowCarries(t, u, q, Parent(q));
    } else {
      FlatTwinsAgree(t, u);
    }
  }

  // ----- flattening a nested tree

  function Back(s: string): string {
    if s == "" then "" else [if s[0] == '/' then '\\' else s[0]] + Back(s[1..])
  }

  lemma {:induction false} BackFacts(s: string)
    ensures '/' !in Back(s) && |Back(s)| == |s|
    ensures Slashes(Back(s)) == Slashes(s)
  {
    if s != "" { BackFacts(s[1..]); }
  }

  lemma {:induction false} SlashesTwice(s: string)
    ensures Slashes(Slashes(s)) == Slashes(s)
  {
    if s != "" { SlashesTwice(s[1..]); }
  }

  /** The one-component path that reads like `p`. */
  function Flattened(p: Rel): Rel {
    Rel([Back(NameOf(p))])
  }

  lemma FlattenedName(p: Rel)
    ensures NameOf(Flattened(p)) == NameOf(p)
    ensures '/' !in Flattened(p).parts[0]
  {
    BackFacts(NameOf(p));
    SlashesTwice(Join(p.parts));
  }

  lemma NameIsNotEmpty(t: Tree, p: Rel)
    requires WellFormed(t) && p in t
    ensures NameOf(p) != "" && Back(NameOf(p)) != ""
  {
    assert p.parts[0] != "";
    assert Join(p.parts) != "";
    SlashesInPlace(Join(p.parts));
    BackFacts(NameOf(p));
  }

  lemma FlattenedListed(p: Rel)
    requires Listed(p) && p != ROOT
    ensures Listed(Flattened(p))
  {
    FlattenedName(p);
    assert Parent(Flattened(p)) == ROOT;
  }

  /** Distinct names make the flattening one to one. */
  lemma FlattenedInjective(t: Tree, p: Rel, q: Rel)
    requires DistinctNames(t) && p in Covered(t) && q in Covered(t) && Flattened(p) == Flattened(q)
    ensures p == q
  {
    FlattenedName(p);
    FlattenedName(q);
  }

  ghost function FlatPaths(t: Tree): set<Rel> {
    set p | p in Covered(t) :: Flattened(p)
  }

  ghost function Source(t: Tree, f: Rel): (p: Rel)
    requires f in FlatPaths(t)
    ensures p in Covered(t) && Flattened(p) == f
  {
    var p :| p in Covered(t) && Flattened(p) == f;
    p
  }

  ghost function FlatTree(t: Tree): Tree {
    map f | f in FlatPaths(t) :: t[Source(t, f)]
  }

  lemma FlatTreeEntry(t: Tree, p: Rel)
    requires WellFormed(t) && DistinctNames(t) && p in Covered(t)
    ensures var f := Flattened(p);
            f in Covered(FlatTree(t)) && ItemOf(FlatTree(t), f) == ItemOf(t, p)
  {
    var f := Flattened(p);
    assert f in FlatPaths(t);
    FlattenedInjective(t, p, Source(t, f));
    FlattenedListed(p);
    FlattenedName(p);
  }

  lemma FlatTreeShape(t: Tree, f: Rel)
    requires WellFormed(t) && f in FlatTree(t)
    ensures Flat(f) && Parent(f) == ROOT && '/' !in f.parts[0] && f.parts[0] != ""
  {
    FlattenedName(Source(t, f));
    NameIsNotEmpty(t, Source(t, f));
    assert f.parts[..0] == [];
  }

  lemma FlatTreeWellFormed(t: Tree)
    requires WellFormed(t)
    ensures WellFormed(FlatTree(t)) && DistinctNames(FlatTree(t))
  {
    var u := FlatTree(t);
    forall f | f in u ensures Flat(f) && Parent(f) == ROOT && '/' !in f.parts[0] && f.parts[0] != "" {
      FlatTreeShape(t, f);
    }
    forall f, g | f in Covered(u) && g in Covered(u) && NameOf(f) == NameOf(g) ensures f == g {
      FlatInjective(f, g);
    }
  }

  lemma FlatTreeIsTwin(t: Tree, p: Rel)
    requires WellFormed(t) && DistinctNames(t) && p in Covered(t) && !Flat(p)
    ensures Twin(t, FlatTree(t))
  {
    var u := FlatTree(t);
    FlatTreeWellFormed(t);
    assert Items(u) == Items(t) by {
      forall x ensures x in Items(u) <==> x in Items(t) {
        FlatTreeItems(t, x);
      }
    }
    assert p in Part(t);
    if p in u { FlatTreeShape(t, p); }
  }

  lemma FlatTreeItems(t: Tree, x: Item)
    requires WellFormed(t) && DistinctNames(t)
    ensures x in Items(FlatTree(t)) <==> x in Items(t)
  {
    var u := FlatTree(t);
    if x in Items(t) {
      var p :| p in Covered(t) && x == ItemOf(t, p);
      FlatTreeEntry(t, p);
    }
    if x in Items(u) {
      var f :| f in Covered(u) && x == ItemOf(u, f);
      FlatTreeEntry(t, Source(t, f));
    }
  }

  // ----- nesting an entry of a flat tree

  /** The path that puts the part of a flat name after the directory's name inside the directory. */
  function Nested(p: Rel, dir: Rel): Rel
    requires Flat(p) && Flat(dir) && |dir.parts[0]| < |p.parts[0]|
  {
    Rel([dir.parts[0], p.parts[0][|dir.parts[0]| + 1..]])
  }

  lemma NestedReadsAlike(t: Tree, p: Rel, dir: Rel)
    requires WellFormed(t) && ReadsBelow(t, p, dir) && Flat(p) && Flat(dir)
    ensures |dir.parts[0]| + 1 < |p.parts[0]|
    ensures NameOf(Nested(p, dir)) == NameOf(p)
    ensures var q := Nested(p, dir); Parent(q) == dir && '/' !in q.parts[1] && q.parts[1] != ""
  {
    var a, d := p.parts[0], dir.parts[0];
    SlashesInPlace(a);
    SlashesInPlace(d);
    assert NameOf(p) == Slashes(a) && NameOf(dir) == Slashes(d);
    var q := Nested(p, dir);
    assert q.parts == [d] + [q.parts[1]];
    JoinAppend([d], q.parts[1]);
    var b := d + "/" + q.parts[1];
    assert Join(q.parts) == b && |b| == |a|;
    SlashesInPlace(b);
    forall i | 0 <= i < |a| ensures Slashes(a)[i] == Slashes(b)[i] {
      if i <= |d| { assert Slashes(a)[i] == (Slashes(d) + "/")[i]; }
    }
    assert Slashes(a) == Slashes(b);
    assert Parent(q).parts == [d];
  }

  ghost function Renested(t: Tree, p: Rel, dir: Rel): Tree
    requires p in t && Flat(p) && Flat(dir) && |dir.parts[0]| < |p.parts[0]|
  {
    (map x | x in Covered(t) && x != p :: t[x])[Nested(p, dir) := t[p]]
  }

  lemma RenestedShape(t: Tree, p: Rel, dir: Rel)
    requires WellFormed(t) && ReadsBelow(t, p, dir)
    requires forall x | x in Covered(t) :: Flat(x)
    ensures |dir.parts[0]| < |p.parts[0]|
    ensures WellFormed(Renested(t, p, dir))
  {
    NestedReadsAlike(t, p, dir);
    var q, u := Nested(p, dir), Renested(t, p, dir);
    assert dir in u && u[dir].Directory?;
    forall x | x in u && x != q ensures Parent(x) == ROOT { assert x.parts[..0] == []; }
  }

  lemma RenestedNames(t: Tree, p: Rel, dir: Rel)
    requires WellFormed(t) && DistinctNames(t) && ReadsBelow(t, p, dir)
    requires forall x | x in Covered(t) :: Flat(x)
    ensures |dir.parts[0]| < |p.parts[0]|
    ensures DistinctNames(Renested(t, p, dir))
  {
    NestedReadsAlike(t, p, dir);
    RenestedCovered(t, p, dir);
    var q, u := Nested(p, dir), Renested(t, p, dir);
    forall x, y | x in Covered(u) && y in Covered(u) && NameOf(x) == NameOf(y) ensures x == y {
      var a, b := if x == q then p else x, if y == q then p else y;
      assert a in Covered(t) && b in Covered(t) && NameOf(a) == NameOf(b);
    }
  }

  lemma RenestedIsTwin(t: Tree, p: Rel, dir: Rel)
    requires WellFormed(t) && DistinctNames(t) && ReadsBelow(t, p, dir)
    requires forall x | x in Covered(t) :: Flat(x)
    ensures |dir.parts[0]| < |p.parts[0]| && Twin(t, Renested(t, p, dir))
  {
    NestedReadsAlike(t, p, dir);
    RenestedShape(t, p, dir);
    RenestedNames(t, p, dir);
    RenestedItems(t, p, dir);
    RenestedDiffers(t, p, dir);
  }

  lemma RenestedDiffers(t: Tree, p: Rel, dir: Rel)
    requires p in Covered(t) && Flat(p) && Flat(dir) && |dir.parts[0]| < |p.parts[0]|
    ensures Part(Renested(t, p, dir)) != Part(t)
  {
    assert p in Part(t) && p !in Renested(t, p, dir);
  }

  lemma RenestedCovered(t: Tree, p: Rel, dir: Rel)
    requires WellFormed(t) && ReadsBelow(t, p, dir)
    requires forall x | x in Covered(t) :: Flat(x)
    ensures |dir.parts[0]| < |p.parts[0]|
    ensures Covered(Renested(t, p, dir)) == Covered(t) - {p} + {Nested(p, dir)}
  {
    NestedReadsAlike(t, p, dir);
    assert NameOf(p) != RECEIPT && Listed(Nested(p, dir));
  }

  lemma RenestedItems(t: Tree, p: Rel, dir: Rel)
    requires WellFormed(t) && ReadsBelow(t, p, dir)
    requires forall x | x in Covered(t) :: Flat(x)
    ensures |dir.parts[0]| < |p.parts[0]|
    ensures Items(Renested(t, p, dir)) == Items(t)
  {
    NestedReadsAlike(t, p, dir);
    RenestedCovered(t, p, dir);
    var q, u := Nested(p, dir), Renested(t, p, dir);
    assert q !in Covered(t);
    assert ItemOf(u, q) == ItemOf(t, p);
    forall x | x in Items(t) ensures x in Items(u) {
      var r :| r in Covered(t) && x == ItemOf(t, r);
      if r != p { assert r in Covered(u) && ItemOf(u, r) == x; }
    }
    forall x | x in Items(u) ensures x in Items(t) {
      var r :| r in Covered(u) && x == ItemOf(u, r);
      if r != q { assert ItemOf(t, r) == x; }
    }
  }

  /**
   * A tree shares its stream with a different tree exactly when one of its recorded names reads as
   * lying below one of its directories.
   */
  lemma AmbiguousIffNested(t: Tree)
    requires WellFormed(t) && DistinctNames(t)
    ensures (exists u :: Twin(t, u)) <==> (exists p, dir :: ReadsBelow(t, p, dir))
  {
    if u :| Twin(t, u) {
      TwinIsNested(t, u);
    }
    if p, dir :| ReadsBelow(t, p, dir) {
      if x :| x in Covered(t) && !Flat(x) {
        FlatTreeIsTwin(t, x);
      } else {
        RenestedIsTwin(t, p, dir);
        assert Twin(t, Renested(t, p, dir));
      }
    }
  }

  lemma {:induction false} ItemCount(t: Tree, paths: set<Rel>)
    requires DistinctNames(t) && paths <= Covered(t)
    ensures |set p | p in paths :: ItemOf(t, p)| == |paths|
  {
    if paths != {} {
      var q :| q in paths;
      var rest := paths - {q};
      ItemCount(t, rest);
      assert (set p | p in paths :: ItemOf(t, p)) == (set p | p in rest :: ItemOf(t, p)) + {ItemOf(t, q)};
      assert forall p | p in rest :: ItemOf(t, p).name == NameOf(p);
    }
  }

  /** The checks on names and numbers accept both trees of such a pair or neither. */
  lemma TwinIsAccepted(t: Tree, u: Tree, valid: string -> bool)
    requires Acceptable(t, valid) && DistinctNames(t) && Twin(t, u)
    ensures Acceptable(u, valid)
  {
    forall p | p in Covered(u) ensures valid(NameOf(p)) {
      var a := TwinMember(u, t, p);
    }
    forall p, q | p in Covered(u) && q in Covered(u) && p != q ensures LowerAscii(NameOf(p)) != LowerAscii(NameOf(q)) {
      var a := TwinMember(u, t, p);
      var b := TwinMember(u, t, q);
    }
    ItemCount(t, Covered(t));
    ItemCount(u, Covered(u));
  }
}
