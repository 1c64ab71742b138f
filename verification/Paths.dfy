/** Absolute pod paths as sequences of components; `[]` is the filesystem root. */
module Paths {
  import opened Bytes

  type Name = Bytes
  type Path = seq<Name>

  /** `a` is a proper ancestor of `p`. */
  predicate Above(a: Path, p: Path) {
    |a| < |p| && p[..|a|] == a
  }

  function Parent(p: Path): Path
    requires p != []
  {
    p[..|p| - 1]
  }

  lemma AboveParent(p: Path)
    requires p != []
    ensures Above(Parent(p), p)
    ensures forall a :: Above(a, p) <==> a == Parent(p) || Above(a, Parent(p))
  {
    forall a | Above(a, p) && a != Parent(p)
      ensures Above(a, Parent(p))
    {
      assert Parent(p)[..|a|] == p[..|a|];
    }
    forall a | Above(a, Parent(p))
      ensures Above(a, p)
    {
      assert Parent(p)[..|a|] == p[..|a|];
    }
  }

  lemma AboveTransitive(a: Path, b: Path, c: Path)
    requires Above(a, b) && Above(b, c)
    ensures Above(a, c)
  {
    assert c[..|a|] == c[..|b|][..|a|];
  }

  /** Two ancestors of one path lie on one line. */
  lemma AboveLinear(a: Path, b: Path, p: Path)
    requires Above(a, p) && (b == p || Above(b, p)) && |a| < |b|
    ensures Above(a, b)
  {
    assert b[..|a|] == p[..|b|][..|a|] == p[..|a|];
  }

  // --- depth orders -------------------------------------------------------------

  /** `q` lists exactly the paths of `s`, once each. */
  ghost predicate Lists(q: seq<Path>, s: set<Path>) {
    && (forall p :: p in q <==> p in s)
    && (forall i, j :: 0 <= i < j < |q| ==> q[i] != q[j])
  }

  ghost predicate ShallowOrder(q: seq<Path>) {
    forall i, j :: 0 <= i < j < |q| ==> |q[i]| <= |q[j]|
  }

  ghost predicate DeepOrder(q: seq<Path>) {
    forall i, j :: 0 <= i < j < |q| ==> |q[i]| >= |q[j]|
  }

  predicate Shallowest(p: Path, s: set<Path>) {
    p in s && forall o :: o in s ==> |p| <= |o|
  }

  lemma {:induction false} ShallowestExists(s: set<Path>)
    requires s != {}
    ensures exists p :: Shallowest(p, s)
  {
    var x :| x in s;
    var rest := s - {x};
    if rest == {} {
      assert forall o :: o in s && o != x ==> o in rest;
      assert Shallowest(x, s);
    } else {
      ShallowestExists(rest);
      var y :| Shallowest(y, rest);
      assert Shallowest(if |x| <= |y| then x else y, s);
    }
  }

  /** The paths of `s` by increasing depth; paths of equal depth come in any order. */
  method ShallowFirst(s: set<Path>) returns (q: seq<Path>)
    ensures Lists(q, s) && ShallowOrder(q)
  {
    q := [];
    var rest := s;
    while rest != {}
      invariant rest <= s
      invariant Lists(q, s - rest) && ShallowOrder(q)
      invariant forall p, o :: p in q && o in rest ==> |p| <= |o|
    {
      ShallowestExists(rest);
      var p :| p in rest && Shallowest(p, rest);
      q := q + [p];
      rest := rest - {p};
    }
  }

  /** The paths of `s` by decreasing depth. */
  method DeepFirst(s: set<Path>) returns (q: seq<Path>)
    ensures Lists(q, s) && DeepOrder(q)
  {
    var up := ShallowFirst(s);
    q := seq(|up|, i requires 0 <= i < |up| => up[|up| - 1 - i]);
    forall p
      ensures p in q <==> p in s
    {
      if p in s {
        var i :| 0 <= i < |up| && up[i] == p;
        assert q[|up| - 1 - i] == p;
      }
    }
  }
}
