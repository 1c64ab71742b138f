/** The lexicographic order JavaScript's `<` and default sort use on strings. */
module Order {
  import opened Bytes
  import opened Paths
  import opened PathText
  import Workspace

  predicate Less(a: Bytes, b: Bytes) {
    if b == [] then false
    else if a == [] then true
    else a[0] < b[0] || (a[0] == b[0] && Less(a[1..], b[1..]))
  }

  lemma {:induction false} LessTotal(a: Bytes, b: Bytes)
    ensures Less(a, b) || a == b || Less(b, a)
    ensures !(Less(a, b) && Less(b, a)) && !(Less(a, b) && a == b)
  {
    if a != [] && b != [] {
      LessTotal(a[1..], b[1..]);
      assert a == [a[0]] + a[1..] && b == [b[0]] + b[1..];
    }
  }

  lemma {:induction false} LessTransitive(a: Bytes, b: Bytes, c: Bytes)
    requires Less(a, b) && Less(b, c)
    ensures Less(a, c)
  {
    if a != [] && b != [] && c != [] && a[0] == b[0] == c[0] { LessTransitive(a[1..], b[1..], c[1..]); }
  }

  // --- sorted path lists -----------------------------------------------------------------

  predicate NoSlash(p: Path) {
    forall i :: 0 <= i < |p| ==> Workspace.SLASH !in p[i]
  }

  predicate PathLess(p: Path, q: Path) {
    Less(Render(p), Render(q))
  }

  lemma {:induction false} RenderInjective(p: Path, q: Path)
    requires NoSlash(p) && NoSlash(q) && Render(p) == Render(q)
    ensures p == q
    decreases |p|
  {
    if p != [] && q != [] {
      var s, t := Render(p[..|p| - 1]), Render(q[..|q| - 1]);
      LastSlashIs(s, p[|p| - 1]);
      LastSlashIs(t, q[|q| - 1]);
      assert Render(p)[..|s|] == s && Render(q)[..|t|] == t;
      assert Render(p)[|s| + 1..] == p[|p| - 1] && Render(q)[|t| + 1..] == q[|q| - 1];
      RenderInjective(p[..|p| - 1], q[..|q| - 1]);
      assert p == p[..|p| - 1] + [p[|p| - 1]] && q == q[..|q| - 1] + [q[|q| - 1]];
    }
  }

  lemma PathLessTotal(p: Path, q: Path)
    requires NoSlash(p) && NoSlash(q)
    ensures PathLess(p, q) || p == q || PathLess(q, p)
    ensures !(PathLess(p, q) && PathLess(q, p)) && !(PathLess(p, q) && p == q)
  {
    LessTotal(Render(p), Render(q));
    if Render(p) == Render(q) { RenderInjective(p, q); }
  }

  ghost predicate Sorted(q: seq<Path>) {
    forall i, j :: 0 <= i < j < |q| ==> PathLess(q[i], q[j])
  }

  predicate First(p: Path, s: set<Path>) {
    p in s && forall o :: o in s && o != p ==> PathLess(p, o)
  }

  lemma {:induction false} FirstExists(s: set<Path>)
    requires s != {} && forall p :: p in s ==> NoSlash(p)
    ensures exists p :: First(p, s)
  {
    hide PathLess, NoSlash;
    var x :| x in s;
    var rest := s - {x};
    if rest == {} {
      assert forall o :: o in s && o != x ==> o in rest;
      assert First(x, s);
    } else {
      FirstExists(rest);
      var y :| First(y, rest);
      PathLessTotal(x, y);
      if PathLess(x, y) {
        forall o | o in s && o != x ensures PathLess(x, o) {
          if o != y { PathLessTransitive(x, y, o); }
        }
        assert First(x, s);
      } else {
        assert First(y, s);
      }
    }
  }

  lemma PathLessTransitive(p: Path, q: Path, r: Path)
    requires PathLess(p, q) && PathLess(q, r)
    ensures PathLess(p, r)
  {
    LessTransitive(Render(p), Render(q), Render(r));
  }

  /** The one sorted listing of `s`. */
  ghost function InOrder(s: set<Path>): (q: seq<Path>)
    requires forall p :: p in s ==> NoSlash(p)
    ensures Lists(q, s) && Sorted(q)
  {
    if s == {} then []
    else
      FirstExists(s);
      var p :| First(p, s);
      FirstThen(p, s, InOrder(s - {p}));
      [p] + InOrder(s - {p})
  }

  lemma FirstThen(p: Path, s: set<Path>, q: seq<Path>)
    requires First(p, s) && Lists(q, s - {p}) && Sorted(q)
    ensures Lists([p] + q, s) && Sorted([p] + q)
  {
    hide PathLess;
    var r := [p] + q;
    forall x ensures x in r <==> x in s { assert x in r <==> x == p || x in q; }
    forall i, j | 0 <= i < j < |r| ensures r[i] != r[j] && PathLess(r[i], r[j]) {
      assert r[j] == q[j - 1] && q[j - 1] in q;
      if i > 0 { assert r[i] == q[i - 1]; }
    }
  }

  /** The paths of `s` in string order. */
  method SortPaths(s: set<Path>) returns (q: seq<Path>)
    requires forall p :: p in s ==> NoSlash(p)
    ensures q == InOrder(s)
  {
    hide PathLess, NoSlash, InOrder;
    q := [];
    var rest := s;
    while rest != {}
      invariant rest <= s && Lists(q, s - rest) && Sorted(q)
      invariant forall p, o :: p in q && o in rest ==> PathLess(p, o)
      decreases rest
    {
      FirstExists(rest);
      var p :| p in rest && First(p, rest);
      q := q + [p];
      rest := rest - {p};
    }
    SortedUnique(q, InOrder(s), s);
  }

  /** A set has only one sorted listing. */
  lemma {:induction false} SortedUnique(q: seq<Path>, r: seq<Path>, s: set<Path>)
    requires Lists(q, s) && Lists(r, s) && Sorted(q) && Sorted(r)
    requires forall p :: p in s ==> NoSlash(p)
    ensures q == r
    decreases |q|
  {
    hide PathLess, NoSlash;
    ListsEmpty(q, s);
    ListsEmpty(r, s);
    if q != [] && r != [] {
      assert q[0] in r && r[0] in q;
      var i :| 0 <= i < |r| && r[i] == q[0];
      var j :| 0 <= j < |q| && q[j] == r[0];
      PathLessTotal(q[0], r[0]);
      assert q[0] == r[0];
      ListsTail(q, s);
      ListsTail(r, s);
      SortedUnique(q[1..], r[1..], s - {q[0]});
    }
  }

  lemma ListsEmpty(q: seq<Path>, s: set<Path>)
    requires Lists(q, s)
    ensures q == [] <==> s == {}
  {
    if q != [] { assert q[0] in s; }
  }

  lemma ListsMembers(q: seq<Path>, s: set<Path>)
    requires Lists(q, s)
    ensures forall p :: p in q <==> p in s
  {
  }

  lemma ListsTail(q: seq<Path>, s: set<Path>)
    requires Lists(q, s) && q != []
    ensures Lists(q[1..], s - {q[0]})
  {
    assert q == [q[0]] + q[1..];
  }
}
