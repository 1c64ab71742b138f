/** `mergeHeads(A, B)` against `mergeHeads(B, A)`. */
module Symmetry {
  import opened Bytes
  import opened Paths
  import opened View
  import opened Ancestry
  import opened Order
  import opened MergeHeads

  lemma JoinActorsSymmetric(a: Bytes, b: Bytes)
    ensures JoinActors(a, b) == JoinActors(b, a)
  {
    LessTotal(a, b);
  }

  /** The canonical argument order makes a content merger's own commutativity unnecessary. */
  lemma BothSidesSymmetric(t: Tools, s: Store, p: Path, a: Register, b: Register)
    requires Distinguished(a, b)
    ensures BothSides(t, s, p, a, b) == BothSides(t, s, p, b, a)
  {
    NewerSymmetric(a, b);
    JoinActorsSymmetric(a.actor, b.actor);
    hide NewerOf, JoinActors;
    NewerIsOne(a, b);
  }

  lemma NewerIsOne(a: Register, b: Register)
    ensures NewerOf(a, b) == a || NewerOf(a, b) == b
  {
  }

  /** Where both heads hold a path, equal keys mean equal registers. */
  ghost predicate Telling(v: Sides) {
    forall p :: p in v.a.files && p in v.b.files ==> Distinguished(v.a.files[p], v.b.files[p])
  }

  function Swapped(v: Sides): Sides {
    Sides(v.b, v.a, v.base)
  }

  lemma DecideSymmetric(t: Tools, s: Store, v: Sides, p: Path)
    requires p in v.Paths() && Telling(v)
    ensures p in Swapped(v).Paths() && Decide(t, s, v, p) == Decide(t, s, Swapped(v), p)
  {
    if p in v.a.files && p in v.b.files { BothSidesSymmetric(t, s, p, v.a.files[p], v.b.files[p]); }
    hide BothSides, OneSide;
  }

  lemma {:induction false} ListsSymmetric(t: Tools, s: Store, v: Sides, q: seq<Path>)
    requires Telling(v) && forall p :: p in q ==> p in v.Paths() && p in Swapped(v).Paths()
    ensures LwwPaths(t, s, v, q) == LwwPaths(t, s, Swapped(v), q)
    ensures ContentPaths(t, s, v, q) == ContentPaths(t, s, Swapped(v), q)
  {
    hide Decide, Swapped, Telling;
    if q != [] {
      ListsSymmetric(t, s, v, q[..|q| - 1]);
      DecideSymmetric(t, s, v, q[|q| - 1]);
    }
  }

  lemma SortTwoSymmetric(a: Digest, b: Digest)
    ensures SortTwo(a, b) == SortTwo(b, a)
  {
    LessTotal(a, b);
  }

  lemma SwappedPaths(v: Sides)
    ensures Swapped(v).Paths() == v.Paths()
  {
  }

  lemma JoinSymmetric(t: Tools, s: Store, headA: Digest, headB: Digest, v: Sides)
    requires Sortable(v) && Telling(v)
    ensures Sortable(Swapped(v)) && Join(t, s, headA, headB, v) == Join(t, s, headB, headA, Swapped(v))
  {
    hide Decide, Swapped, Telling, InOrder, AddWinners, LwwPaths, ContentPaths, NoSlash, Sides.Paths;
    var w := Swapped(v);
    SwappedPaths(v);
    forall p | p in v.Paths() ensures Decide(t, s, v, p) == Decide(t, s, w, p) { DecideSymmetric(t, s, v, p); }
    assert Winners(t, s, v) == Winners(t, s, w);
    ListsSymmetric(t, s, v, InOrder(v.Paths()));
    SortTwoSymmetric(headA, headB);
    hide Winners, SortTwo;
  }

  /** No two digests tie for the nearest common ancestor. */
  ghost predicate OneNearest(g: Graph, a: Digest, b: Digest) {
    forall x, y :: Nearest(g, a, b, x) && Nearest(g, a, b, y) ==> x == y
  }

  lemma {:induction false} NearestSymmetric(g: Graph, a: Digest, b: Digest, x: Digest)
    requires Nearest(g, b, a, x)
    ensures Nearest(g, a, b, x)
  {
    forall y, w: nat ensures Common(g, a, b, y, w) <==> Common(g, b, a, y, w) { CommonSymmetric(g, a, b, y, w); }
    hide Common;
  }

  lemma CommonSymmetric(g: Graph, a: Digest, b: Digest, x: Digest, w: nat)
    ensures Common(g, a, b, x, w) <==> Common(g, b, a, x, w)
  {
    hide Shortest;
    if m: nat, n: nat :| Shortest(g, a, x, m) && Shortest(g, b, x, n) && w == Max(m, n) { assert w == Max(n, m); }
    if m: nat, n: nat :| Shortest(g, b, x, m) && Shortest(g, a, x, n) && w == Max(m, n) { assert w == Max(n, m); }
  }

  lemma SameBase(g: Graph, a: Digest, b: Digest, maxWalk: nat, x: Option<Digest>, y: Option<Digest>)
    requires Fits(g, a, maxWalk) && Fits(g, b, maxWalk) && OneNearest(g, a, b)
    requires BaseOf(g, a, b, maxWalk, x) && BaseOf(g, b, a, maxWalk, y)
    ensures x == y
  {
    hide Fits, Chosen;
    if x.Some? { ChosenIsNearest(g, a, b, x.value); }
    if y.Some? { ChosenIsNearest(g, b, a, y.value); NearestSymmetric(g, a, b, y.value); }
    hide Nearest;
    forall d, w: nat ensures Common(g, a, b, d, w) <==> Common(g, b, a, d, w) { CommonSymmetric(g, a, b, d, w); }
    hide Common;
    if x.Some? { NearestIsCommon(g, a, b, x.value); }
    if y.Some? { NearestIsCommon(g, a, b, y.value); }
  }

  lemma NearestIsCommon(g: Graph, a: Digest, b: Digest, x: Digest)
    requires Nearest(g, a, b, x)
    ensures exists w: nat :: Common(g, a, b, x, w)
  {
    hide Common;
  }

  /** In one order or the other: the same digest, blobs and reports. */
  lemma MergeSymmetric(t: Tools, s: Store, a: Digest, b: Digest, maxWalk: nat, o: Outcome, o': Outcome)
    requires Componentwise(s) && Merges(t, s, a, b, maxWalk, o) && Merges(t, s, b, a, maxWalk, o')
    requires var g := ParentsGraph(s);
      && Fits(g, a, maxWalk) && Fits(g, b, maxWalk) && OneNearest(g, a, b)
      && (a == b || !Reaches(g, a, b) || !Reaches(g, b, a))
    requires Loadable(s, a) && Loadable(s, b) ==> (
        forall p :: p in ViewOf(s, a).files && p in ViewOf(s, b).files ==> Distinguished(ViewOf(s, a).files[p], ViewOf(s, b).files[p]))
    ensures o == o'
  {
    if a != b {
      hide Answers, BaseOf, JoinFrom, ViewOf, Fits, OneNearest, Reaches, Componentwise, Distinguished, Loadable, ParentsGraph;
      var g := ParentsGraph(s);
      var ab, ba, x :| Answers(g, b, a, maxWalk, ab) && Answers(g, a, b, maxWalk, ba) && BaseOf(g, a, b, maxWalk, x)
        && o == if ab then Ahead(a) else if ba then Ahead(b) else JoinFrom(t, s, a, b, x);
      var ba', ab', y :| Answers(g, a, b, maxWalk, ba') && Answers(g, b, a, maxWalk, ab') && BaseOf(g, b, a, maxWalk, y)
        && o' == if ba' then Ahead(b) else if ab' then Ahead(a) else JoinFrom(t, s, b, a, y);
      AnswerIs(g, b, a, maxWalk, ab);
      AnswerIs(g, b, a, maxWalk, ab');
      AnswerIs(g, a, b, maxWalk, ba);
      AnswerIs(g, a, b, maxWalk, ba');
      SameBase(g, a, b, maxWalk, x, y);
      JoinFromSymmetric(t, s, a, b, x);
    }
  }

  lemma AnswerIs(g: Graph, ancestor: Digest, head: Digest, maxWalk: nat, r: bool)
    requires Answers(g, ancestor, head, maxWalk, r) && Fits(g, head, maxWalk)
    ensures r <==> Reaches(g, head, ancestor)
  {
  }

  lemma JoinFromSymmetric(t: Tools, s: Store, a: Digest, b: Digest, base: Option<Digest>)
    requires Componentwise(s)
    requires Loadable(s, a) && Loadable(s, b) ==> (
        forall p :: p in ViewOf(s, a).files && p in ViewOf(s, b).files ==> Distinguished(ViewOf(s, a).files[p], ViewOf(s, b).files[p]))
    ensures JoinFrom(t, s, a, b, base) == JoinFrom(t, s, b, a, base)
  {
    hide Join, ViewOf, Componentwise, Loadable, Distinguished;
    if Loadable(s, a) && Loadable(s, b) && (base.Some? ==> Loadable(s, base.value)) {
      ViewNoSlash(s, a);
      ViewNoSlash(s, b);
      JoinSymmetric(t, s, a, b, SidesOf(s, a, b, base));
    }
  }

  /** Without a content merger the choice is symmetric exactly when equal keys mean equal registers. */
  lemma SymmetricIff(t: Tools, s: Store, p: Path, a: Register, b: Register)
    requires t.merger(p).None? || SameEntry(a, b)
    ensures BothSides(t, s, p, a, b) == BothSides(t, s, p, b, a) <==> Distinguished(a, b)
  {
    NewerIsGreater(a, b);
    NewerIsGreater(b, a);
    KeyTotal(KeyOf(a), KeyOf(b));
    hide NewerOf, KeyLess;
  }
}
