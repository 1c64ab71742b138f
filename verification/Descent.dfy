/** New heads descend from the heads they were made of, and what merges make of that. */
module Descent {
  import opened Bytes
  import opened Paths
  import opened View
  import opened Order
  import opened Ancestry
  import opened MergeHeads
  import MergedView
  import Overlay

  // --- growing histories -----------------------------------------------------------------------

  /** Whatever `g` knows of a digest, `h` knows too. */
  ghost predicate Extends(g: Graph, h: Graph) {
    forall d :: d in g ==> d in h && h[d] == g[d]
  }

  lemma {:induction false} StepsMore(g: Graph, h: Graph, head: Digest, d: Digest, n: nat)
    requires Extends(g, h) && Steps(g, head, d, n)
    ensures Steps(h, head, d, n)
    decreases n
  {
    if n > 0 {
      var u :| Steps(g, head, u, n - 1) && d in Parents(g, u);
      StepsMore(g, h, head, u, n - 1);
      assert Parents(h, u) == Parents(g, u);
    }
  }

  lemma {:induction false} StepsChild(g: Graph, child: Digest, p: Digest, d: Digest, n: nat)
    requires p in Parents(g, child) && Steps(g, p, d, n)
    ensures Steps(g, child, d, n + 1)
    decreases n
  {
    if n == 0 {
      assert Steps(g, child, child, 0);
    } else {
      var u :| Steps(g, p, u, n - 1) && d in Parents(g, u);
      StepsChild(g, child, p, u, n - 1);
    }
  }

  /** What a parent reaches, the child reaches, in every larger history. */
  lemma ChildReaches(g: Graph, h: Graph, child: Digest, p: Digest, d: Digest)
    requires Extends(g, h) && p in Parents(h, child) && Reaches(g, p, d)
    ensures Reaches(h, child, d)
  {
    var n: nat :| Steps(g, p, d, n);
    StepsMore(g, h, p, d, n);
    StepsChild(h, child, p, d, n);
  }

  lemma {:induction false} FirstStep(g: Graph, child: Digest, d: Digest, n: nat) returns (p: Digest)
    requires Steps(g, child, d, n) && n > 0
    ensures p in Parents(g, child) && Steps(g, p, d, n - 1)
    decreases n
  {
    var u :| Steps(g, child, u, n - 1) && d in Parents(g, u);
    if n == 1 { p := d; } else { p := FirstStep(g, child, u, n - 1); }
  }

  /** `h` is `g` with at most one more manifest, under `added`. */
  ghost predicate Adds(g: Graph, h: Graph, added: Digest) {
    Extends(g, h) && added in h && forall d :: d in h && d != added ==> d in g
  }

  /** A parent of the added manifest already reaches `d`. */
  ghost predicate Known(g: Graph, h: Graph, added: Digest, d: Digest) {
    exists p :: p in Parents(h, added) && Reaches(g, p, d)
  }

  lemma KnownNext(g: Graph, h: Graph, added: Digest, u: Digest, d: Digest)
    requires Adds(g, h, added) && Known(g, h, added, u) && d in Parents(h, u)
    ensures Known(g, h, added, d)
  {
    if u in g {
      var p :| p in Parents(h, added) && Reaches(g, p, u);
      var m: nat :| Steps(g, p, u, m);
      assert d in Parents(g, u);
      StepsExtend(g, p, u, m);
      assert Steps(g, p, d, m + 1);
    } else {
      assert Steps(g, d, d, 0);
    }
  }

  lemma {:induction false} NothingElse(g: Graph, h: Graph, added: Digest, p: Digest, d: Digest, n: nat)
    requires Adds(g, h, added) && p in Parents(h, added) && Steps(h, p, d, n)
    ensures Known(g, h, added, d)
    decreases n
  {
    if n == 0 {
      assert Steps(g, p, p, 0);
    } else {
      var u :| Steps(h, p, u, n - 1) && d in Parents(h, u);
      NothingElse(g, h, added, p, u, n - 1);
      KnownNext(g, h, added, u, d);
    }
  }

  /** The history of an added manifest: itself, and what its parents had behind them. */
  lemma AddedReaches(g: Graph, h: Graph, added: Digest, d: Digest)
    requires Adds(g, h, added)
    ensures Reaches(h, added, d) <==> d == added || Known(g, h, added, d)
  {
    assert Steps(h, added, added, 0);
    if Known(g, h, added, d) {
      var p :| p in Parents(h, added) && Reaches(g, p, d);
      ChildReaches(g, h, added, p, d);
    }
    if Reaches(h, added, d) && d != added {
      var n: nat :| Steps(h, added, d, n);
      var p := FirstStep(h, added, d, n);
      NothingElse(g, h, added, p, d, n - 1);
    }
  }

  /** A digest depends on the parents it names, so no history returns to itself. */
  ghost predicate Acyclic(g: Graph) {
    forall d, n: nat :: n > 0 ==> !Steps(g, d, d, n)
  }

  lemma {:induction false} StepsAdd(g: Graph, a: Digest, b: Digest, c: Digest, m: nat, n: nat)
    requires Steps(g, a, b, m) && Steps(g, b, c, n)
    ensures Steps(g, a, c, m + n)
    decreases n
  {
    if n > 0 {
      var u :| Steps(g, b, u, n - 1) && c in Parents(g, u);
      StepsAdd(g, a, b, u, m, n - 1);
    }
  }

  /** No parent descends from its child. */
  lemma NotBack(g: Graph, child: Digest, p: Digest)
    requires Acyclic(g) && p in Parents(g, child)
    ensures p != child && !Reaches(g, p, child)
  {
    if Reaches(g, p, child) {
      var n: nat :| Steps(g, p, child, n);
      StepsChild(g, child, p, child, n);
    }
    assert Steps(g, child, child, 0);
  }

  /** Merging a head with one made of it moves on to the newer one, in either order. */
  lemma FastForward(t: Tools, s: Store, before: Digest, after: Digest, maxWalk: nat, o: Outcome)
    requires Componentwise(s) && Acyclic(ParentsGraph(s)) && before in Parents(ParentsGraph(s), after) && Fits(ParentsGraph(s), after, maxWalk)
    requires Merges(t, s, before, after, maxWalk, o) || Merges(t, s, after, before, maxWalk, o)
    ensures o == Ahead(after)
  {
    var g := ParentsGraph(s);
    NotBack(g, after, before);
    ParentReached(g, after, before);
    hide Steps, Fits, Componentwise, BaseOf, ParentsGraph, Acyclic, Reaches, JoinFrom;
  }

  lemma ParentReached(g: Graph, child: Digest, p: Digest)
    requires p in Parents(g, child)
    ensures Reaches(g, child, p)
  {
    assert Steps(g, child, child, 0);
    StepsExtend(g, child, child, 0);
    assert Steps(g, child, p, 1);
  }

  // --- overlay pushes ------------------------------------------------------------------------------

  function History(s: Overlay.State): Graph {
    map d | d in s.manifests :: s.manifests[d].parents
  }

  /** Every stored manifest is the one its digest was computed from. */
  ghost predicate Addressed(t: Overlay.Tools, s: Overlay.State) {
    && (forall d :: d in s.manifests ==> t.hash(s.manifests[d]) == d)
    && forall m, n {:trigger t.hash(m), t.hash(n)} :: t.hash(m) == t.hash(n) ==> m == n
  }

  /** A push that changes something. */
  ghost predicate Changes(t: Overlay.Tools, s: Overlay.State, ref: Bytes, e: Overlay.Edit) {
    Overlay.Sortable(e) && var o := Overlay.Push(t, s, ref, e).1; o.Pushed? && o.changed
  }

  lemma PushStores(t: Overlay.Tools, s: Overlay.State, ref: Bytes, e: Overlay.Edit)
    requires Addressed(t, s) && Changes(t, s, ref, e)
    ensures var (s', o) := Overlay.Push(t, s, ref, e);
      && ref in s.refs && s'.refs == s.refs[ref := o.digest] && Addressed(t, s')
      && Parents(History(s'), o.digest) == [s.refs[ref]] && Extends(History(s), History(s'))
      && (forall d :: d in History(s') && d != o.digest ==> d in History(s))
  {
    hide Overlay.NewSlots, Overlay.SameHead, Overlay.LayersIn, Overlay.DiffIdsIn, Overlay.Sortable, Overlay.Appended;
  }

  /** The history of a new overlay head: itself, and exactly what the old head had behind it. */
  lemma PushDescends(t: Overlay.Tools, s: Overlay.State, ref: Bytes, e: Overlay.Edit)
    requires Addressed(t, s) && Changes(t, s, ref, e)
    ensures ref in s.refs
    ensures var (s', o) := Overlay.Push(t, s, ref, e);
      && s'.refs == s.refs[ref := o.digest] && o.digest in s'.manifests && Extends(History(s), History(s'))
      && forall d :: Reaches(History(s'), o.digest, d) <==> d == o.digest || Reaches(History(s), s.refs[ref], d)
  {
    PushStores(t, s, ref, e);
    var (s', o) := Overlay.Push(t, s, ref, e);
    var g, h, before, after := History(s), History(s'), s.refs[ref], o.digest;
    hide *;
    PushAdds(g, h, after);
    forall d ensures Reaches(h, after, d) <==> d == after || Reaches(g, before, d) {
      AddedReaches(g, h, after, d);
      OnlyParent(g, h, after, before, d);
    }
  }

  lemma PushAdds(g: Graph, h: Graph, added: Digest)
    requires Parents(h, added) != [] && Extends(g, h) && forall d :: d in h && d != added ==> d in g
    ensures Adds(g, h, added)
  {
  }

  lemma OnlyParent(g: Graph, h: Graph, added: Digest, p: Digest, d: Digest)
    requires Parents(h, added) == [p]
    ensures Known(g, h, added, d) <==> Reaches(g, p, d)
  {
    hide Reaches;
    assert p in Parents(h, added);
  }

  /** A merge store whose history holds everything the pushes recorded. */
  ghost predicate Holds(s: Store, p: Overlay.State) {
    Componentwise(s) && Acyclic(ParentsGraph(s)) && Extends(History(p), ParentsGraph(s))
  }

  lemma ParentsHeld(s: Store, p: Overlay.State, d: Digest, q: Digest)
    requires Holds(s, p) && Parents(History(p), d) == [q]
    ensures Parents(ParentsGraph(s), d) == [q]
  {
    hide Acyclic, Componentwise;
  }

  /** Merging the old head with the pushed one moves on to the pushed one. */
  lemma PushFastForwards(t: Overlay.Tools, s: Overlay.State, ref: Bytes, e: Overlay.Edit, u: Tools, m: Store, maxWalk: nat, o: Outcome)
    requires Addressed(t, s) && Changes(t, s, ref, e) && ref in s.refs
    requires var (s', p) := Overlay.Push(t, s, ref, e);
      && Holds(m, s') && Fits(ParentsGraph(m), p.digest, maxWalk)
      && (Merges(u, m, s.refs[ref], p.digest, maxWalk, o) || Merges(u, m, p.digest, s.refs[ref], maxWalk, o))
    ensures o == Ahead(Overlay.Push(t, s, ref, e).1.digest)
  {
    PushStores(t, s, ref, e);
    var (s', p) := Overlay.Push(t, s, ref, e);
    ParentsHeld(m, s', p.digest, s.refs[ref]);
    hide Merges, Fits, Acyclic, ParentsGraph, Componentwise, Overlay.Push;
    FastForward(u, m, s.refs[ref], p.digest, maxWalk, o);
  }

  // --- two pushes over one basis ------------------------------------------------------------------

  /** The only common ancestor of two different children of one parent that neither stands behind. */
  lemma BasisIsCommon(g: Graph, a: Digest, b: Digest, basis: Digest)
    requires Acyclic(g) && Parents(g, a) == [basis] && Parents(g, b) == [basis] && a != b
    ensures Shortest(g, a, basis, 1) && Shortest(g, b, basis, 1)
    ensures !Reaches(g, a, b) && !Reaches(g, b, a)
  {
    NotBack(g, a, basis);
    NotBack(g, b, basis);
    assert Steps(g, a, a, 0) && Steps(g, b, b, 0);
    StepsExtend(g, a, a, 0);
    StepsExtend(g, b, b, 0);
    NoShortcut(g, a, basis);
    NoShortcut(g, b, basis);
    if Reaches(g, a, b) { Through(g, a, basis, b); }
    if Reaches(g, b, a) { Through(g, b, basis, a); }
  }

  lemma NoShortcut(g: Graph, a: Digest, basis: Digest)
    requires a != basis && Steps(g, a, basis, 1)
    ensures Shortest(g, a, basis, 1)
  {
    forall m: nat | m < 1 ensures !Steps(g, a, basis, m) { assert m == 0; }
  }

  lemma Through(g: Graph, a: Digest, p: Digest, d: Digest)
    requires Parents(g, a) == [p] && Reaches(g, a, d) && d != a
    ensures Reaches(g, p, d)
  {
    var n: nat :| Steps(g, a, d, n);
    var q := FirstStep(g, a, d, n);
  }

  /** Whatever the search settles on between two children of one parent is that parent. */
  lemma BasisIsChosen(g: Graph, a: Digest, b: Digest, basis: Digest, x: Digest)
    requires Acyclic(g) && Parents(g, a) == [basis] && Parents(g, b) == [basis] && a != b && Chosen(g, a, b, x)
    ensures x == basis
  {
    BasisIsCommon(g, a, b, basis);
    hide Acyclic;
    var m: nat, n: nat :| Shortest(g, a, x, m) && Shortest(g, b, x, n)
      && forall y, k: nat, l: nat :: Shortest(g, a, y, k) && Shortest(g, b, y, l) ==>
        Max(m, n) < Max(k, l) || (Max(m, n) == Max(k, l) && m <= k);
    assert Max(m, n) <= 1;
    Near(g, a, basis, x, m);
    Near(g, b, basis, x, n);
    assert Steps(g, a, a, 0) && Steps(g, b, b, 0);
    if x == a { Reached(g, b, x, n); }
    if x == b { Reached(g, a, x, m); }
  }

  lemma Reached(g: Graph, a: Digest, x: Digest, n: nat)
    requires Shortest(g, a, x, n)
    ensures Reaches(g, a, x)
  {
  }

  lemma Near(g: Graph, a: Digest, basis: Digest, x: Digest, n: nat)
    requires Parents(g, a) == [basis] && Shortest(g, a, x, n) && n <= 1
    ensures x == a || x == basis
  {
    if n == 1 { var q := FirstStep(g, a, x, 1); }
  }

  /** A merge of two different children of one parent is a three-way join against that parent. */
  lemma SiblingsJoin(t: Tools, s: Store, a: Digest, b: Digest, basis: Digest, maxWalk: nat, o: Outcome)
    requires Componentwise(s) && Acyclic(ParentsGraph(s)) && a != b
    requires Parents(ParentsGraph(s), a) == [basis] && Parents(ParentsGraph(s), b) == [basis]
    requires Fits(ParentsGraph(s), a, maxWalk) && Fits(ParentsGraph(s), b, maxWalk)
    requires Merges(t, s, a, b, maxWalk, o)
    ensures o == JoinFrom(t, s, a, b, Some(basis))
  {
    var g := ParentsGraph(s);
    BasisIsCommon(g, a, b, basis);
    hide Steps, Fits, Componentwise, ParentsGraph, Acyclic, Reaches, JoinFrom, Chosen, Shortest;
    assert Common(g, a, b, basis, Max(1, 1));
    hide Common;
    var aHasB, bHasA, base :|
      && Answers(g, b, a, maxWalk, aHasB) && Answers(g, a, b, maxWalk, bHasA) && BaseOf(g, a, b, maxWalk, base)
      && o == if aHasB then Ahead(a) else if bHasA then Ahead(b) else JoinFrom(t, s, a, b, base);
    if base.Some? { BasisIsChosen(g, a, b, basis, base.value); }
  }

  /** Two pods push over one basis, each in its own store: their heads are joined against that basis. */
  lemma PushesJoin(
      t: Overlay.Tools, s1: Overlay.State, s2: Overlay.State, ref1: Bytes, ref2: Bytes, e1: Overlay.Edit, e2: Overlay.Edit,
      u: Tools, m: Store, maxWalk: nat, o: Outcome)
    requires Addressed(t, s1) && Changes(t, s1, ref1, e1) && ref1 in s1.refs
    requires Addressed(t, s2) && Changes(t, s2, ref2, e2) && ref2 in s2.refs
    requires s1.refs[ref1] == s2.refs[ref2]
    requires var (s1', p1), (s2', p2) := Overlay.Push(t, s1, ref1, e1), Overlay.Push(t, s2, ref2, e2);
      && Holds(m, s1') && Holds(m, s2') && Fits(ParentsGraph(m), p1.digest, maxWalk) && Fits(ParentsGraph(m), p2.digest, maxWalk)
      && Merges(u, m, p1.digest, p2.digest, maxWalk, o)
    ensures var d1, d2 := Overlay.Push(t, s1, ref1, e1).1.digest, Overlay.Push(t, s2, ref2, e2).1.digest;
      o == if d1 == d2 then Ahead(d1) else JoinFrom(u, m, d1, d2, Some(s1.refs[ref1]))
  {
    PushStores(t, s1, ref1, e1);
    PushStores(t, s2, ref2, e2);
    var (s1', p1) := Overlay.Push(t, s1, ref1, e1);
    var (s2', p2) := Overlay.Push(t, s2, ref2, e2);
    ParentsHeld(m, s1', p1.digest, s1.refs[ref1]);
    ParentsHeld(m, s2', p2.digest, s2.refs[ref2]);
    hide Fits, Acyclic, ParentsGraph, Componentwise, Overlay.Push, JoinFrom, Answers, BaseOf;
    if p1.digest != p2.digest { SiblingsJoin(u, m, p1.digest, p2.digest, s1.refs[ref1], maxWalk, o); }
  }

  // --- sending an unchanged head again ---------------------------------------------------------------

  /** Whether a push that changed nothing still transfers: only where the remote has no head yet, or one this head goes beyond. */
  method Retries(g: Graph, remote: Option<Digest>, head: Digest, maxWalk: nat) returns (send: bool)
    ensures send ==> remote.None? || (remote.value != head && Reaches(g, head, remote.value))
    ensures remote.None? || Fits(g, head, maxWalk) ==> (send <==> remote.None? || (remote.value != head && Reaches(g, head, remote.value)))
  {
    if remote.Some? {
      if remote.value == head { return false; }
      var behind := IsAncestor(g, remote.value, head, maxWalk);
      if !behind { return false; }
    }
    send := true;
  }

  // --- merged heads ----------------------------------------------------------------------------------

  lemma {:induction false} WinnersKeepManifests(t: Tools, s: Store, winners: map<Path, Winner>, q: seq<Path>)
    requires forall p :: p in q ==> p in winners
    ensures AddWinners(t, s, winners, q).Some? ==> AddWinners(t, s, winners, q).value.store.manifests == s.manifests
  {
    hide FileBytes, BuildFor;
    if q != [] { WinnersKeepManifests(t, s, winners, q[..|q| - 1]); }
  }

  /** The history of a merged head: itself, and exactly what the two heads had behind them. */
  lemma JoinDescends(t: Tools, s: Store, a: Digest, b: Digest, base: Option<Digest>)
    requires Componentwise(s) && MergedView.Hashed(t, s) && MergedView.Injective(t) && JoinFrom(t, s, a, b, base).Joined?
    ensures var o := JoinFrom(t, s, a, b, base); var g, h := ParentsGraph(s), ParentsGraph(o.store);
      && a in Parents(h, o.digest) && b in Parents(h, o.digest) && Extends(g, h)
      && (forall d :: Reaches(h, o.digest, d) <==> d == o.digest || Reaches(g, a, d) || Reaches(g, b, d))
  {
    MergedView.JoinedFrom(t, s, a, b, base);
    var v := SidesOf(s, a, b, base);
    var o := JoinFrom(t, s, a, b, base);
    var g, h := ParentsGraph(s), ParentsGraph(o.store);
    hide *;
    JoinParents(t, s, a, b, v);
    PushAdds(g, h, o.digest);
    forall d ensures Reaches(h, o.digest, d) <==> d == o.digest || Reaches(g, a, d) || Reaches(g, b, d) {
      AddedReaches(g, h, o.digest, d);
      TwoParents(g, h, o.digest, a, b, d);
    }
  }

  lemma TwoParents(g: Graph, h: Graph, added: Digest, a: Digest, b: Digest, d: Digest)
    requires forall p :: p in Parents(h, added) <==> p == a || p == b
    ensures Known(g, h, added, d) <==> Reaches(g, a, d) || Reaches(g, b, d)
  {
    hide Reaches, Parents;
    assert a in Parents(h, added) && b in Parents(h, added);
  }

  lemma JoinParents(t: Tools, s: Store, a: Digest, b: Digest, v: Sides)
    requires Sortable(v) && Join(t, s, a, b, v).Joined? && MergedView.Hashed(t, s) && MergedView.Injective(t)
    ensures var o := Join(t, s, a, b, v); var g, h := ParentsGraph(s), ParentsGraph(o.store);
      && Parents(h, o.digest) != [] && (forall p :: p in Parents(h, o.digest) <==> p == a || p == b)
      && Extends(g, h) && forall d :: d in h && d != o.digest ==> d in g
  {
    hide *;
    MergedView.WinnersSort(t, s, v);
    var winners := Winners(t, s, v);
    ListsMembers(InOrder(winners.Keys), winners.Keys);
    MergedView.JoinIs(t, s, a, b, v);
    WinnersKeepManifests(t, s, winners, InOrder(winners.Keys));
    var o := Join(t, s, a, b, v);
    SortedParents(a, b);
    OneMore(s, o.store, o.digest, SortTwo(a, b));
  }

  lemma SortedParents(a: Digest, b: Digest)
    ensures SortTwo(a, b) != [] && forall p :: p in SortTwo(a, b) <==> p == a || p == b
  {
    hide Less;
  }

  lemma OneMore(s: Store, s': Store, d: Digest, parents: seq<Digest>)
    requires d in s'.manifests && s'.manifests[d].parents == parents
    requires forall x :: x in s'.manifests && x != d ==> x in s.manifests
    requires forall x :: x in s.manifests ==> x in s'.manifests && s'.manifests[x] == s.manifests[x]
    ensures Parents(ParentsGraph(s'), d) == parents && Extends(ParentsGraph(s), ParentsGraph(s'))
    ensures forall x :: x in ParentsGraph(s') && x != d ==> x in ParentsGraph(s)
  {
  }
}
