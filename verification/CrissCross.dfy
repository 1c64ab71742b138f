/** A history with two nearest common ancestors, where the order of the heads decides the merge. */
module CrissCross {
  import opened Bytes
  import opened Paths
  import opened View
  import opened Ancestry
  import opened Order
  import opened MergeHeads

  // Stand-ins for content digests; the theorem holds for every hash that avoids them.
  const A: Digest := [1]
  const B: Digest := [2]
  const X: Digest := [3]
  const Y: Digest := [4]
  const Q: Digest := [5]
  const R: Digest := [6]
  const LAYER: Digest := [7]
  const FILE: Path := [[102]]
  const ITEM: Item<Entry> := Item(FILE, false, Entry(3, 512, 420, 1000, true))
  const LAYER_OF_FILE: Descriptor := Descriptor(LAYER, 1000, [97], [])

  /** Both X and Y are behind both heads; X and A hold the file, Y and B do not. */
  function History(): Store {
    var with := Manifest([LAYER_OF_FILE], [[9]], [], [97]);
    var without := Manifest([], [], [], [98]);
    Store(
      map[X := with, Y := without, Q := without.(parents := [Y]), R := with.(parents := [X]),
          A := with.(parents := [X, Q]), B := without.(parents := [Y, R])],
      map[LAYER := [ITEM]],
      map[])
  }

  const GRAPH: Graph := map[X := [], Y := [], Q := [Y], R := [X], A := [X, Q], B := [Y, R]]

  lemma GraphIs()
    ensures ParentsGraph(History()) == GRAPH
  {
  }

  lemma OneStep(g: Graph, h: Digest, d: Digest)
    ensures Steps(g, h, d, 1) <==> d in Parents(g, h)
  {
    assert Steps(g, h, h, 0);
  }

  lemma TwoSteps(g: Graph, h: Digest, u: Digest, d: Digest)
    requires u in Parents(g, h) && d in Parents(g, u)
    ensures Steps(g, h, d, 2)
  {
    OneStep(g, h, u);
  }

  /** `x` one step and `y` two steps behind `h`, by way of `q`, and nothing else. */
  predicate Behind(h: Digest, x: Digest, q: Digest, y: Digest) {
    && {h, x, q, y} <= GRAPH.Keys && h != x && h != y && x != y
    && GRAPH[h] == [x, q] && GRAPH[q] == [y] && GRAPH[x] == [] && GRAPH[y] == []
  }

  lemma Depths(h: Digest, x: Digest, q: Digest, y: Digest)
    requires Behind(h, x, q, y) && q != x
    ensures Shortest(GRAPH, h, x, 1) && Shortest(GRAPH, h, y, 2)
    ensures Covers(GRAPH, h, {h, x, q, y}) && Fits(GRAPH, h, 4)
  {
    assert {h, x, q, y} <= GRAPH.Keys;
    var g := GRAPH;
    hide GRAPH, Steps;
    NearFar(g, h, x, q, y);
    AtMostFour(h, x, q, y);
    hide Shortest;
    assert h in {h, x, q, y} && x in {h, x, q, y} && q in {h, x, q, y} && y in {h, x, q, y};
  }

  lemma NearFar(g: Graph, h: Digest, x: Digest, q: Digest, y: Digest)
    requires h in g && q in g && x in g && y in g && h != x && h != y && x != y && q != y
    requires g[h] == [x, q] && g[q] == [y]
    ensures Shortest(g, h, x, 1) && Shortest(g, h, y, 2)
  {
    OneStep(g, h, x);
    OneStep(g, h, y);
    TwoSteps(g, h, q, y);
  }

  lemma AtMostFour(a: Digest, b: Digest, c: Digest, d: Digest)
    ensures |{a, b, c, d}| <= 4
  {
    assert {a, b, c, d} == {a} + {b} + {c} + {d};
  }

  /** From `h`, `x` is the one chosen: `y` is as far in the worse direction and farther from `h`. */
  lemma ChoosesX(h: Digest, h': Digest, q: Digest, q': Digest, x: Digest, y: Digest, base: Option<Digest>)
    requires Behind(h, x, q, y) && Behind(h', y, q', x) && q != x && q' != y && {h, x, q, y} * {h', y, q', x} == {x, y}
    requires BaseOf(GRAPH, h, h', 6, base)
    ensures base == Some(x)
  {
    Depths(h, x, q, y);
    Depths(h', y, q', x);
    FitsMore(GRAPH, h);
    FitsMore(GRAPH, h');
    hide *;
    BaseIs(GRAPH, h, h', {h, x, q, y}, {h', y, q', x}, x, y, base);
  }

  lemma BaseIs(g: Graph, h: Digest, h': Digest, s: set<Digest>, s': set<Digest>, x: Digest, y: Digest, base: Option<Digest>)
    requires Shortest(g, h, x, 1) && Shortest(g, h, y, 2) && Shortest(g, h', y, 1) && Shortest(g, h', x, 2)
    requires Covers(g, h, s) && Covers(g, h', s') && s * s' == {x, y}
    requires Fits(g, h, 6) && Fits(g, h', 6) && BaseOf(g, h, h', 6, base)
    ensures base == Some(x)
  {
    hide Shortest, Covers, Fits;
    assert Common(g, h, h', x, 2);
    assert base.Some?;
    var b := base.value;
    var m: nat, n: nat :| Shortest(g, h, b, m) && Shortest(g, h', b, n)
      && forall z, k: nat, l: nat :: Shortest(g, h, z, k) && Shortest(g, h', z, l) ==>
        Max(m, n) < Max(k, l) || (Max(m, n) == Max(k, l) && m <= k);
    ShortestCovered(g, h, s, b, m);
    ShortestCovered(g, h', s', b, n);
    assert b in s * s';
    if b == y { ShortestUnique(g, h, y, m, 2); }
  }

  lemma FitsMore(g: Graph, h: Digest)
    requires Fits(g, h, 4)
    ensures Fits(g, h, 6)
  {
  }

  lemma ShortestUnique(g: Graph, h: Digest, d: Digest, m: nat, n: nat)
    requires Shortest(g, h, d, m) && Shortest(g, h, d, n)
    ensures m == n
  {
  }

  lemma ShortestCovered(g: Graph, h: Digest, s: set<Digest>, d: Digest, n: nat)
    requires Covers(g, h, s) && Shortest(g, h, d, n)
    ensures d in s
  {
    CoveredSteps(g, h, s, d, n);
  }

  // --- the two merges -------------------------------------------------------------------------------

  lemma Unrelated(h: Digest, h': Digest, q: Digest, q': Digest, x: Digest, y: Digest)
    requires Behind(h, x, q, y) && Behind(h', y, q', x) && q != x && q' != y && h' !in {h, x, q, y}
    ensures !Reaches(GRAPH, h, h') && Fits(GRAPH, h, 6)
  {
    Depths(h, x, q, y);
    FitsMore(GRAPH, h);
    hide GRAPH, Behind;
    if Reaches(GRAPH, h, h') { CoveredReach(GRAPH, h, {h, x, q, y}, h'); }
  }

  const REGISTER: Register := Register(ITEM.payload, LAYER_OF_FILE, [9], true, 1000, [97])

  lemma PlainFile()
    ensures WhiteoutTarget(FILE) == NoWhiteout
  {
    assert |Base(FILE)| == 1 && |OPAQUE_MARKER| == 12;
  }

  lemma Views(d: Digest)
    requires d in {A, B, X, Y}
    ensures Loadable(History(), d)
    ensures ViewOf(History(), d) == HeadView(if d in {A, X} then map[FILE := REGISTER] else map[], map[])
  {
    var m := History().manifests[d];
    var layers := LayersOf(History(), m);
    if d in {A, X} {
      assert layers == [[ITEM]];
      assert layers[..0] == [] && layers[0][..0] == [];
      PlainFile();
      var none: Merged<Entry> := map[];
      assert ApplyLayer(none, 0, layers[0]) == Apply(none, 0, ITEM) == map[FILE := Placed(0, ITEM)];
      assert MergeLayers(layers) == ApplyLayer(none, 0, layers[0]);
      assert StampLayer(map[], layers[0]) == map[];
      assert Stamps(layers) == StampLayer(map[], layers[0]);
      assert FileCount(layers[0]) == 1;
    }
  }

  lemma {:induction false} OneSorts(f: Path, s: set<Path>)
    requires NoSlash(f) && s <= {f}
    ensures forall p :: p in s ==> NoSlash(p)
    ensures InOrder(s) == if s == {} then [] else [f]
  {
    hide NoSlash, PathLess;
    var q := InOrder(s);
    ListsEmpty(q, s);
    if q != [] {
      assert q[0] in s;
      ListsTail(q, s);
      assert s - {f} == {};
      ListsEmpty(q[1..], s - {f});
    }
  }

  /** A stored manifest is the one its digest names. */
  ghost predicate Told(t: Tools, s: Store) {
    forall m: Manifest :: t.hash(m) in s.manifests ==> s.manifests[t.hash(m)] == m
  }

  /** A join over at most one path, which goes or stays as its own layer. */
  lemma JoinOnePath(t: Tools, s: Store, h: Digest, h': Digest, v: Sides, f: Path)
    requires Sortable(v) && v.Paths() <= {f} && NoSlash(f) && Told(t, s)
    requires f in v.Paths() ==> Decide(t, s, v, f).Gone? || (Decide(t, s, v, f).Won? && Reusable(Decide(t, s, v, f).winner))
    ensures var o := Join(t, s, h, h', v); var kept := f in v.Paths() && Decide(t, s, v, f).Won?;
      && o.Joined? && o.store.layers == s.layers && o.digest in o.store.manifests
      && (forall x :: x in s.manifests ==> x in o.store.manifests && o.store.manifests[x] == s.manifests[x])
      && (forall x :: x in o.store.manifests && x !in s.manifests ==> x == o.digest)
      && t.hash(o.store.manifests[o.digest]) == o.digest
      && o.store.manifests[o.digest].layers == (if kept then [Decide(t, s, v, f).winner.reg.descriptor] else [])
      && o.store.manifests[o.digest].diffIds == (if kept then [Decide(t, s, v, f).winner.reg.diffId] else [])
  {
    hide Decide, InOrder, NoSlash, Reusable;
    var winners := Winners(t, s, v);
    OneSorts(f, v.Paths());
    assert forall p :: p in v.Paths() ==> p == f;
    hide Sides.Paths;
    OneSorts(f, winners.Keys);
    if f in v.Paths() && Decide(t, s, v, f).Won? {
      var w := Decide(t, s, v, f).winner;
      assert f in winners;
      assert winners == map[f := w];
      assert [f][..0] == [];
      assert AddWinners(t, s, winners, [f]) == AddWinner(t, Draft(s, [], []), f, w);
    } else {
      assert winners.Keys == {};
    }
  }

  lemma Settles(t: Tools, h: Digest, h': Digest, base: Digest)
    requires (h == A && h' == B && base == X) || (h == B && h' == A && base == Y)
    ensures Loadable(History(), h) && Loadable(History(), h') && Loadable(History(), base)
    ensures var v := SidesOf(History(), h, h', Some(base));
      && v.Paths() == {FILE} && NoSlash(FILE)
      && Decide(t, History(), v, FILE) == if base == X then Gone(false) else Won(Keep(REGISTER), false)
  {
    Views(h);
    Views(h');
    Views(base);
    hide History, ViewOf, Loadable;
    assert A != B && A != Y && B != X && X != Y && FILE == [[102]];
    Decides(t, History(), SidesOf(History(), h, h', Some(base)), base == X);
  }

  lemma Decides(t: Tools, s: Store, v: Sides, gone: bool)
    requires v == if gone then Sides(HeadView(map[FILE := REGISTER], map[]), HeadView(map[], map[]), map[FILE := REGISTER])
                  else Sides(HeadView(map[], map[]), HeadView(map[FILE := REGISTER], map[]), map[])
    ensures v.Paths() == {FILE} && NoSlash(FILE)
    ensures Decide(t, s, v, FILE) == if gone then Gone(false) else Won(Keep(REGISTER), false)
  {
    assert NoSlash(FILE);
    hide FILE, REGISTER, NoSlash;
    if gone { assert v.Paths() == {FILE}; } else { assert v.Paths() == {FILE}; }
  }

  /** With X as base the file is gone; with Y it stays. */
  lemma JoinOn(t: Tools, h: Digest, h': Digest, base: Digest)
    requires Componentwise(History()) && forall m: Manifest :: t.hash(m) !in History().manifests
    requires (h == A && h' == B && base == X) || (h == B && h' == A && base == Y)
    ensures var o := JoinFrom(t, History(), h, h', Some(base));
      o.Joined? && o.digest in o.store.manifests && o.store.manifests[o.digest].layers == if base == X then [] else [LAYER_OF_FILE]
  {
    Settles(t, h, h', base);
    assert REGISTER.descriptor == LAYER_OF_FILE && Reusable(Keep(REGISTER));
    hide History, ViewOf, Loadable, Decide, Join, Componentwise, NoSlash, Reusable, FILE, REGISTER, LAYER_OF_FILE, SidesOf;
    hide A, B, X, Y;
    assert Told(t, History());
    ViewNoSlash(History(), h);
    ViewNoSlash(History(), h');
    JoinOnePath(t, History(), h, h', SidesOf(History(), h, h', Some(base)), FILE);
  }

  lemma {:induction false} Shape()
    ensures A != B && ParentsGraph(History()) == GRAPH
    ensures Behind(A, X, Q, Y) && Behind(B, Y, R, X) && Q != X && R != Y
    ensures {A, X, Q, Y} * {B, Y, R, X} == {X, Y} && {B, Y, R, X} * {A, X, Q, Y} == {Y, X}
    ensures B !in {A, X, Q, Y} && A !in {B, Y, R, X}
  {
    GraphIs();
  }

  /** The only outcome from `h`: nothing to fast-forward, `x` the base. */
  lemma OnlyOutcome(t: Tools, s: Store, h: Digest, h': Digest, x: Digest, o: Outcome)
    requires Componentwise(s) && h != h' && Merges(t, s, h, h', 6, o)
    requires var g := ParentsGraph(s); !Reaches(g, h, h') && !Reaches(g, h', h) && forall base :: BaseOf(g, h, h', 6, base) ==> base == Some(x)
    ensures o == JoinFrom(t, s, h, h', Some(x))
  {
    hide BaseOf, Reaches, Fits, Componentwise, ParentsGraph, JoinFrom;
  }

  /** Swapping the heads loses or keeps the file. */
  lemma OrderMatters(t: Tools, o: Outcome, o': Outcome)
    requires Componentwise(History()) && forall m: Manifest :: t.hash(m) !in History().manifests
    requires Merges(t, History(), A, B, 6, o) && Merges(t, History(), B, A, 6, o')
    ensures o.Joined? && o.digest in o.store.manifests && o.store.manifests[o.digest].layers == []
    ensures o'.Joined? && o'.digest in o'.store.manifests && o'.store.manifests[o'.digest].layers == [LAYER_OF_FILE]
  {
    Shape();
    JoinOn(t, A, B, X);
    JoinOn(t, B, A, Y);
    assert X != Y;
    hide *;
    Unrelated(A, B, Q, R, X, Y);
    Unrelated(B, A, R, Q, Y, X);
    forall base | BaseOf(GRAPH, A, B, 6, base) ensures base == Some(X) { ChoosesX(A, B, Q, R, X, Y, base); }
    forall base | BaseOf(GRAPH, B, A, 6, base) ensures base == Some(Y) { ChoosesX(B, A, R, Q, Y, X, base); }
    OnlyOutcome(t, History(), A, B, X, o);
    OnlyOutcome(t, History(), B, A, Y, o');
  }
}
