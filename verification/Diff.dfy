/** A diff layer on top of its parent: what replaying it yields. */
module Diff {
  import opened Bytes
  import opened Paths
  import opened Workspace
  import opened View

  /**
   * `plain` are the entries a diff writes, `gone` the paths it whites out, `parent` the merged view below it,
   * and `current` the paths of the tree the diff must produce.
   */
  ghost predicate DiffOf<T>(parent: Merged<T>, current: set<Path>, plain: seq<Item<T>>, gone: seq<Path>) {
    && (forall i :: 0 <= i < |plain| ==> plain[i].path in current && WhiteoutTarget(plain[i].path) == NoWhiteout)
    && (forall i, j :: 0 <= i < j < |plain| ==> plain[i].path != plain[j].path)
    && (forall p :: p in current ==> p in parent || exists i :: 0 <= i < |plain| && plain[i].path == p)
    && (forall p :: p in parent ==> p in current || p in gone)
    && (forall p :: p in gone ==> p != [] && p in parent && p !in current && Base(p) != OPAQUE_TAIL)
    // a file or link has nothing below it, and a vanished path leaves nothing below it
    && (forall i, q :: 0 <= i < |plain| && !plain[i].dir && Above(plain[i].path, q) ==> q !in current)
    && (forall p, q :: p in gone && Above(p, q) ==> q !in current)
  }

  /** One whiteout item for each path of `gone`. */
  ghost predicate Marks<T>(markers: seq<Item<T>>, gone: seq<Path>) {
    |markers| == |gone| && forall i :: 0 <= i < |gone| ==> markers[i].path == WhiteoutPathFor(gone[i])
  }

  predicate Rewrites<T>(plain: seq<Item<T>>, i: nat, p: Path)
    requires i <= |plain|
  {
    exists k :: 0 <= k < i && plain[k].path == p
  }

  /** After the first `i` plain entries: those are in place, everything else of `current` is as in the parent. */
  ghost predicate PlainDone<T>(parent: Merged<T>, current: set<Path>, layer: nat, plain: seq<Item<T>>, i: nat, m: Merged<T>)
    requires i <= |plain|
  {
    && (forall k :: 0 <= k < i ==> plain[k].path in m && m[plain[k].path] == Placed(layer, plain[k]))
    && (forall p :: p in current && p in parent && !Rewrites(plain, i, p) ==> p in m && m[p] == parent[p])
    && (forall p :: p in m ==> p in parent || p in current)
  }

  lemma PlainStep<T>(parent: Merged<T>, current: set<Path>, layer: nat, plain: seq<Item<T>>, gone: seq<Path>, i: nat, m: Merged<T>)
    requires DiffOf(parent, current, plain, gone) && i < |plain| && PlainDone(parent, current, layer, plain, i, m)
    ensures PlainDone(parent, current, layer, plain, i + 1, Apply(m, layer, plain[i]))
  {
    hide *;
    RewritesNext(plain, i);
    EntryApplies(parent, current, layer, plain, gone, i, m);
    PlainAfter(parent, current, layer, plain, gone, i, m, Apply(m, layer, plain[i]));
  }

  lemma RewritesNext<T>(plain: seq<Item<T>>, i: nat)
    requires i < |plain|
    ensures forall p :: Rewrites(plain, i + 1, p) <==> Rewrites(plain, i, p) || p == plain[i].path
  {
    forall p ensures Rewrites(plain, i + 1, p) <==> Rewrites(plain, i, p) || p == plain[i].path {
      if p == plain[i].path { assert plain[i].path == p; }
    }
  }

  /** Only the entry's own path, and what a file replaces, change. */
  lemma EntryApplies<T>(parent: Merged<T>, current: set<Path>, layer: nat, plain: seq<Item<T>>, gone: seq<Path>, i: nat, m: Merged<T>)
    requires DiffOf(parent, current, plain, gone) && i < |plain|
    ensures var e := plain[i]; var m' := Apply(m, layer, e);
      && e.path in m' && m'[e.path] == Placed(layer, e)
      && (forall p :: p in current && p != e.path && p in m ==> p in m' && m'[p] == m[p])
      && (forall p :: p in m' && p != e.path ==> p in m)
  {
    hide WhiteoutTarget, Above, Base;
  }

  lemma PlainAfter<T>(parent: Merged<T>, current: set<Path>, layer: nat, plain: seq<Item<T>>, gone: seq<Path>, i: nat, m: Merged<T>, m': Merged<T>)
    requires DiffOf(parent, current, plain, gone) && i < |plain| && PlainDone(parent, current, layer, plain, i, m)
    requires forall p :: Rewrites(plain, i + 1, p) <==> Rewrites(plain, i, p) || p == plain[i].path
    requires plain[i].path in m' && m'[plain[i].path] == Placed(layer, plain[i])
    requires forall p :: p in current && p != plain[i].path && p in m ==> p in m' && m'[p] == m[p]
    requires forall p :: p in m' && p != plain[i].path ==> p in m
    ensures PlainDone(parent, current, layer, plain, i + 1, m')
  {
    hide Rewrites, WhiteoutTarget, Above, Base;
  }

  lemma {:induction false} PlainLayer<T>(parent: Merged<T>, current: set<Path>, layer: nat, plain: seq<Item<T>>, gone: seq<Path>, i: nat)
    requires DiffOf(parent, current, plain, gone) && i <= |plain|
    ensures PlainDone(parent, current, layer, plain, i, ApplyLayer(parent, layer, plain[..i]))
  {
    hide *;
    if i == 0 {
      NoLayer(parent, layer, plain);
      PlainStart(parent, current, layer, plain, gone);
    } else {
      PlainLayer(parent, current, layer, plain, gone, i - 1);
      ApplyLayerNext(parent, layer, plain, i - 1);
      PlainStep(parent, current, layer, plain, gone, i - 1, ApplyLayer(parent, layer, plain[..i - 1]));
    }
  }

  lemma PlainStart<T>(parent: Merged<T>, current: set<Path>, layer: nat, plain: seq<Item<T>>, gone: seq<Path>)
    requires DiffOf(parent, current, plain, gone)
    ensures PlainDone(parent, current, layer, plain, 0, parent)
  {
  }

  /** After the first `i` whiteouts: `current` is untouched, and those paths are gone. */
  ghost predicate GoneDone<T>(start: Merged<T>, current: set<Path>, gone: seq<Path>, i: nat, m: Merged<T>)
    requires i <= |gone|
  {
    && (forall p :: p in current && p in start ==> p in m && m[p] == start[p])
    && (forall p :: p in m ==> p in start && p !in gone[..i])
  }

  lemma GoneStep<T>(parent: Merged<T>, start: Merged<T>, current: set<Path>, layer: nat, plain: seq<Item<T>>, gone: seq<Path>, i: nat, m: Merged<T>, markers: seq<Item<T>>)
    requires DiffOf(parent, current, plain, gone) && Marks(markers, gone) && i < |gone| && GoneDone(start, current, gone, i, m)
    ensures GoneDone(start, current, gone, i + 1, Apply(m, layer, markers[i]))
  {
    hide *;
    MarkerRemoves(parent, current, layer, plain, gone, i, m, markers);
    GoneAfter(parent, start, current, plain, gone, i, m);
  }

  lemma MarkerRemoves<T>(parent: Merged<T>, current: set<Path>, layer: nat, plain: seq<Item<T>>, gone: seq<Path>, i: nat, m: Merged<T>, markers: seq<Item<T>>)
    requires DiffOf(parent, current, plain, gone) && Marks(markers, gone) && i < |gone|
    ensures i < |markers| && Apply(m, layer, markers[i]) == Removed(m, gone[i])
  {
    assert gone[i] in gone;
    WhiteoutRoundTrip(gone[i]);
    hide WhiteoutTarget, WhiteoutPathFor, Removed;
  }

  lemma GoneAfter<T>(parent: Merged<T>, start: Merged<T>, current: set<Path>, plain: seq<Item<T>>, gone: seq<Path>, i: nat, m: Merged<T>)
    requires DiffOf(parent, current, plain, gone) && i < |gone| && GoneDone(start, current, gone, i, m)
    ensures GoneDone(start, current, gone, i + 1, Removed(m, gone[i]))
  {
    hide WhiteoutTarget, Base, Above;
    assert gone[i] in gone && gone[..i + 1] == gone[..i] + [gone[i]];
  }

  lemma {:induction false} GoneLayer<T>(parent: Merged<T>, start: Merged<T>, current: set<Path>, layer: nat, plain: seq<Item<T>>, gone: seq<Path>, i: nat, markers: seq<Item<T>>)
    requires DiffOf(parent, current, plain, gone) && Marks(markers, gone) && i <= |gone|
    ensures GoneDone(start, current, gone, i, ApplyLayer(start, layer, markers[..i]))
  {
    hide *;
    MarksLength(markers, gone);
    if i == 0 {
      NoLayer(start, layer, markers);
      GoneStart(start, current, gone);
    } else {
      GoneLayer(parent, start, current, layer, plain, gone, i - 1, markers);
      ApplyLayerNext(start, layer, markers, i - 1);
      GoneStep(parent, start, current, layer, plain, gone, i - 1, ApplyLayer(start, layer, markers[..i - 1]), markers);
    }
  }

  lemma MarksLength<T>(markers: seq<Item<T>>, gone: seq<Path>)
    requires Marks(markers, gone)
    ensures |markers| == |gone|
  {
  }

  lemma NoLayer<T>(m: Merged<T>, layer: nat, es: seq<Item<T>>)
    ensures ApplyLayer(m, layer, es[..0]) == m
  {
  }

  lemma GoneStart<T>(start: Merged<T>, current: set<Path>, gone: seq<Path>)
    ensures GoneDone(start, current, gone, 0, start)
  {
  }

  lemma {:induction false} ApplyLayerConcat<T>(m: Merged<T>, layer: nat, a: seq<Item<T>>, b: seq<Item<T>>)
    ensures ApplyLayer(m, layer, a + b) == ApplyLayer(ApplyLayer(m, layer, a), layer, b)
    decreases |b|
  {
    hide Apply;
    if b == [] {
      assert a + b == a;
    } else {
      var b' := b[..|b| - 1];
      assert (a + b)[..|a + b| - 1] == a + b';
      ApplyLayerConcat(m, layer, a, b');
    }
  }

  /** Replaying a diff over its parent yields exactly the current tree, entry by entry. */
  lemma DiffApplies<T>(parent: Merged<T>, current: set<Path>, layer: nat, plain: seq<Item<T>>, gone: seq<Path>, markers: seq<Item<T>>)
    requires DiffOf(parent, current, plain, gone) && Marks(markers, gone)
    ensures var r := ApplyLayer(parent, layer, plain + markers);
      && r.Keys == current
      && (forall k :: 0 <= k < |plain| ==> plain[k].path in r && r[plain[k].path] == Placed(layer, plain[k]))
      && (forall p :: p in current && !Rewrites(plain, |plain|, p) ==> p in parent && p in r && r[p] == parent[p])
  {
    hide Apply, ApplyLayer;
    var start := ApplyLayer(parent, layer, plain);
    ApplyLayerConcat(parent, layer, plain, markers);
    assert plain[..|plain|] == plain;
    PlainLayer(parent, current, layer, plain, gone, |plain|);
    assert markers[..|markers|] == markers && gone[..|gone|] == gone;
    GoneLayer(parent, start, current, layer, plain, gone, |gone|, markers);
    DiffResult(parent, start, current, layer, plain, gone, ApplyLayer(start, layer, markers));
  }

  lemma DiffResult<T>(parent: Merged<T>, start: Merged<T>, current: set<Path>, layer: nat, plain: seq<Item<T>>, gone: seq<Path>, r: Merged<T>)
    requires DiffOf(parent, current, plain, gone)
    requires PlainDone(parent, current, layer, plain, |plain|, start) && GoneDone(start, current, gone, |gone|, r)
    ensures r.Keys == current
    ensures forall k :: 0 <= k < |plain| ==> plain[k].path in r && r[plain[k].path] == Placed(layer, plain[k])
    ensures forall p :: p in current && !Rewrites(plain, |plain|, p) ==> p in parent && p in r && r[p] == parent[p]
  {
    assert gone[..|gone|] == gone;
    forall p | p in current
      ensures p in r && p in start
    {
      if Rewrites(plain, |plain|, p) { }
    }
  }
}
