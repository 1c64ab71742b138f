/** A replay seen item by item: which entry settles what a path shows. */
module Replay {
  import opened Bytes
  import opened Paths
  import opened View

  /** Replaying items in order, each with the layer it comes from. */
  function Run<T>(xs: seq<Placed<T>>): Merged<T> {
    if xs == [] then map[]
    else
      var n := |xs| - 1;
      Apply(Run(xs[..n]), xs[n].layer, xs[n].item)
  }

  function Tagged<T>(layer: nat, es: seq<Item<T>>): seq<Placed<T>> {
    seq(|es|, i requires 0 <= i < |es| => Placed(layer, es[i]))
  }

  /** The items of all layers in order. */
  function Flattened<T>(layers: seq<seq<Item<T>>>): seq<Placed<T>> {
    if layers == [] then []
    else
      var n := |layers| - 1;
      Flattened(layers[..n]) + Tagged(n, layers[n])
  }

  lemma RunNext<T>(xs: seq<Placed<T>>, n: nat)
    requires n < |xs|
    ensures Run(xs[..n + 1]) == Apply(Run(xs[..n]), xs[n].layer, xs[n].item)
  {
    hide Apply;
    assert xs[..n + 1][..n] == xs[..n];
  }

  lemma {:induction false} RunLayer<T>(xs: seq<Placed<T>>, layer: nat, es: seq<Item<T>>)
    ensures Run(xs + Tagged(layer, es)) == ApplyLayer(Run(xs), layer, es)
    decreases |es|
  {
    hide Apply;
    if es == [] {
      assert xs + Tagged(layer, es) == xs;
    } else {
      var n := |es| - 1;
      RunLayer(xs, layer, es[..n]);
      var ys := xs + Tagged(layer, es);
      assert ys[..|ys| - 1] == xs + Tagged(layer, es[..n]);
    }
  }

  lemma {:induction false} RunIsMerge<T>(layers: seq<seq<Item<T>>>)
    ensures Run(Flattened(layers)) == MergeLayers(layers)
  {
    hide ApplyLayer;
    if layers != [] {
      var n := |layers| - 1;
      RunIsMerge(layers[..n]);
      RunLayer(Flattened(layers[..n]), n, layers[n]);
    }
  }

  /** Item `i` of layer `l` is in the flattened stack, and nothing else is. */
  lemma {:induction false} FlattenedHas<T>(layers: seq<seq<Item<T>>>)
    ensures forall l, i :: 0 <= l < |layers| && 0 <= i < |layers[l]| ==> Placed(l, layers[l][i]) in Flattened(layers)
    ensures forall x :: x in Flattened(layers) ==> x.layer < |layers| && x.item in layers[x.layer]
  {
    if layers != [] {
      var n := |layers| - 1;
      var rest, last := Flattened(layers[..n]), Tagged(n, layers[n]);
      FlattenedHas(layers[..n]);
      forall l, i | 0 <= l < |layers| && 0 <= i < |layers[l]| ensures Placed(l, layers[l][i]) in rest + last {
        if l == n { assert last[i] == Placed(l, layers[l][i]); } else { assert layers[..n][l] == layers[l]; }
      }
      forall x | x in rest + last ensures x.layer < |layers| && x.item in layers[x.layer] {
        if x in rest { assert layers[..n][x.layer] == layers[x.layer]; }
      }
    }
  }

  // --- what one item does to one path ----------------------------------------------------------------------

  /** The entry itself is what `p` shows from here on. */
  predicate Places<T>(e: Item<T>, p: Path) {
    WhiteoutTarget(e.path) == NoWhiteout && e.path == p
  }

  /** A whiteout of `p` or something above it, an opaque marker above it, or a non-directory where a directory above it was. */
  predicate Strikes<T>(m: Merged<T>, e: Item<T>, p: Path) {
    match WhiteoutTarget(e.path)
    case Opaque(dir) => Above(dir, p)
    case Delete(target) => target == p || Above(target, p)
    case NoWhiteout => !e.dir && Above(e.path, p) && e.path in m && m[e.path].item.dir
  }

  /** Settles `p`, whatever was there. */
  predicate Touches<T>(m: Merged<T>, e: Item<T>, p: Path) {
    Places(e, p) || Strikes(m, e, p)
  }

  lemma ApplyAt<T>(m: Merged<T>, layer: nat, e: Item<T>, p: Path)
    ensures var r := Apply(m, layer, e);
      && (Places(e, p) ==> p in r && r[p] == Placed(layer, e))
      && (Strikes(m, e, p) ==> !Places(e, p) && p !in r)
      && (!Touches(m, e, p) ==> (p in r <==> p in m) && (p in r ==> r[p] == m[p]))
  {
    hide WhiteoutTarget;
  }

  // --- files and what becomes of them ------------------------------------------------------------------------

  predicate ShowsFile<T>(m: Merged<T>, p: Path) {
    p in m && !m[p].item.dir
  }

  /** No item puts a file at `p` between positions `k` and `n`. */
  predicate OnlyFile<T>(xs: seq<Placed<T>>, k: nat, n: nat)
    requires k < n <= |xs|
  {
    forall j :: k < j < n ==> !(IsFile(xs[j].item) && xs[j].item.path == xs[k].item.path)
  }

  /** A file placed once still shows if and only if no later item touches its path. */
  lemma {:induction false} Survives<T>(xs: seq<Placed<T>>, k: nat, n: nat)
    requires k < n <= |xs| && IsFile(xs[k].item) && OnlyFile(xs, k, n)
    ensures var p := xs[k].item.path;
      && (ShowsFile(Run(xs[..n]), p) <==> forall j :: k < j < n ==> !Touches(Run(xs[..j]), xs[j].item, p))
      && (ShowsFile(Run(xs[..n]), p) ==> Run(xs[..n])[p] == xs[k])
    decreases n
  {
    var p := xs[k].item.path;
    hide WhiteoutTarget, Apply, Strikes;
    RunNext(xs, n - 1);
    ApplyAt(Run(xs[..n - 1]), xs[n - 1].layer, xs[n - 1].item, p);
    hide Run;
    if n > k + 1 { Survives(xs, k, n - 1); }
  }

  /** Every shown entry is an item of the stack, at its own path. */
  lemma {:induction false} RunRooted<T>(xs: seq<Placed<T>>)
    ensures forall p :: p in Run(xs) ==> Run(xs)[p] in xs && Places(Run(xs)[p].item, p)
  {
    hide WhiteoutTarget, Apply, Strikes;
    if xs != [] {
      var n := |xs| - 1;
      RunRooted(xs[..n]);
      forall p | p in Run(xs) ensures Run(xs)[p] in xs && Places(Run(xs)[p].item, p) {
        ApplyAt(Run(xs[..n]), xs[n].layer, xs[n].item, p);
        assert xs == xs[..n] + [xs[n]];
      }
    }
  }

  /** No item touches a file that is placed before it. */
  ghost predicate Undisturbed<T>(xs: seq<Placed<T>>) {
    forall k, j :: 0 <= k < j < |xs| && IsFile(xs[k].item) ==> !Touches(Run(xs[..j]), xs[j].item, xs[k].item.path)
  }

  /** No two items put a file at one path. */
  predicate FilesApart<T>(xs: seq<Placed<T>>) {
    forall k, j :: 0 <= k < j < |xs| && IsFile(xs[k].item) && IsFile(xs[j].item) ==> xs[k].item.path != xs[j].item.path
  }

  /** With one file per path, every file of the stack shows if and only if none is disturbed. */
  lemma AllShown<T>(xs: seq<Placed<T>>)
    requires FilesApart(xs)
    ensures Undisturbed(xs) <==> forall k :: 0 <= k < |xs| && IsFile(xs[k].item) ==> ShowsFile(Run(xs), xs[k].item.path)
    ensures forall k :: 0 <= k < |xs| && IsFile(xs[k].item) && ShowsFile(Run(xs), xs[k].item.path) ==> Run(xs)[xs[k].item.path] == xs[k]
  {
    hide IsFile, Touches, Run;
    assert xs[..|xs|] == xs;
    forall k | 0 <= k < |xs| && IsFile(xs[k].item)
      ensures ShowsFile(Run(xs), xs[k].item.path) <==> forall j :: k < j < |xs| ==> !Touches(Run(xs[..j]), xs[j].item, xs[k].item.path)
      ensures ShowsFile(Run(xs), xs[k].item.path) ==> Run(xs)[xs[k].item.path] == xs[k]
    {
      Survives(xs, k, |xs|);
    }
  }

  // --- payloads do not matter ---------------------------------------------------------------------------------

  /** An item without its payload. */
  function Outline<T>(e: Item<T>): Item<()> {
    Item(e.path, e.dir, ())
  }

  function Outlines<T>(es: seq<Item<T>>): seq<Item<()>> {
    seq(|es|, i requires 0 <= i < |es| => Outline(es[i]))
  }

  function AllOutlines<T>(layers: seq<seq<Item<T>>>): seq<seq<Item<()>>> {
    seq(|layers|, i requires 0 <= i < |layers| => Outlines(layers[i]))
  }

  function Sketch<T>(xs: seq<Placed<T>>): seq<Placed<()>> {
    seq(|xs|, i requires 0 <= i < |xs| => Placed(xs[i].layer, Outline(xs[i].item)))
  }

  lemma {:induction false} FlattenedSketch<T>(layers: seq<seq<Item<T>>>)
    ensures Flattened(AllOutlines(layers)) == Sketch(Flattened(layers))
  {
    if layers != [] {
      var n := |layers| - 1;
      FlattenedSketch(layers[..n]);
      assert AllOutlines(layers)[..n] == AllOutlines(layers[..n]);
      assert Tagged(n, Outlines(layers[n])) == Sketch(Tagged(n, layers[n]));
    }
  }

  /** The same paths, directories alike. */
  ghost predicate SameShape<T>(m: Merged<T>, o: Merged<()>) {
    (forall p :: p in m <==> p in o) && forall p :: p in m ==> (m[p].item.dir <==> o[p].item.dir)
  }

  lemma ApplySketch<T>(m: Merged<T>, o: Merged<()>, layer: nat, e: Item<T>)
    requires SameShape(m, o)
    ensures SameShape(Apply(m, layer, e), Apply(o, layer, Outline(e)))
  {
    hide WhiteoutTarget, Above;
  }

  lemma {:induction false} RunSketch<T>(xs: seq<Placed<T>>, n: nat)
    requires n <= |xs|
    ensures SameShape(Run(xs[..n]), Run(Sketch(xs)[..n]))
    decreases n
  {
    hide Apply, SameShape;
    if n == 0 {
      NoShape<T>();
      assert xs[..0] == [] && Sketch(xs)[..0] == [];
    } else {
      RunSketch(xs, n - 1);
      RunNext(xs, n - 1);
      RunNext(Sketch(xs), n - 1);
      ApplySketch(Run(xs[..n - 1]), Run(Sketch(xs)[..n - 1]), xs[n - 1].layer, xs[n - 1].item);
    }
  }

  lemma NoShape<T>()
    ensures SameShape<T>(map[], map[])
  {
  }

  /** Whether files are left alone shows in the outline. */
  lemma UndisturbedSketch<T>(xs: seq<Placed<T>>)
    ensures Undisturbed(xs) <==> Undisturbed(Sketch(xs))
  {
    hide WhiteoutTarget, Run;
    var ys := Sketch(xs);
    forall k, j | 0 <= k < j < |xs| && IsFile(xs[k].item)
      ensures Touches(Run(xs[..j]), xs[j].item, xs[k].item.path) <==> Touches(Run(ys[..j]), ys[j].item, ys[k].item.path)
    {
      RunSketch(xs, j);
    }
    hide Touches;
    assert forall k :: 0 <= k < |xs| ==> (IsFile(xs[k].item) <==> IsFile(ys[k].item)) && ys[k].item.path == xs[k].item.path;
  }

  // --- leaving out layers ---------------------------------------------------------------------------------------

  function EntryAt<T>(m: Merged<T>, p: Path): Option<Item<T>> {
    if p in m then Some(m[p].item) else None
  }

  /** The stack without the items of the layers in `gone`. */
  function Without<T>(xs: seq<Placed<T>>, gone: set<nat>): seq<Placed<T>> {
    if xs == [] then []
    else
      var n := |xs| - 1;
      Without(xs[..n], gone) + if xs[n].layer in gone then [] else [xs[n]]
  }

  /** Item `n` touches `p`; one that stays may do so in the full stack or in the rest. */
  ghost predicate Meets<T>(xs: seq<Placed<T>>, gone: set<nat>, n: nat, p: Path)
    requires n < |xs|
  {
    Touches(Run(xs[..n]), xs[n].item, p) || (xs[n].layer !in gone && Touches(Run(Without(xs[..n], gone)), xs[n].item, p))
  }

  /**
   * Item `n` is what tells the full stack from the rest at `p`. Left out, it shows an entry that the rest below it
   * does not show, or hides one that it does; kept, it replaces a directory that only one of the two has.
   */
  ghost predicate PartsAt<T>(xs: seq<Placed<T>>, gone: set<nat>, n: nat, p: Path)
    requires n < |xs|
  {
    var full, rest, e := Run(xs[..n]), Run(Without(xs[..n], gone)), xs[n].item;
    if xs[n].layer in gone then EntryAt(rest, p) != (if Places(e, p) then Some(e) else None)
    else if Strikes(full, e, p) then !Strikes(rest, e, p) && p in rest
    else Strikes(rest, e, p) && p in full
  }

  /** Item `k` is the last of the first `n` that touches `p`. */
  ghost predicate LastMeets<T>(xs: seq<Placed<T>>, gone: set<nat>, k: nat, n: nat, p: Path)
    requires k < n <= |xs|
  {
    Meets(xs, gone, k, p) && forall j :: k < j < n ==> !Meets(xs, gone, j, p)
  }

  /** The last item that touches `p` tells the two stacks apart. */
  ghost predicate Decides<T>(xs: seq<Placed<T>>, gone: set<nat>, k: nat, p: Path)
    requires k < |xs|
  {
    LastMeets(xs, gone, k, |xs|, p) && PartsAt(xs, gone, k, p)
  }

  lemma WithoutNext<T>(xs: seq<Placed<T>>, gone: set<nat>, n: nat)
    requires n < |xs|
    ensures Without(xs[..n + 1], gone) == Without(xs[..n], gone) + if xs[n].layer in gone then [] else [xs[n]]
    ensures Run(Without(xs[..n + 1], gone)) ==
      if xs[n].layer in gone then Run(Without(xs[..n], gone)) else Apply(Run(Without(xs[..n], gone)), xs[n].layer, xs[n].item)
  {
    hide Apply;
    assert xs[..n + 1][..n] == xs[..n];
    var w := Without(xs[..n], gone);
    assert (w + [xs[n]])[..|w|] == w && w + [] == w;
  }

  /** After an item that touches `p` the two stacks agree at `p` exactly when it does not part them; otherwise nothing changes. */
  lemma OneStep<T>(xs: seq<Placed<T>>, gone: set<nat>, n: nat, p: Path)
    requires n < |xs|
    ensures var f, r, f', r' := Run(xs[..n]), Run(Without(xs[..n], gone)), Run(xs[..n + 1]), Run(Without(xs[..n + 1], gone));
      if Meets(xs, gone, n, p) then EntryAt(f', p) == EntryAt(r', p) <==> !PartsAt(xs, gone, n, p)
      else EntryAt(f', p) == EntryAt(f, p) && EntryAt(r', p) == EntryAt(r, p)
  {
    RunNext(xs, n);
    WithoutNext(xs, gone, n);
    ApplyAt(Run(xs[..n]), xs[n].layer, xs[n].item, p);
    ApplyAt(Run(Without(xs[..n], gone)), xs[n].layer, xs[n].item, p);
    hide Apply, Strikes, Run, Without, WhiteoutTarget;
  }

  /** Leaving layers out leaves a path as it was if and only if no item decides it. */
  lemma {:induction false} SameWithout<T>(xs: seq<Placed<T>>, gone: set<nat>, n: nat, p: Path)
    requires n <= |xs|
    ensures EntryAt(Run(xs[..n]), p) == EntryAt(Run(Without(xs[..n], gone)), p) <==>
      forall k :: 0 <= k < n && LastMeets(xs, gone, k, n, p) ==> !PartsAt(xs, gone, k, p)
  {
    hide Meets, PartsAt, Apply;
    if n > 0 {
      SameWithout(xs, gone, n - 1, p);
      OneStep(xs, gone, n - 1, p);
      hide Run, Without, EntryAt;
      forall k | 0 <= k < n - 1
        ensures LastMeets(xs, gone, k, n, p) <==> LastMeets(xs, gone, k, n - 1, p) && !Meets(xs, gone, n - 1, p)
      {
      }
      assert LastMeets(xs, gone, n - 1, n, p) <==> Meets(xs, gone, n - 1, p);
    }
  }

  lemma SameWithoutIff<T>(xs: seq<Placed<T>>, gone: set<nat>, p: Path)
    ensures EntryAt(Run(xs), p) == EntryAt(Run(Without(xs, gone)), p) <==> forall k :: 0 <= k < |xs| ==> !Decides(xs, gone, k, p)
  {
    hide LastMeets, PartsAt, Apply;
    SameWithout(xs, gone, |xs|, p);
    assert xs[..|xs|] == xs;
    forall k | 0 <= k < |xs| ensures Decides(xs, gone, k, p) <==> LastMeets(xs, gone, k, |xs|, p) && PartsAt(xs, gone, k, p) { }
  }

  // --- renumbered layers ------------------------------------------------------------------------------------------

  ghost predicate SameItems<T>(xs: seq<Placed<T>>, ys: seq<Placed<T>>) {
    |xs| == |ys| && forall i :: 0 <= i < |xs| ==> xs[i].item == ys[i].item
  }

  lemma {:induction false} Renumbered<T>(xs: seq<Placed<T>>, ys: seq<Placed<T>>, p: Path)
    requires SameItems(xs, ys)
    ensures EntryAt(Run(xs), p) == EntryAt(Run(ys), p)
  {
    if xs != [] {
      var n := |xs| - 1;
      Renumbered(xs[..n], ys[..n], p);
      Renumbered(xs[..n], ys[..n], xs[n].item.path);
      ApplyAt(Run(xs[..n]), xs[n].layer, xs[n].item, p);
      ApplyAt(Run(ys[..n]), ys[n].layer, ys[n].item, p);
      hide Apply, WhiteoutTarget;
    }
  }

  lemma {:induction false} WithoutConcat<T>(xs: seq<Placed<T>>, ys: seq<Placed<T>>, gone: set<nat>)
    ensures Without(xs + ys, gone) == Without(xs, gone) + Without(ys, gone)
    decreases |ys|
  {
    if ys == [] {
      assert xs + ys == xs;
    } else {
      var n := |ys| - 1;
      WithoutConcat(xs, ys[..n], gone);
      assert (xs + ys)[..|xs| + n] == xs + ys[..n];
    }
  }

  lemma {:induction false} WithoutTagged<T>(layer: nat, es: seq<Item<T>>, gone: set<nat>)
    ensures Without(Tagged(layer, es), gone) == if layer in gone then [] else Tagged(layer, es)
    decreases |es|
  {
    if es != [] {
      var n := |es| - 1;
      WithoutTagged(layer, es[..n], gone);
      assert Tagged(layer, es)[..n] == Tagged(layer, es[..n]);
      assert Tagged(layer, es) == Tagged(layer, es[..n]) + [Placed(layer, es[n])];
    }
  }

  lemma {:induction false} WithoutMore<T>(xs: seq<Placed<T>>, gone: set<nat>, more: set<nat>)
    requires forall x :: x in xs ==> (x.layer in gone <==> x.layer in more)
    ensures Without(xs, gone) == Without(xs, more)
  {
    if xs != [] {
      assert xs[|xs| - 1] in xs;
      WithoutMore(xs[..|xs| - 1], gone, more);
    }
  }
}
