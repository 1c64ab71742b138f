/** Replaying ordered layers, with OCI delete and opaque whiteouts. */
module View {
  import opened Bytes
  import opened Paths
  import opened Workspace

  datatype Item<+T> = Item(path: Path, dir: bool, payload: T)
  datatype Placed<+T> = Placed(layer: nat, item: Item<T>)
  type Merged<T> = map<Path, Placed<T>>

  // --- whiteout names -----------------------------------------------------------------------

  datatype Whiteout = NoWhiteout | Opaque(dir: Path) | Delete(target: Path)

  const OPAQUE_TAIL: Bytes := [46, 119, 104, 46, 46, 111, 112, 113]  // ".wh..opq"
  const OPAQUE_MARKER: Bytes := WHITEOUT_PREFIX + OPAQUE_TAIL

  function Base(p: Path): Name
    requires p != []
  {
    p[|p| - 1]
  }

  function WhiteoutTarget(p: Path): Whiteout {
    if p == [] then NoWhiteout
    else if Base(p) == OPAQUE_MARKER then Opaque(Parent(p))
    else if WhiteoutName(Base(p)) then Delete(Parent(p) + [Base(p)[4..]])
    else NoWhiteout
  }

  function WhiteoutPathFor(p: Path): Path {
    if p == [] then [WHITEOUT_PREFIX] else Parent(p) + [WHITEOUT_PREFIX + Base(p)]
  }

  /** A non-directory entry. */
  predicate IsFile<T>(e: Item<T>) {
    !e.dir && WhiteoutTarget(e.path) == NoWhiteout
  }

  /** A marker names its path again, unless it spells the opaque marker. */
  lemma WhiteoutRoundTrip(p: Path)
    requires p != []
    ensures WhiteoutTarget(WhiteoutPathFor(p)) == Delete(p) <==> Base(p) != OPAQUE_TAIL
  {
    var w := WhiteoutPathFor(p);
    var base := WHITEOUT_PREFIX + Base(p);
    assert Base(w) == base && Parent(w) == Parent(p);
    assert base[..4] == WHITEOUT_PREFIX && base[4..] == Base(p);
    assert p == Parent(p) + [Base(p)];
    if base == OPAQUE_MARKER { assert Base(p) == OPAQUE_MARKER[4..] == OPAQUE_TAIL; }
  }

  // --- replay -------------------------------------------------------------------------------

  /** `m` without what lies strictly below `root`. */
  function Emptied<T>(m: Merged<T>, root: Path): Merged<T> {
    map p | p in m && !Above(root, p) :: m[p]
  }

  function Removed<T>(m: Merged<T>, root: Path): Merged<T> {
    Emptied(m, root) - {root}
  }

  function Apply<T>(m: Merged<T>, layer: nat, e: Item<T>): Merged<T> {
    match WhiteoutTarget(e.path)
    case Opaque(dir) => Emptied(m, dir)
    case Delete(target) => Removed(m, target)
    case NoWhiteout =>
      var below := if !e.dir && e.path in m && m[e.path].item.dir then Removed(m, e.path) else m;
      below[e.path := Placed(layer, e)]
  }

  function ApplyLayer<T>(m: Merged<T>, layer: nat, es: seq<Item<T>>): Merged<T> {
    if es == [] then m else Apply(ApplyLayer(m, layer, es[..|es| - 1]), layer, es[|es| - 1])
  }

  function MergeLayers<T>(layers: seq<seq<Item<T>>>): Merged<T> {
    if layers == [] then map[]
    else ApplyLayer(MergeLayers(layers[..|layers| - 1]), |layers| - 1, layers[|layers| - 1])
  }

  lemma ApplyLayerNext<T>(m: Merged<T>, layer: nat, es: seq<Item<T>>, i: nat)
    requires i < |es|
    ensures ApplyLayer(m, layer, es[..i + 1]) == Apply(ApplyLayer(m, layer, es[..i]), layer, es[i])
  {
    assert es[..i + 1][..i] == es[..i];
  }

  lemma MergeLayersNext<T>(layers: seq<seq<Item<T>>>, i: nat)
    requires i < |layers|
    ensures MergeLayers(layers[..i + 1]) == ApplyLayer(MergeLayers(layers[..i]), i, layers[i])
  {
    assert layers[..i + 1][..i] == layers[..i];
  }

  // --- what the markers do -------------------------------------------------------------------------

  /** Exactly which names empty the directory `d`, and which delete `t`. */
  lemma MarkersAre(p: Path, d: Path, t: Path)
    ensures WhiteoutTarget(p) == Opaque(d) <==> p == d + [OPAQUE_MARKER]
    ensures WhiteoutTarget(p) == Delete(t) <==> t != [] && p == Parent(t) + [WHITEOUT_PREFIX + Base(t)] && Base(t) != OPAQUE_TAIL
  {
    if p != [] { assert p == Parent(p) + [Base(p)]; }
    if t != [] {
      assert t == Parent(t) + [Base(t)];
      WhiteoutRoundTrip(t);
    }
    if WhiteoutTarget(p).Delete? {
      var rest := Base(p)[4..];
      assert Base(p) == WHITEOUT_PREFIX + rest;
      var u := Parent(p) + [rest];
      assert Parent(u) == Parent(p) && Base(u) == rest;
    }
  }

  /** An opaque marker takes exactly what lies below its own directory; the directory and all else stay as they are. */
  lemma OpaqueEmpties<T>(m: Merged<T>, layer: nat, d: Path, e: Item<T>, q: Path)
    requires e.path == d + [OPAQUE_MARKER]
    ensures q in Apply(m, layer, e) <==> q in m && !(d < q)
    ensures q in Apply(m, layer, e) ==> Apply(m, layer, e)[q] == m[q]
  {
    MarkersAre(e.path, d, []);
    hide WhiteoutTarget;
  }

  /** A delete marker takes exactly its path and what lies below. */
  lemma MarkerDeletes<T>(m: Merged<T>, layer: nat, t: Path, e: Item<T>, q: Path)
    requires t != [] && Base(t) != OPAQUE_TAIL && e.path == WhiteoutPathFor(t)
    ensures q in Apply(m, layer, e) <==> q in m && !(t <= q)
    ensures q in Apply(m, layer, e) ==> Apply(m, layer, e)[q] == m[q]
  {
    WhiteoutRoundTrip(t);
    hide WhiteoutTarget, WhiteoutPathFor;
    if t <= q && q != t { assert t < q; }
  }

  /** Any other entry takes its path; a file over a directory takes what was below it along. */
  lemma EntryPlaces<T>(m: Merged<T>, layer: nat, e: Item<T>, q: Path)
    requires WhiteoutTarget(e.path) == NoWhiteout
    ensures e.path in Apply(m, layer, e) && Apply(m, layer, e)[e.path] == Placed(layer, e)
    ensures q != e.path ==> (q in Apply(m, layer, e) <==> q in m && !(!e.dir && e.path in m && m[e.path].item.dir && e.path < q))
    ensures q != e.path && q in Apply(m, layer, e) ==> Apply(m, layer, e)[q] == m[q]
  {
    hide WhiteoutTarget;
  }

  // --- the loops -------------------------------------------------------------------------------

  /** Delete every key strictly below `root`, one by one. */
  method EmptySubtree<T>(m: Merged<T>, root: Path) returns (out: Merged<T>)
    ensures out == Emptied(m, root)
  {
    out := m;
    var rest := m.Keys;
    while rest != {}
      invariant rest <= m.Keys
      invariant out == map p | p in m && (p in rest || !Above(root, p)) :: m[p]
      decreases rest
    {
      var path :| path in rest;
      rest := rest - {path};
      if Above(root, path) { out := out - {path}; }
    }
  }

  method MergeLayerEntries<T>(layers: seq<seq<Item<T>>>) returns (entries: Merged<T>)
    ensures entries == MergeLayers(layers)
  {
    hide Emptied;
    entries := map[];
    for layerIdx := 0 to |layers|
      invariant entries == MergeLayers(layers[..layerIdx])
    {
      var layer := layers[layerIdx];
      ghost var below := entries;
      for i := 0 to |layer|
        invariant entries == ApplyLayer(below, layerIdx, layer[..i])
      {
        var entry := layer[i];
        ApplyLayerNext(below, layerIdx, layer, i);
        match WhiteoutTarget(entry.path)
        case Opaque(dir) => entries := EmptySubtree(entries, dir);
        case Delete(target) =>
          entries := EmptySubtree(entries, target);
          entries := entries - {target};
        case NoWhiteout =>
          if !entry.dir && entry.path in entries && entries[entry.path].item.dir {
            entries := EmptySubtree(entries, entry.path);
            entries := entries - {entry.path};
          }
          entries := entries[entry.path := Placed(layerIdx, entry)];
      }
      assert layer[..|layer|] == layer;
      MergeLayersNext(layers, layerIdx);
    }
    assert layers[..|layers|] == layers;
  }
}
