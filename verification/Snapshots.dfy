/** The snapshot manager: create, validate, restore and compact over one workspace. */
module Snapshots {
  import opened Bytes
  import opened Paths
  import opened Filesystem
  import opened Workspace
  import opened RestorePlan
  import opened Restore
  import opened View
  import opened Numerals
  import opened Tar
  import opened TarRoundTrip
  import opened PathText
  import opened Layers
  import opened Readings
  import opened History
  import Diff

  // --- the preflight ----------------------------------------------------------------------------

  predicate AcceptsPath(cfg: Config, p: Path) {
    p != [] && ValidPath(p) && cfg.Captures(p)
  }

  predicate LayerAccepted(cfg: Config, b: Bytes) {
    IndexTar(b).Indexed? && forall i :: 0 <= i < |ItemsOf(b)| ==> AcceptsPath(cfg, ItemsOf(b)[i].path)
  }

  predicate LinksValid(t: Tree) {
    forall p :: p in t && t[p].Symlink? ==> ValidTarget(t[p].target, false)
  }

  predicate ParentsValid(cfg: Config, t: Tree, p: Path) {
    forall k: nat :: k < |p| ==> var a := p[..k]; if a in t then t[a].Dir? else cfg.Implicit(a)
  }

  /** Everything the preflight demands of a chain's bytes, its head and the stored index. */
  ghost predicate Acceptable(cfg: Config, bs: seq<Bytes>, head: Manifest, index: Index, t: Tree) {
    && head.roots == cfg.roots
    && (forall i :: 0 <= i < |bs| ==> LayerAccepted(cfg, bs[i]))
    && Holds(bs, t)
    && (forall p :: p in t ==> AcceptsPath(cfg, p))
    && ValidSaved(cfg, t) && LinksValid(t)
    && index == IndexOfTree(t)
    && (head.rootModes.Some? ==> forall r :: r in head.rootModes.value ==> r in cfg.roots)
  }

  lemma HoldsUnique(bs: seq<Bytes>, t: Tree, u: Tree)
    requires Holds(bs, t) && Holds(bs, u)
    ensures t == u
  {
    hide NodeAt, MergeLayers, AllItems;
    forall p | p in t ensures t[p] == u[p] {
      assert Some(t[p]) == Some(u[p]);
    }
  }

  /** The merged view as nodes, if every winner can be one. */
  method Materialize(bs: seq<Bytes>, merged: Merged<LayerEntry>) returns (ok: bool, t: Tree)
    requires forall p :: p in merged ==> merged[p].layer < |bs|
    ensures ok <==> forall p :: p in merged ==> NodeAt(bs[merged[p].layer], merged[p].item.payload).Some?
    ensures ok ==> t.Keys == merged.Keys && forall p :: p in merged ==> NodeAt(bs[merged[p].layer], merged[p].item.payload) == Some(t[p])
  {
    hide NodeAt;
    t := map[];
    var rest := merged.Keys;
    while rest != {}
      invariant rest <= merged.Keys && t.Keys == merged.Keys - rest
      invariant forall p :: p in t ==> NodeAt(bs[merged[p].layer], merged[p].item.payload) == Some(t[p])
      decreases rest
    {
      var path :| path in rest;
      rest := rest - {path};
      var n := NodeAt(bs[merged[path].layer], merged[path].item.payload);
      if n.None? { return false, t; }
      t := t[path := n.value];
    }
    ok := true;
  }

  /** The winner at a path is an item of its layer, for that path. */
  predicate PlacedIn<T(==)>(layers: seq<seq<Item<T>>>, p: Path, w: Placed<T>) {
    w.layer < |layers| && w.item in layers[w.layer] && w.item.path == p
  }

  lemma {:induction false} LayersPlaced<T>(layers: seq<seq<Item<T>>>)
    ensures forall p :: p in MergeLayers(layers) ==> PlacedIn(layers, p, MergeLayers(layers)[p])
  {
    hide ApplyLayer, PlacedIn;
    if layers != [] {
      var n := |layers| - 1;
      LayersPlaced(layers[..n]);
      var m := MergeLayers(layers[..n]);
      forall p | p in m ensures PlacedIn(layers, p, m[p]) { PlacedMore(layers, p, m[p]); }
      LayerPlaced(m, layers, n, layers[n]);
    }
  }

  lemma PlacedMore<T>(layers: seq<seq<Item<T>>>, p: Path, w: Placed<T>)
    requires layers != [] && PlacedIn(layers[..|layers| - 1], p, w)
    ensures PlacedIn(layers, p, w)
  {
  }

  lemma {:induction false} LayerPlaced<T>(m: Merged<T>, layers: seq<seq<Item<T>>>, n: nat, es: seq<Item<T>>)
    requires n < |layers| && (forall e :: e in es ==> e in layers[n]) && forall p :: p in m ==> PlacedIn(layers, p, m[p])
    ensures forall p :: p in ApplyLayer(m, n, es) ==> PlacedIn(layers, p, ApplyLayer(m, n, es)[p])
    decreases |es|
  {
    hide WhiteoutTarget;
    if es != [] {
      LayerPlaced(m, layers, n, es[..|es| - 1]);
      assert es[|es| - 1] in layers[n];
    }
  }

  lemma ParentsAreValid(cfg: Config, t: Tree)
    requires forall p :: p in t ==> cfg.Captures(p)
    requires forall p :: p in t ==> (cfg.Implicit(p) ==> t[p].Dir?) && ParentsValid(cfg, t, p)
    ensures ValidSaved(cfg, t)
  {
    hide Config.Captures, Config.Implicit;
    forall p, a | p in t && Above(a, p)
      ensures if a in t then t[a].Dir? else cfg.Implicit(a)
    {
      assert ParentsValid(cfg, t, p) && p[..|a|] == a;
    }
  }

  lemma ValidAreParents(cfg: Config, t: Tree, p: Path)
    requires ValidSaved(cfg, t) && p in t
    ensures (cfg.Implicit(p) ==> t[p].Dir?) && ParentsValid(cfg, t, p) && cfg.Captures(p)
  {
    hide Config.Captures, Config.Implicit;
    forall k: nat | k < |p|
      ensures var a := p[..k]; if a in t then t[a].Dir? else cfg.Implicit(a)
    {
      assert Above(p[..k], p);
    }
  }

  /** Derive the tree from verified layer bytes and refuse anything out of place. */
  method ValidateSnapshot(cfg: Config, bs: seq<Bytes>, head: Manifest, index: Index) returns (r: Option<Tree>)
    ensures r.Some? ==> Acceptable(cfg, bs, head, index, r.value)
    ensures r.None? ==> forall t :: !Acceptable(cfg, bs, head, index, t)
  {
    hide NodeAt, MergeLayers, ItemsOf, IndexTar, ValidSaved, Config.Captures, Config.Implicit, ValidPath, Above, ParentsValid, ValidTarget;
    if head.roots != cfg.roots { return None; }
    for i := 0 to |bs|
      invariant forall k :: 0 <= k < i ==> LayerAccepted(cfg, bs[k])
    {
      if !LayerAccepted(cfg, bs[i]) { return None; }
    }
    var merged := MergeLayerEntries(AllItems(bs));
    LayersPlaced(AllItems(bs));
    var ok, target := Materialize(bs, merged);
    if !ok { return None; }
    assert Holds(bs, target);
    forall t | Holds(bs, t) ensures t == target { HoldsUnique(bs, t, target); }
    var rest := target.Keys;
    while rest != {}
      invariant rest <= target.Keys
      invariant forall p :: p in target && p !in rest ==> PathPasses(cfg, target, p)
      decreases rest
    {
      var path :| path in rest;
      rest := rest - {path};
      if !PathPasses(cfg, target, path) {
        Refused(cfg, target, path);
        return None;
      }
    }
    AllPass(cfg, target);
    if index != IndexOfTree(target) { return None; }
    if head.rootModes.Some? && !(forall r :: r in head.rootModes.value ==> r in cfg.roots) { return None; }
    r := Some(target);
  }

  predicate PathPasses(cfg: Config, t: Tree, p: Path)
    requires p in t
  {
    && AcceptsPath(cfg, p)
    && (cfg.Implicit(p) ==> t[p].Dir?)
    && ParentsValid(cfg, t, p)
    && (t[p].Symlink? ==> ValidTarget(t[p].target, false))
  }

  lemma AllPass(cfg: Config, t: Tree)
    requires forall p :: p in t ==> PathPasses(cfg, t, p)
    ensures (forall p :: p in t ==> AcceptsPath(cfg, p)) && ValidSaved(cfg, t) && LinksValid(t)
  {
    hide ParentsValid, Config.Captures, Config.Implicit, ValidPath, ValidTarget;
    ParentsAreValid(cfg, t);
  }

  lemma Refused(cfg: Config, t: Tree, p: Path)
    requires p in t && !PathPasses(cfg, t, p)
    ensures !((forall p :: p in t ==> AcceptsPath(cfg, p)) && ValidSaved(cfg, t) && LinksValid(t))
  {
    hide ParentsValid, Config.Captures, Config.Implicit, ValidPath, ValidTarget, ValidSaved;
    if ValidSaved(cfg, t) { ValidAreParents(cfg, t, p); }
  }

  // --- markers of deleted paths ------------------------------------------------------------------------

  /** No path that disappeared from `before` has an excluded marker. */
  ghost predicate Markable(cfg: Config, before: Tree, now: Tree) {
    forall p :: p in before && p !in now ==> WhiteoutPathFor(p) !in cfg.exclude
  }

  /** The marker of a captured path is refused exactly when it is itself on the excluded list. */
  lemma MarkerCaptured(cfg: Config, p: Path)
    requires cfg.Captures(p) && ValidPath(p)
    ensures p != [] && (AcceptsPath(cfg, WhiteoutPathFor(p)) <==> WhiteoutPathFor(p) !in cfg.exclude)
  {
    ParentKinds(cfg, p);
    MarkerIsValid(p);
    var w := WhiteoutPathFor(p);
    assert Parent(w) == Parent(p);
    AboveParent(w);
    AboveParent(p);
    var r :| r in cfg.roots && Above(r, p);
    assert Above(r, w);
    MarkerNotReserved(Base(p));
    assert if |p| == 1 then w == [WHITEOUT_PREFIX + Base(p)] else w[0] == Parent(w)[0] == p[0];
    var up := Parent(p);
    forall e | e in cfg.exclude && e != []
      ensures !Above(e, w)
    {
      assert Above(e, w) ==> e == up || Above(e, up);
    }
  }

  lemma MarkerNotReserved(n: Name)
    ensures !Reserved([WHITEOUT_PREFIX + n])
  {
    var l := Lower(WHITEOUT_PREFIX + n);
    assert l[1] == 119;
    assert META_ROOT[1] == 97 && PROC_ROOT[0] == 112 && l[0] == 46;
  }

  /** A snapshot's cumulative index and topology are as its walk of `t` left them. */
  ghost predicate Recorded(cfg: Config, m: Manifest, index: Index, t: Tree) {
    m.roots == cfg.roots && Shape(cfg, t) && index == IndexOfTree(t) && RootsAgree(cfg, m.rootModes, t)
  }

  /** Every name of `t` is legible: its layers show all of it, but for what links lost, and its markers decide whether its own layer passes. */
  ghost predicate Legible(cfg: Config, m: Manifest, before: Tree, t: Tree, shown: Tree) {
    NamesLegible(t) && Fades(shown, t) && (LayerAccepted(cfg, m.diffId.content) <==> Markable(cfg, before, t))
  }

  /** Root modes are those of captured roots, and agree with the entries of nested roots. */
  ghost predicate RootsAgree(cfg: Config, rootModes: Option<map<Path, Mode>>, t: Tree) {
    && rootModes.Some? && (forall r :: r in rootModes.value <==> r in cfg.roots)
    && (forall r :: r in rootModes.value && r in t ==> t[r] == Dir(rootModes.value[r]))
  }

  /** A blob and its index are stored under the blob's digest. */
  ghost predicate Stored(layers: map<Digest, Bytes>, layerIndexes: map<Digest, seq<LayerEntry>>, d: Digest) {
    && d in layers && layers[d] == d.content
    && d in layerIndexes && IndexTar(d.content) == Indexed(layerIndexes[d])
  }

  lemma ShapeIsValidSaved(cfg: Config, t: Tree)
    requires Shape(cfg, t)
    ensures ValidSaved(cfg, t) && LinksValid(t) && forall p :: p in t ==> AcceptsPath(cfg, p)
  {
    hide Packable, Readable, Config.Captures, Config.Implicit, ValidPath;
    forall p | p in t
      ensures AcceptsPath(cfg, p) && (t[p].Symlink? ==> ValidTarget(t[p].target, false)) && (cfg.Implicit(p) ==> t[p].Dir?)
    {
      ShapeAt(cfg, t, p);
      ShapeLink(cfg, t, p);
    }
    forall p, a | p in t && Above(a, p)
      ensures if a in t then t[a].Dir? else cfg.Implicit(a)
    {
      AncestorKinds(cfg, p, a);
    }
  }

  lemma ShapeLink(cfg: Config, t: Tree, p: Path)
    requires Shape(cfg, t) && p in t
    ensures t[p].Symlink? ==> ValidTarget(t[p].target, false)
    ensures cfg.Captures(p) && cfg.Implicit(p) ==> t[p].Dir?
  {
    hide Packable, Config.Captures, Config.Implicit;
    assert Readable(WithReadable(t[p]), false);
  }

  lemma DiffAccepted(cfg: Config, before: Tree, now: Tree, plain: seq<Path>, gone: seq<Path>)
    requires Carries(cfg, before) && Laid(cfg, now) && NamesLegible(before) && NamesLegible(now) && ListsDiff(before, now, plain, gone)
    ensures LayerAccepted(cfg, WriteTar(DiffTar(now, plain, gone))) <==> Markable(cfg, before, now)
  {
    hide Packable, Storable, WriteTar, DiffTar, IndexTar, ItemsOf, NodeAt, Config.Captures, ValidPath, WhiteoutPathFor, AcceptsPath, LegibleName, LegibleMarker, Blur;
    DiffListed(cfg, before, now, plain, gone);
    forall p | p in plain ensures AcceptsPath(cfg, p) { ShapeAccepts(cfg, now, p); }
    forall p | p in gone
      ensures AcceptsPath(cfg, WhiteoutPathFor(p)) <==> WhiteoutPathFor(p) !in cfg.exclude
    {
      ShapeAt(cfg, before, p);
      MarkerCaptured(cfg, p);
    }
    DiffDecodes(now, plain, gone);
    var items := ItemsOf(WriteTar(DiffTar(now, plain, gone)));
    forall i | 0 <= i < |items|
      ensures AcceptsPath(cfg, items[i].path) <==> i < |plain| || WhiteoutPathFor(gone[i - |plain|]) !in cfg.exclude
    {
      if i < |plain| { assert plain[i] in plain; } else { assert gone[i - |plain|] in gone; }
    }
    if !Markable(cfg, before, now) {
      var p :| p in before && p !in now && WhiteoutPathFor(p) in cfg.exclude;
      assert p in gone;
      var j :| 0 <= j < |gone| && gone[j] == p;
      assert !AcceptsPath(cfg, items[|plain| + j].path);
    } else {
      forall i | 0 <= i < |items| ensures AcceptsPath(cfg, items[i].path) {
        if i >= |plain| { assert gone[i - |plain|] in gone; }
      }
    }
  }

  lemma ShapeAccepts(cfg: Config, t: Tree, p: Path)
    requires Carries(cfg, t) && p in t
    ensures Packable(p, t[p]) && AcceptsPath(cfg, p)
  {
    hide Packable, Config.Captures, ValidPath;
    ShapeAt(cfg, t, p);
  }

  datatype Outcome = Saved | Clean | Failed

  method ListPlain(current: Tree, parent: Index) returns (plain: seq<Path>)
    ensures forall p :: p in plain <==> p in current && !(p in parent && SameRecord(parent[p], RecordOf(current[p])))
    ensures forall i, j :: 0 <= i < j < |plain| ==> plain[i] != plain[j]
  {
    hide SameRecord, RecordOf;
    plain := [];
    var rest := current.Keys;
    while rest != {}
      invariant rest <= current.Keys
      invariant forall p :: p in plain <==> p in current && p !in rest && !(p in parent && SameRecord(parent[p], RecordOf(current[p])))
      invariant forall i, j :: 0 <= i < j < |plain| ==> plain[i] != plain[j]
      decreases rest
    {
      var path :| path in rest;
      rest := rest - {path};
      if !(path in parent && SameRecord(parent[path], RecordOf(current[path]))) {
        assert path !in plain;
        plain := plain + [path];
      }
    }
  }

  method ListGone(current: Tree, parent: Index) returns (gone: seq<Path>)
    ensures forall p :: p in gone <==> p in parent && p !in current
  {
    gone := [];
    var rest := parent.Keys;
    while rest != {}
      invariant rest <= parent.Keys
      invariant forall p :: p in gone <==> p in parent && p !in rest && p !in current
      decreases rest
    {
      var path :| path in rest;
      rest := rest - {path};
      if path !in current { gone := gone + [path]; }
    }
  }

  lemma ListsAreDiff(before: Tree, now: Tree, parent: Index, plain: seq<Path>, gone: seq<Path>)
    requires parent == IndexOfTree(before)
    requires forall p :: p in plain <==> p in now && !(p in parent && SameRecord(parent[p], RecordOf(now[p])))
    requires forall i, j :: 0 <= i < j < |plain| ==> plain[i] != plain[j]
    requires forall p :: p in gone <==> p in parent && p !in now
    ensures ListsDiff(before, now, plain, gone)
    ensures plain == [] && gone == [] <==> before == now
  {
    hide SameRecord, RecordOf;
    forall p | p in now && p in before
      ensures SameRecord(parent[p], RecordOf(now[p])) <==> before[p] == now[p]
    {
      SameRecordIsSameNode(before[p], now[p]);
    }
    if plain == [] && gone == [] {
      forall p ensures p in before <==> p in now { assert p !in plain && p !in gone; }
      forall p | p in now ensures before[p] == now[p] { assert p !in plain; }
    } else if plain != [] {
      assert plain[0] in plain;
    } else {
      assert gone[0] in gone;
    }
  }

  // --- what the manager keeps true -----------------------------------------------------------------

  /**
   * The manager's files, the tree each snapshot was taken of, what its layers show of it where every name on
   * its chain is legible, and every id handed out so far.
   */
  datatype State = State(cfg: Config, manifests: Manifests, indexes: map<Id, Index>, layers: map<Digest, Bytes>,
                         layerIndexes: map<Digest, seq<LayerEntry>>, head: Option<Id>, walked: map<Id, Tree>, shown: map<Id, Tree>, used: set<Id>)

  /** The tree of a parent, empty before the first snapshot. */
  ghost function ParentTree(parent: Option<Id>, walked: map<Id, Tree>): Tree {
    if parent.Some? && parent.value in walked then walked[parent.value] else map[]
  }

  /** No root is "/" or starts with a mark, so no captured name does. */
  predicate PlainRoots(cfg: Config) {
    forall r :: r in cfg.roots ==> r != [] && !(BOM <= r[0])
  }

  /** The files of one snapshot are in place and as its walk left them. */
  ghost predicate Filed(s: State, id: Id) {
    && id in s.manifests && id in s.indexes && id in s.walked
    && Recorded(s.cfg, s.manifests[id], s.indexes[id], s.walked[id])
    && Stored(s.layers, s.layerIndexes, s.manifests[id].diffId) && Rewritable(s.manifests[id].diffId.content)
    && (id in s.shown ==> Legible(s.cfg, s.manifests[id], ParentTree(s.manifests[id].parent, s.walked), s.walked[id], s.shown[id]))
    && (id in s.shown && s.manifests[id].parent.Some? ==> s.manifests[id].parent.value in s.shown)
  }

  ghost predicate Kept(s: State) {
    && Faithful(s.manifests, s.shown)
    && (s.head.Some? ==> Intact(s.manifests, s.head.value))
    && (forall id :: id in s.manifests ==> Filed(s, id))
    && (forall id :: id !in s.used ==> Unused(s.manifests, id) && id !in s.shown)
    && (PlainRoots(s.cfg) ==> s.manifests.Keys <= s.shown.Keys)
  }

  /** Nothing this snapshot's walk found deleted has an excluded marker. */
  ghost predicate StepOpens(s: State, id: Id) {
    id in s.manifests && id in s.walked && Markable(s.cfg, ParentTree(s.manifests[id].parent, s.walked), s.walked[id])
  }

  /** No snapshot from the first one to `id` deleted a path with an excluded marker. */
  ghost predicate MarkersOpen(s: State, id: Id) {
    forall c, i :: IsChain(s.manifests, c) && Last(c) == id && 0 <= i < |c| ==> StepOpens(s, c[i])
  }

  lemma MarkersOpenIs(s: State, c: seq<Id>)
    requires IsChain(s.manifests, c)
    ensures MarkersOpen(s, Last(c)) <==> forall i :: 0 <= i < |c| ==> StepOpens(s, c[i])
  {
    hide StepOpens;
    forall d | IsChain(s.manifests, d) && Last(d) == Last(c) ensures d == c { ChainUnique(s.manifests, c, d); }
  }

  /** Where a name on the chain was not legible, nothing shorter than the preflight itself decides. */
  ghost predicate Passes(s: State, id: Id) {
    && id in s.manifests && id in s.indexes && id in s.walked
    && forall c :: IsChain(s.manifests, c) && Last(c) == id ==> Acceptable(s.cfg, ChainBytes(s.manifests, c), s.manifests[id], s.indexes[id], s.walked[id])
  }

  /** With legible names: no excluded marker on the way, and no link that lost its target. */
  ghost predicate Opens(s: State, id: Id) {
    if id in s.shown then MarkersOpen(s, id) && id in s.walked && LinksLegible(s.walked[id]) else Passes(s, id)
  }

  /** The preflight accepts an intact snapshot if and only if it opens, and then finds the tree that was walked. */
  lemma IntactIsAcceptable(s: State, c: seq<Id>)
    requires Kept(s) && IsChain(s.manifests, c)
    ensures var id := Last(c);
      && id in s.manifests && id in s.indexes && id in s.walked
      && (Acceptable(s.cfg, ChainBytes(s.manifests, c), s.manifests[id], s.indexes[id], s.walked[id]) <==> Opens(s, id))
      && (!Opens(s, id) ==> forall t :: !Acceptable(s.cfg, ChainBytes(s.manifests, c), s.manifests[id], s.indexes[id], t))
  {
    InManifests(s.manifests, c);
    hide *;
    var id := Last(c);
    KeptParts(s);
    FiledParts(s, id);
    forall t | Acceptable(s.cfg, ChainBytes(s.manifests, c), s.manifests[id], s.indexes[id], t) ensures t == s.walked[id] {
      AcceptableIsWalked(s.cfg, ChainBytes(s.manifests, c), s.manifests[id], s.indexes[id], t, s.walked[id]);
    }
    if id in s.shown {
      LegibleAcceptable(s, c);
    } else {
      PassesIs(s, c);
    }
    OpensIs(s, id);
  }

  lemma OpensIs(s: State, id: Id)
    ensures id in s.shown && id in s.walked ==> (Opens(s, id) <==> MarkersOpen(s, id) && LinksLegible(s.walked[id]))
    ensures id !in s.shown ==> (Opens(s, id) <==> Passes(s, id))
  {
    hide MarkersOpen, LinksLegible, Passes;
  }

  lemma InManifests(ms: Manifests, c: seq<Id>)
    requires IsChain(ms, c)
    ensures c != [] && (forall i :: 0 <= i < |c| ==> c[i] in ms) && Last(c) in ms
  {
  }

  lemma FiledParts(s: State, id: Id)
    requires Filed(s, id)
    ensures id in s.manifests && id in s.indexes && id in s.walked && id in s.walked && Shape(s.cfg, s.walked[id])
    ensures s.indexes[id] == IndexOfTree(s.walked[id]) && s.manifests[id].roots == s.cfg.roots && RootsAgree(s.cfg, s.manifests[id].rootModes, s.walked[id])
    ensures id in s.shown ==> Legible(s.cfg, s.manifests[id], ParentTree(s.manifests[id].parent, s.walked), s.walked[id], s.shown[id])
    ensures id in s.shown && s.manifests[id].parent.Some? ==> s.manifests[id].parent.value in s.shown
  {
    hide Shape, IndexOfTree, RootsAgree, Legible, Stored, Rewritable, ParentTree;
  }

  /** The stored index leaves one tree to accept. */
  lemma AcceptableIsWalked(cfg: Config, bs: seq<Bytes>, head: Manifest, index: Index, t: Tree, walked: Tree)
    requires Acceptable(cfg, bs, head, index, t) && index == IndexOfTree(walked)
    ensures t == walked
  {
    hide Holds, LayerAccepted, ValidSaved, LinksValid, RecordOf, AcceptsPath;
    assert IndexOfTree(t).Keys == t.Keys && IndexOfTree(walked).Keys == walked.Keys;
    forall p | p in t ensures t[p] == walked[p] {
      assert IndexOfTree(t)[p] == IndexOfTree(walked)[p];
      SameRecordIsSameNode(t[p], walked[p]);
    }
  }

  lemma PassesIs(s: State, c: seq<Id>)
    requires IsChain(s.manifests, c) && Last(c) in s.indexes && Last(c) in s.walked
    ensures Passes(s, Last(c)) <==> Acceptable(s.cfg, ChainBytes(s.manifests, c), s.manifests[Last(c)], s.indexes[Last(c)], s.walked[Last(c)])
  {
    hide Acceptable;
    forall d | IsChain(s.manifests, d) && Last(d) == Last(c) ensures d == c { ChainUnique(s.manifests, c, d); }
  }

  lemma LegibleAcceptable(s: State, c: seq<Id>)
    requires Kept(s) && IsChain(s.manifests, c) && Last(c) in s.shown
    requires Last(c) in s.manifests && Last(c) in s.indexes && Last(c) in s.walked
    ensures var id := Last(c);
      Acceptable(s.cfg, ChainBytes(s.manifests, c), s.manifests[id], s.indexes[id], s.walked[id]) <==> MarkersOpen(s, id) && LinksLegible(s.walked[id])
  {
    InManifests(s.manifests, c);
    hide *;
    var id := Last(c);
    var bs := ChainBytes(s.manifests, c);
    KeptParts(s);
    FiledParts(s, id);
    ShapeIsValidSaved(s.cfg, s.walked[id]);
    ChainAccepts(s, c);
    FaithfulAt(s, c);
    LegibleParts(s.cfg, s.manifests[id], ParentTree(s.manifests[id].parent, s.walked), s.walked[id], s.shown[id]);
    FadesIs(s.shown[id], s.walked[id]);
    if Holds(bs, s.walked[id]) { HoldsUnique(bs, s.shown[id], s.walked[id]); }
    AcceptableIs(s.cfg, bs, s.manifests[id], s.indexes[id], s.walked[id]);
  }

  lemma LegibleParts(cfg: Config, m: Manifest, before: Tree, t: Tree, shown: Tree)
    requires Legible(cfg, m, before, t, shown)
    ensures NamesLegible(t) && Fades(shown, t) && (LayerAccepted(cfg, m.diffId.content) <==> Markable(cfg, before, t))
  {
    hide NamesLegible, Fades, LayerAccepted, Markable;
  }

  /** For a walked tree and its own index only the layers are left to check. */
  lemma AcceptableIs(cfg: Config, bs: seq<Bytes>, m: Manifest, index: Index, t: Tree)
    requires m.roots == cfg.roots && index == IndexOfTree(t) && RootsAgree(cfg, m.rootModes, t)
    requires ValidSaved(cfg, t) && LinksValid(t) && forall p :: p in t ==> AcceptsPath(cfg, p)
    ensures Acceptable(cfg, bs, m, index, t) <==> (forall i :: 0 <= i < |bs| ==> LayerAccepted(cfg, bs[i])) && Holds(bs, t)
  {
    hide Holds, LayerAccepted, ValidSaved, LinksValid, IndexOfTree, AcceptsPath;
  }

  lemma FaithfulAt(s: State, c: seq<Id>)
    requires Kept(s) && IsChain(s.manifests, c) && Last(c) in s.shown
    ensures Holds(ChainBytes(s.manifests, c), s.shown[Last(c)])
  {
    hide Holds, Filed, Unused, Intact;
  }

  /** The snapshots below one with legible names have legible names. */
  lemma {:induction false} ShownBelow(s: State, c: seq<Id>, i: nat)
    requires (forall id :: id in s.manifests ==> Filed(s, id)) && IsChain(s.manifests, c) && Last(c) in s.shown && i < |c|
    ensures c[i] in s.shown
    decreases |c| - i
  {
    hide Recorded, Stored, Rewritable, Legible, ParentTree;
    if i < |c| - 1 {
      ShownBelow(s, c, i + 1);
      assert Filed(s, c[i + 1]);
    }
  }

  /** With legible names every layer of an intact chain is accepted exactly when no marker on it is excluded. */
  lemma ChainAccepts(s: State, c: seq<Id>)
    requires Kept(s) && IsChain(s.manifests, c) && Last(c) in s.shown
    ensures var bs := ChainBytes(s.manifests, c); (forall i :: 0 <= i < |bs| ==> LayerAccepted(s.cfg, bs[i])) <==> MarkersOpen(s, Last(c))
  {
    hide LayerAccepted, Recorded, NamesLegible, Fades, Markable, Holds, Stored, Rewritable, MarkersOpen, Faithful, Unused, Intact;
    MarkersOpenIs(s, c);
    var bs := ChainBytes(s.manifests, c);
    forall i | 0 <= i < |c| ensures LayerAccepted(s.cfg, bs[i]) <==> StepOpens(s, c[i]) {
      assert Filed(s, c[i]);
      ShownBelow(s, c, i);
    }
  }

  /** The state with a snapshot of `t` on top that shows `shown`. */
  ghost function Added(s: State, id: Id, m: Manifest, t: Tree, shown: Option<Tree>): State
    requires IndexTar(m.diffId.content).Indexed?
  {
    s.(manifests := s.manifests[id := m], indexes := s.indexes[id := IndexOfTree(t)],
       layers := s.layers[m.diffId := m.diffId.content], layerIndexes := s.layerIndexes[m.diffId := IndexTar(m.diffId.content).entries],
       head := Some(id), walked := s.walked[id := t], shown := Showing(s.shown, id, shown), used := s.used + {id})
  }

  /** HEAD's chain has legible names only. */
  predicate ClearHead(head: Option<Id>, shown: map<Id, Tree>) {
    head.Some? ==> head.value in shown
  }

  /** What a snapshot of `t` shows on top of HEAD. */
  ghost function NextShown(s: State, t: Tree, plain: seq<Path>): Option<Tree> {
    if ClearHead(s.head, s.shown) && NamesLegible(t) then Some(After(ParentTree(s.head, s.shown), t, plain)) else None
  }

  /** Recording a diff on top of HEAD keeps the invariant and which older snapshots are intact. */
  lemma CreateKeeps(s: State, id: Id, m: Manifest, t: Tree, plain: seq<Path>, gone: seq<Path>)
    requires Kept(s) && id !in s.used
    requires Shape(s.cfg, t) && ListsDiff(ParentTree(s.head, s.walked), t, plain, gone)
    requires m.parent == s.head && m.diffId == Sha256(WriteTar(DiffTar(t, plain, gone))) && m.roots == s.cfg.roots
    requires RootsAgree(s.cfg, m.rootModes, t)
    ensures IndexTar(m.diffId.content).Indexed? && Kept(Added(s, id, m, t, NextShown(s, t, plain)))
    ensures forall x :: x != id ==> (Intact(s.manifests[id := m], x) <==> Intact(s.manifests, x))
  {
    hide *;
    KeptParts(s);
    HeadUsed(s);
    ShapeIs(s.cfg, t);
    var before, below := ParentTree(s.head, s.walked), ParentTree(s.head, s.shown);
    HeadCarries(s);
    DiffRests(s.cfg, before, t, plain, gone);
    var shown := NextShown(s, t, plain);
    NextShownIs(s, t, plain);
    if PlainRoots(s.cfg) {
      PlainNames(s.cfg, t);
      PlainHead(s);
    }
    if shown.Some? {
      var c := HeadChain(s.manifests, s.head);
      HeadHolds(s, c);
      FadesKeys(below, before);
      DiffHolds(s.cfg, ChainBytes(s.manifests, c), below, before, t, plain, gone);
      AfterFades(below, before, t, plain, gone);
      DiffAccepted(s.cfg, before, t, plain, gone);
      IsLegible(s.cfg, m, before, t, shown.value);
      HeldByHead(s, c, m, shown.value);
    }
    AddKeeps(s, id, m, t, shown);
  }

  lemma ShapeIs(cfg: Config, t: Tree)
    requires Shape(cfg, t)
    ensures Laid(cfg, t) && Carries(cfg, t)
  {
    hide Carries;
  }

  /** The snapshot's layer is the tar of the diff from `before` to `t`. */
  ghost predicate HoldsDiff(m: Manifest, before: Tree, t: Tree) {
    exists plain, gone :: ListsDiff(before, t, plain, gone) && (forall p :: p in plain ==> p in t) && m.diffId == Sha256(WriteTar(DiffTar(t, plain, gone)))
  }

  lemma FadesKeys(t: Tree, walked: Tree)
    requires Fades(t, walked)
    ensures t.Keys == walked.Keys
  {
    hide Faded;
  }

  lemma NextShownIs(s: State, t: Tree, plain: seq<Path>)
    ensures var n := NextShown(s, t, plain);
      && (n.Some? <==> ClearHead(s.head, s.shown) && NamesLegible(t))
      && (n.Some? ==> n.value == After(ParentTree(s.head, s.shown), t, plain))
  {
    hide After, NamesLegible;
  }

  lemma PlainHead(s: State)
    requires Kept(s) && PlainRoots(s.cfg)
    ensures ClearHead(s.head, s.shown)
  {
    HeadUsed(s);
    hide Faithful, Filed, Unused, Intact, PlainRoots;
  }

  /** Under plain roots every captured name is legible. */
  lemma PlainNames(cfg: Config, t: Tree)
    requires PlainRoots(cfg) && Carries(cfg, t)
    ensures NamesLegible(t)
  {
    hide LegibleName, Storable, ToTar, MarkerTar, Config.Excluded;
    forall p | p in t ensures LegibleName(p, t[p]) {
      assert Packable(p, t[p]) && cfg.Captures(p);
      var r :| r in cfg.roots && Above(r, p);
      assert p[..|r|][0] == p[0];
      LegibleIs(p, t[p]);
    }
  }

  /** Whatever is captured, its diff is written from nodes that can be read and rewritten. */
  lemma DiffRests(cfg: Config, before: Tree, now: Tree, plain: seq<Path>, gone: seq<Path>)
    requires Carries(cfg, before) && Carries(cfg, now) && ListsDiff(before, now, plain, gone)
    ensures forall p :: p in plain ==> p in now
    ensures Rewritable(WriteTar(DiffTar(now, plain, gone)))
  {
    hide Packable, Rests, Rewritable, Config.Captures, WhiteoutPathFor;
    forall p | p in plain ensures p in now && Rests(p, now[p]) { PackableRests(p, now[p]); }
    forall p | p in gone ensures Rests(WhiteoutPathFor(p), MARKER_FILE) { PackableRests(p, before[p]); }
    DiffWritten(now, plain, gone);
  }

  lemma IsLegible(cfg: Config, m: Manifest, before: Tree, t: Tree, shown: Tree)
    requires NamesLegible(t) && Fades(shown, t) && (LayerAccepted(cfg, m.diffId.content) <==> Markable(cfg, before, t))
    ensures Legible(cfg, m, before, t, shown)
  {
    hide NamesLegible, Fades, LayerAccepted, Markable;
  }

  /** The layers of HEAD and one more replay to `t`. */
  ghost predicate ShowsOnHead(s: State, b: Bytes, t: Tree) {
    forall c :: (if s.head.None? then c == [] else IsChain(s.manifests, c) && Last(c) == s.head.value) ==>
      (forall i :: 0 <= i < |c| ==> c[i] in s.manifests) && Holds(ChainBytes(s.manifests, c) + [b], t)
  }

  lemma HeldByHead(s: State, c: seq<Id>, m: Manifest, t: Tree)
    requires if s.head.None? then c == [] else IsChain(s.manifests, c) && Last(c) == s.head.value
    requires (forall i :: 0 <= i < |c| ==> c[i] in s.manifests) && Holds(ChainBytes(s.manifests, c) + [m.diffId.content], t)
    ensures ShowsOnHead(s, m.diffId.content, t)
  {
    hide Holds;
    if s.head.Some? {
      forall d | IsChain(s.manifests, d) && Last(d) == s.head.value ensures d == c { ChainUnique(s.manifests, c, d); }
    }
  }

  /** A written layer on top of HEAD keeps the invariant. */
  lemma AddKeeps(s: State, id: Id, m: Manifest, t: Tree, shown: Option<Tree>)
    requires Kept(s) && id !in s.used && m.parent == s.head
    requires Shape(s.cfg, t) && m.roots == s.cfg.roots && RootsAgree(s.cfg, m.rootModes, t)
    requires Rewritable(m.diffId.content) && (PlainRoots(s.cfg) ==> shown.Some?)
    requires shown.Some? ==> ClearHead(s.head, s.shown) && Legible(s.cfg, m, ParentTree(s.head, s.walked), t, shown.value)
    requires shown.Some? ==> ShowsOnHead(s, m.diffId.content, shown.value)
    ensures IndexTar(m.diffId.content).Indexed? && Kept(Added(s, id, m, t, shown))
    ensures forall x :: x != id ==> (Intact(s.manifests[id := m], x) <==> Intact(s.manifests, x))
  {
    hide *;
    KeptParts(s);
    HeadUsed(s);
    var c := HeadChain(s.manifests, s.head);
    if shown.Some? { HeadShows(s, c, m, shown.value); }
    WrittenReads(m.diffId.content);
    UnusedAdd(s, id, m);
    ChainBytesNone(s.manifests);
    FaithfulAdd(s.manifests, s.shown, c, id, m, shown);
    IsRecorded(s.cfg, m, t);
    FiledAdd(s, id, m, t, shown);
    AddedIs(s, id, m, t, shown);
    KeptFrom(Added(s, id, m, t, shown));
  }

  lemma HeadShows(s: State, c: seq<Id>, m: Manifest, t: Tree)
    requires if s.head.None? then c == [] else IsChain(s.manifests, c) && Last(c) == s.head.value
    requires ShowsOnHead(s, m.diffId.content, t)
    ensures (forall i :: 0 <= i < |c| ==> c[i] in s.manifests)
    ensures Holds((if c == [] then [] else ChainBytes(s.manifests, c)) + [m.diffId.content], t)
  {
    hide Holds;
    if c == [] { ChainBytesNone(s.manifests); }
  }

  lemma AddedIs(s: State, id: Id, m: Manifest, t: Tree, shown: Option<Tree>)
    requires IndexTar(m.diffId.content).Indexed?
    ensures var a := Added(s, id, m, t, shown);
      && a.cfg == s.cfg && a.manifests == s.manifests[id := m] && a.walked == s.walked[id := t] && a.head == Some(id) && a.used == s.used + {id}
      && a.shown == Showing(s.shown, id, shown) && a.indexes == s.indexes[id := IndexOfTree(t)]
      && (shown.Some? ==> a.shown == s.shown[id := shown.value]) && (shown.None? ==> a.shown == s.shown)
  {
    hide IndexTar, IndexOfTree;
  }

  lemma KeptParts(s: State)
    requires Kept(s)
    ensures Faithful(s.manifests, s.shown) && (s.head.Some? ==> Intact(s.manifests, s.head.value))
    ensures (forall id :: id in s.manifests ==> Filed(s, id)) && (forall id :: id !in s.used ==> Unused(s.manifests, id) && id !in s.shown)
    ensures PlainRoots(s.cfg) ==> s.manifests.Keys <= s.shown.Keys
  {
    hide Faithful, Intact, Filed, Unused, PlainRoots;
  }

  lemma KeptFrom(s: State)
    requires Faithful(s.manifests, s.shown) && (s.head.Some? ==> Intact(s.manifests, s.head.value))
    requires (forall id :: id in s.manifests ==> Filed(s, id)) && (forall id :: id !in s.used ==> Unused(s.manifests, id) && id !in s.shown)
    requires PlainRoots(s.cfg) ==> s.manifests.Keys <= s.shown.Keys
    ensures Kept(s)
  {
    hide Faithful, Intact, Filed, Unused, PlainRoots;
  }

  lemma IsRecorded(cfg: Config, m: Manifest, t: Tree)
    requires Shape(cfg, t) && m.roots == cfg.roots && RootsAgree(cfg, m.rootModes, t)
    ensures Recorded(cfg, m, IndexOfTree(t), t)
  {
    hide Shape, IndexOfTree, RootsAgree;
  }

  lemma FiledAdd(s: State, id: Id, m: Manifest, t: Tree, shown: Option<Tree>)
    requires (forall x :: x in s.manifests ==> Filed(s, x)) && Unused(s.manifests, id) && m.parent == s.head && m.parent != Some(id) && id !in s.shown
    requires Recorded(s.cfg, m, IndexOfTree(t), t) && IndexTar(m.diffId.content).Indexed? && Rewritable(m.diffId.content)
    requires shown.Some? ==> ClearHead(s.head, s.shown) && Legible(s.cfg, m, ParentTree(s.head, s.walked), t, shown.value)
    ensures forall x :: x in s.manifests[id := m] ==> Filed(Added(s, id, m, t, shown), x)
  {
    hide Recorded, IndexTar, IndexOfTree, Rewritable, Legible;
    var a := Added(s, id, m, t, shown);
    forall x | x in s.manifests[id := m] ensures Filed(a, x) {
      if x != id {
        assert Filed(s, x);
        assert s.manifests[x].parent != Some(id);
      }
    }
  }

  lemma UnusedAdd(s: State, id: Id, m: Manifest)
    requires (forall x :: x !in s.used ==> Unused(s.manifests, x) && x !in s.shown) && id !in s.used && (m.parent.Some? ==> m.parent.value in s.used)
    ensures Unused(s.manifests, id) && m.parent != Some(id)
    ensures forall x :: x !in s.used + {id} ==> Unused(s.manifests[id := m], x)
  {
  }

  ghost function HeadChain(ms: Manifests, head: Option<Id>): (c: seq<Id>)
    requires head.Some? ==> Intact(ms, head.value)
    ensures if head.None? then c == [] else IsChain(ms, c) && Last(c) == head.value
    ensures forall i :: 0 <= i < |c| ==> c[i] in ms
    ensures c == [] <==> head.None?
  {
    if head.None? then [] else var c :| IsChain(ms, c) && Last(c) == head.value; c
  }

  lemma HeadUsed(s: State)
    requires Kept(s)
    ensures s.head.Some? ==> s.head.value in s.manifests && s.head.value in s.used && Filed(s, s.head.value)
  {
    hide Filed, Faithful;
    if s.head.Some? {
      var c :| IsChain(s.manifests, c) && Last(c) == s.head.value;
    }
  }

  lemma ChainBytesNone(ms: Manifests)
    ensures ChainBytes(ms, []) == []
  {
  }

  lemma HeadCarries(s: State)
    requires Kept(s)
    ensures Carries(s.cfg, ParentTree(s.head, s.walked))
  {
    HeadUsed(s);
    hide Faithful, Unused, Intact, Carries, Stored, Rewritable, Legible;
    if s.head.None? { NothingCarried(s.cfg); }
  }

  lemma NothingCarried(cfg: Config)
    ensures Carries(cfg, map[])
  {
  }

  /** What HEAD's chain holds, the empty tree before the first snapshot. */
  lemma HeadHolds(s: State, c: seq<Id>)
    requires Kept(s) && ClearHead(s.head, s.shown) && (forall i :: 0 <= i < |c| ==> c[i] in s.manifests)
    requires if s.head.None? then c == [] else IsChain(s.manifests, c) && Last(c) == s.head.value
    ensures Holds(ChainBytes(s.manifests, c), ParentTree(s.head, s.shown)) && Fades(ParentTree(s.head, s.shown), ParentTree(s.head, s.walked))
    ensures NamesLegible(ParentTree(s.head, s.walked))
  {
    hide NodeAt, LayerAccepted, Recorded, Stored, Rewritable, LegibleName, Faded, Markable, Unused, Intact;
    if s.head.None? { assert ChainBytes(s.manifests, c) == []; } else { assert Filed(s, Last(c)); }
  }

  /** A new snapshot opens exactly when HEAD's markers and its own are accepted and its links are legible; older snapshots open as before. */
  lemma OpensAdd(s: State, id: Id, m: Manifest, t: Tree, shown: Option<Tree>)
    requires Kept(s) && id !in s.used && m.parent == s.head && IndexTar(m.diffId.content).Indexed?
    ensures shown.Some? ==> (Opens(Added(s, id, m, t, shown), id) <==>
      (s.head.Some? ==> MarkersOpen(s, s.head.value)) && Markable(s.cfg, ParentTree(s.head, s.walked), t) && LinksLegible(t))
    ensures MarkersOpen(Added(s, id, m, t, shown), id) <==>
      (s.head.Some? ==> MarkersOpen(s, s.head.value)) && Markable(s.cfg, ParentTree(s.head, s.walked), t)
    ensures forall x :: x != id ==> (Opens(Added(s, id, m, t, shown), x) <==> Opens(s, x)) && (MarkersOpen(Added(s, id, m, t, shown), x) <==> MarkersOpen(s, x))
  {
    hide *;
    var a := Added(s, id, m, t, shown);
    AddedIs(s, id, m, t, shown);
    HeadUsed(s);
    KeptParts(s);
    UnusedAdd(s, id, m);
    forall x | x in s.manifests && x != id ensures StepOpens(a, x) <==> StepOpens(s, x) { StepKept(s, a, id, m, t, x); }
    StepNew(s, a, id, m, t);
    forall x | x != id ensures (MarkersOpen(a, x) <==> MarkersOpen(s, x)) && (Opens(a, x) <==> Opens(s, x)) {
      MarkersKept(s, a, id, m, x);
      PassesKept(s, a, id, m, t, x);
      OpensAlike(s, a, x);
    }
    MarkersNew(s, a, id, m);
    OpensIs(a, id);
  }

  lemma OpensAlike(s: State, a: State, x: Id)
    requires (MarkersOpen(a, x) <==> MarkersOpen(s, x)) && (Passes(a, x) <==> Passes(s, x)) && (x in a.shown <==> x in s.shown)
    requires x in a.walked <==> x in s.walked
    requires x in s.walked ==> a.walked[x] == s.walked[x]
    ensures Opens(a, x) <==> Opens(s, x)
  {
    hide MarkersOpen, Passes, LinksLegible;
  }

  /** Chains that end elsewhere, and their bytes, are as before. */
  lemma ChainsAlike(ms: Manifests, id: Id, m: Manifest, c: seq<Id>)
    requires Unused(ms, id) && m.parent != Some(id) && c != [] && Last(c) != id
    ensures IsChain(ms[id := m], c) <==> IsChain(ms, c)
    ensures IsChain(ms, c) ==> ChainBytes(ms[id := m], c) == ChainBytes(ms, c) && forall i :: 0 <= i < |c| ==> c[i] in ms && c[i] != id
  {
    if IsChain(ms[id := m], c) { ChainsAfterAdd(ms, id, m, c); }
    if IsChain(ms, c) { ChainKept(ms, id, m, c); }
  }

  lemma PassesKept(s: State, a: State, id: Id, m: Manifest, t: Tree, x: Id)
    requires Unused(s.manifests, id) && x != id && m.parent != Some(id)
    requires a.cfg == s.cfg && a.manifests == s.manifests[id := m] && a.walked == s.walked[id := t] && a.indexes == s.indexes[id := IndexOfTree(t)]
    ensures Passes(a, x) <==> Passes(s, x)
  {
    hide Acceptable, IndexOfTree, Unused, ChainBytes;
    forall c | EndsIn(c, x) ensures ChainAlike(s, a, c) { ChainsAlike(s.manifests, id, m, c); }
    if Passes(s, x) {
      forall c | IsChain(a.manifests, c) && Last(c) == x
        ensures Acceptable(a.cfg, ChainBytes(a.manifests, c), a.manifests[x], a.indexes[x], a.walked[x])
      {
        assert EndsIn(c, x) && ChainAlike(s, a, c);
      }
    }
    if Passes(a, x) {
      forall c | IsChain(s.manifests, c) && Last(c) == x
        ensures Acceptable(s.cfg, ChainBytes(s.manifests, c), s.manifests[x], s.indexes[x], s.walked[x])
      {
        assert EndsIn(c, x) && ChainAlike(s, a, c);
      }
    }
  }

  ghost predicate ChainAlike(s: State, a: State, c: seq<Id>) {
    && (IsChain(a.manifests, c) <==> IsChain(s.manifests, c))
    && (IsChain(s.manifests, c) ==> ChainBytes(a.manifests, c) == ChainBytes(s.manifests, c))
  }

  lemma StepKept(s: State, a: State, id: Id, m: Manifest, t: Tree, x: Id)
    requires Unused(s.manifests, id) && x in s.manifests && x != id
    requires a.cfg == s.cfg && a.manifests == s.manifests[id := m] && a.walked == s.walked[id := t]
    ensures StepOpens(a, x) <==> StepOpens(s, x)
  {
    hide Markable;
  }

  lemma StepNew(s: State, a: State, id: Id, m: Manifest, t: Tree)
    requires m.parent != Some(id) && m.parent == s.head
    requires a.cfg == s.cfg && a.manifests == s.manifests[id := m] && a.walked == s.walked[id := t]
    ensures StepOpens(a, id) <==> Markable(s.cfg, ParentTree(s.head, s.walked), t)
  {
    hide Markable;
  }

  lemma MarkersKept(s: State, a: State, id: Id, m: Manifest, x: Id)
    requires Unused(s.manifests, id) && x != id && m.parent != Some(id) && a.manifests == s.manifests[id := m]
    requires forall y :: y in s.manifests && y != id ==> (StepOpens(a, y) <==> StepOpens(s, y))
    ensures MarkersOpen(a, x) <==> MarkersOpen(s, x)
  {
    hide StepOpens;
    forall c | EndsIn(c, x)
      ensures IsChain(a.manifests, c) <==> IsChain(s.manifests, c)
      ensures IsChain(s.manifests, c) ==> forall i :: 0 <= i < |c| ==> c[i] in s.manifests && c[i] != id
    {
      ChainsAlike(s.manifests, id, m, c);
    }
    if MarkersOpen(s, x) {
      forall c, i | IsChain(a.manifests, c) && Last(c) == x && 0 <= i < |c| ensures StepOpens(a, c[i]) {
        assert EndsIn(c, x);
        assert StepOpens(s, c[i]);
      }
    }
    if MarkersOpen(a, x) {
      forall c, i | IsChain(s.manifests, c) && Last(c) == x && 0 <= i < |c| ensures StepOpens(s, c[i]) {
        assert EndsIn(c, x);
        assert StepOpens(a, c[i]);
      }
    }
  }

  predicate EndsIn(c: seq<Id>, x: Id) {
    c != [] && Last(c) == x
  }

  lemma MarkersNew(s: State, a: State, id: Id, m: Manifest)
    requires Unused(s.manifests, id) && m.parent == s.head && m.parent != Some(id) && (s.head.Some? ==> Intact(s.manifests, s.head.value))
    requires a.manifests == s.manifests[id := m]
    requires forall y :: y in s.manifests && y != id ==> (StepOpens(a, y) <==> StepOpens(s, y))
    ensures MarkersOpen(a, id) <==> (s.head.Some? ==> MarkersOpen(s, s.head.value)) && StepOpens(a, id)
  {
    hide StepOpens;
    var c := HeadChain(s.manifests, s.head);
    if s.head.None? {
      assert IsChain(a.manifests, [id]) && Last([id]) == id;
      MarkersOpenIs(a, [id]);
    } else {
      ChainExtended(s.manifests, id, m, c);
      assert Last(c + [id]) == id;
      MarkersOpenIs(a, c + [id]);
      MarkersOpenIs(s, c);
      assert forall i :: 0 <= i < |c| ==> (c + [id])[i] == c[i] && c[i] != id;
      assert (c + [id])[|c|] == id;
    }
  }

  /** Over `t` a restore of `id` goes through. */
  ghost predicate Restorable(s: State, id: Id, t: Tree) {
    && Intact(s.manifests, id) && id in s.walked && Opens(s, id)
    && Walkable(t, s.cfg, true) && !Conflicts(t, s.cfg, s.walked[id])
  }

  /** A restore of `id` over `t` ends with `u`, holds back `last` and reports `changes`. */
  ghost predicate Restored(s: State, id: Id, idText: Bytes, t: Tree, dirMode: Mode, fileMode: Mode, defer: bool, u: Tree, last: map<Path, Mode>, changes: seq<Change>) {
    && id in s.walked && id in s.manifests && s.manifests[id].rootModes.Some?
    && var modes := s.manifests[id].rootModes.value; var plan := PlanOf(t, s.cfg, s.walked[id], modes, dirMode, fileMode);
      && (if defer then u == Held(plan, idText) else Reached(plan, idText, u))
      && last == plan.last && forall c :: c in changes <==> IsChange(plan, modes, c)
  }

  class SnapshotManager {
    const cfg: Config
    var manifests: Manifests
    var indexes: map<Id, Index>
    var layers: map<Digest, Bytes>
    var layerIndexes: map<Digest, seq<LayerEntry>>
    var head: Option<Id>
    /** The tree each snapshot was taken of, what its layers show of it, and every id handed out so far. */
    ghost var walked: map<Id, Tree>
    ghost var shown: map<Id, Tree>
    ghost var used: set<Id>

    ghost function Now(): State
      reads this
    {
      State(cfg, manifests, indexes, layers, layerIndexes, head, walked, shown, used)
    }

    ghost predicate Valid()
      reads this
    {
      Kept(Now())
    }

    lemma NowIs()
      ensures Valid() <==> Kept(Now())
      ensures var s := Now();
        && s.cfg == cfg && s.manifests == manifests && s.indexes == indexes && s.layers == layers
        && s.layerIndexes == layerIndexes && s.head == head && s.walked == walked && s.shown == shown && s.used == used
    {
    }

    constructor (cfg: Config)
      ensures Valid() && this.cfg == cfg && manifests == map[] && head == None && walked == map[] && shown == map[] && used == {}
    {
      this.cfg := cfg;
      manifests, indexes, layers, layerIndexes, head := map[], map[], map[], map[], None;
      walked, shown, used := map[], map[], {};
    }

    /** Write a snapshot's layer, manifest and index, and move HEAD to it. */
    method Install(id: Id, m: Manifest, tar: Bytes, entries: seq<LayerEntry>, index: Index, ghost t: Tree, ghost reading: Option<Tree>)
      requires IndexTar(m.diffId.content) == Indexed(entries) && tar == m.diffId.content && index == IndexOfTree(t)
      requires Kept(Added(Now(), id, m, t, reading))
      modifies this
      ensures Valid() && Now() == Added(old(Now()), id, m, t, reading)
    {
      hide *;
      NowIs();
      ghost var s := Now();
      layers := layers[m.diffId := tar];
      layerIndexes := layerIndexes[m.diffId := entries];
      manifests := manifests[id := m];
      indexes := indexes[id := index];
      head := Some(id);
      walked := walked[id := t];
      shown := Showing(shown, id, reading);
      used := used + {id};
      NowIs();
      AddedAll(s, id, m, t, reading, entries);
      SameState(Now(), Added(s, id, m, t, reading));
    }

    /** Restore an intact snapshot in place; HEAD moves to it. */
    method RestoreSnapshot(live: Live, id: Id, idText: Bytes, defer: bool)
      returns (ok: bool, changes: seq<Change>, last: map<Path, Mode>, order: seq<Path>)
      requires Valid() && live.Valid() && OwnerAll(live.dirMode) && CanWrite(live.tree, HEAD)
      modifies this`head, live
      ensures Valid() && live.Valid()
      ensures ok ==> Intact(manifests, id) && id in walked
      ensures ok <==> Restorable(old(Now()), id, old(live.tree))
      ensures head == if ok then Some(id) else old(head)
      ensures !ok ==> live.tree == old(live.tree)
      ensures ok && !defer ==> cfg.Captured(live.tree) == Extended(old(live.tree), cfg, walked[id])
      ensures ok ==> Restored(Now(), id, idText, old(live.tree), live.dirMode, live.fileMode, defer, live.tree, last, changes)
      ensures ok ==> Lists(order, last.Keys) && DeepOrder(order)
    {
      hide *;
      NowIs();
      ghost var s := Now();
      RestorableIs(s, id, live.tree);
      changes, last, order := [], map[], [];
      var chain;
      ok, chain := Chain(manifests, id);
      if !ok { return; }
      ChainStored(s, chain);
      var bs, _ := LoadChainLayers(manifests, layers, layerIndexes, chain);
      var target := ValidateSnapshot(cfg, bs, manifests[id], indexes[id]);
      TargetIsWalked(s, chain, target);
      if target.None? { return false, changes, last, order; }
      var m := manifests[id];
      ShapeIsValidSaved(cfg, walked[id]);
      RootsAgreeSome(cfg, m.rootModes, walked[id]);
      ghost var t := live.tree;
      ghost var plan := PlanOf(t, cfg, walked[id], m.rootModes.value, live.dirMode, live.fileMode);
      ShapeListsRoots(t, cfg, walked[id], m.rootModes.value, live.dirMode, live.fileMode);
      ok, changes, last, order := RestoreInPlace(live, cfg, target.value, m.rootModes.value, idText, defer);
      if ok {
        head := Some(id);
        MoveHead(s, id);
        NowIs();
        SameState(Now(), s.(head := Some(id)));
        IsRestored(Now(), id, idText, t, live.dirMode, live.fileMode, defer, live.tree, last, changes, plan);
        if !defer { RestoredCapture(t, cfg, walked[id], m.rootModes.value, live.dirMode, live.fileMode, idText, live.tree); }
      }
    }

    /** Delete the manifests and indexes of `chain`. */
    method Drop(chain: seq<Id>)
      requires Kept(Without(Now(), IdSet(chain)))
      modifies this
      ensures Valid() && Now() == Without(old(Now()), IdSet(chain))
    {
      for i := 0 to |chain|
        invariant manifests == old(manifests) - IdSet(chain[..i]) && indexes == old(indexes) - IdSet(chain[..i])
        invariant unchanged(`layers) && unchanged(`layerIndexes) && unchanged(`head) && unchanged(`walked) && unchanged(`shown) && unchanged(`used)
      {
        hide Kept;
        assert IdSet(chain[..i + 1]) == IdSet(chain[..i]) + {chain[i]};
        manifests := manifests - {chain[i]};
        indexes := indexes - {chain[i]};
      }
      assert chain[..|chain|] == chain;
    }

    /** Squash HEAD's chain into one layer. */
    method Compact(id: Id) returns (ok: bool, chain: seq<Id>)
      requires Valid() && id !in used
      modifies this
      ensures Valid()
      ensures ok <==> old(head).Some?
      ensures ok ==> IsChain(old(manifests), chain) && old(head) == Some(Last(chain))
      ensures !ok || |chain| == 1 ==> unchanged(this)
      ensures ok && |chain| > 1 ==>
        && head == Some(id) && id in manifests && manifests[id].parent == None && used == old(used) + {id}
        && manifests == (old(manifests) - IdSet(chain))[id := manifests[id]]
        && Last(chain) in old(walked) && walked == old(walked)[id := old(walked)[Last(chain)]]
        && (id in shown <==> Last(chain) in old(shown))
        && (id in shown ==> (Opens(Now(), id) <==> LinksLegible(walked[id])))
        && Squashed(old(Now()), Now(), Last(chain), id)
    {
      hide *;
      NowIs();
      ghost var s := Now();
      chain := [];
      if head.None? { return false, chain; }
      HeadUsed(s);
      KeptParts(s);
      ok, chain := Chain(manifests, head.value);
      if |chain| == 1 { return; }
      ChainStored(s, chain);
      var tree := MergeChain(manifests, layers, layerIndexes, chain);
      var order := ShallowFirst(tree.Keys);
      OrderListed(order, tree);
      var tar := WriteTar(DiffTar(tree, order, []));
      var m := Manifest(None, Sha256(tar), cfg.roots, manifests[head.value].rootModes);
      ghost var t := walked[head.value];
      ghost var bare := s.(head := None);
      ghost var reading := CompactShown(s, tree, order);
      CompactKeeps(s, id, m, tree, order, chain);
      AddedIs(bare, id, m, t, reading);
      var entries := IndexTar(tar).entries;
      ReIndexed(s, bare, id, m, t, reading);
      Install(id, m, tar, entries, indexes[head.value], t, reading);
      NowIs();
      ghost var a := Now();
      CompactShownIs(s, tree, order);
      DropFirst(s.manifests, id, m, chain);
      DropKeeps(a, id, chain);
      Drop(chain);
      NowIs();
      WithoutIs(a, IdSet(chain));
      FirstOpens(Now(), id);
      CompactSquashes(s, Now(), id, m, tree, order, chain);
    }

    /** Capture the workspace `t` as a diff layer against HEAD. */
    method Create(t: Tree, id: Id, skipIfClean: bool) returns (r: Outcome)
      requires Valid() && WellFormed(t) && id !in used
      requires forall p :: p in t && cfg.Captures(p) ==> Sized(p, t[p])
      modifies this
      ensures Valid()
      ensures r.Failed? <==> !Walkable(t, cfg, false)
      ensures !r.Saved? ==> unchanged(this)
      ensures r.Clean? <==>
        && Walkable(t, cfg, false) && skipIfClean && cfg.Captured(t) == ParentTree(old(head), old(walked))
        && (old(head).None? || old(manifests)[old(head).value].rootModes in {None, Some(RootModes(t, map[], RootSet(cfg)))})
      ensures r.Saved? ==>
        && head == Some(id) && Intact(manifests, id) && walked == old(walked)[id := cfg.Captured(t)] && used == old(used) + {id}
        && manifests == old(manifests)[id := manifests[id]] && manifests[id].parent == old(head)
        && manifests[id].rootModes == Some(RootModes(t, map[], RootSet(cfg)))
        && HoldsDiff(manifests[id], ParentTree(old(head), old(walked)), cfg.Captured(t))
        && (forall x :: x != id ==> (Intact(manifests, x) <==> Intact(old(manifests), x)) && (Opens(Now(), x) <==> Opens(old(Now()), x)))
        && (id in shown <==> ClearHead(old(head), old(shown)) && NamesLegible(cfg.Captured(t)))
        && (MarkersOpen(Now(), id) <==> (old(head).Some? ==> MarkersOpen(old(Now()), old(head).value)) && Markable(cfg, ParentTree(old(head), old(walked)), cfg.Captured(t)))
        && (id in shown ==> (Opens(Now(), id) <==> MarkersOpen(Now(), id) && LinksLegible(cfg.Captured(t))))
        && (old(head).None? ==> (Opens(Now(), id) <==> NamesLegible(cfg.Captured(t)) && LinksLegible(cfg.Captured(t))))
    {
      hide *;
      NowIs();
      ghost var s := Now();
      var parent: Index := map[];
      HeadRecorded(s);
      if head.Some? { parent := indexes[head.value]; }
      var ok, walk := WalkTree(t, cfg, false);
      if !ok { return Failed; }
      var current := walk.entries;
      WalkShape(cfg, t);
      var rootModes := map r | r in RootSet(cfg) :: RootMode(t, map[], r);
      RootModesAgree(t, cfg, rootModes);
      var plain := ListPlain(current, parent);
      var gone := ListGone(current, parent);
      ListsAreDiff(ParentTree(head, walked), current, parent, plain, gone);
      var sameModes := head.None? || manifests[head.value].rootModes in {None, Some(rootModes)};
      if plain == [] && gone == [] && sameModes && skipIfClean { return Clean; }
      Record(id, current, rootModes, plain, gone);
      if s.head.None? {
        NowIs();
        ClearNone(s);
        ShapeIs(cfg, current);
        FirstOpensIff(Now(), id, current);
      }
      r := Saved;
    }

    /** Write the diff's layer, its manifest and index, and move HEAD. */
    method Record(id: Id, current: Tree, rootModes: map<Path, Mode>, plain: seq<Path>, gone: seq<Path>)
      requires Valid() && id !in used && Shape(cfg, current) && ListsDiff(ParentTree(head, walked), current, plain, gone)
      requires RootsAgree(cfg, Some(rootModes), current)
      modifies this
      ensures Valid() && head == Some(id) && Intact(manifests, id) && id in manifests
      ensures walked == old(walked)[id := current] && used == old(used) + {id}
      ensures manifests == old(manifests)[id := manifests[id]] && manifests[id].parent == old(head) && manifests[id].rootModes == Some(rootModes)
      ensures forall x :: x != id ==> (Intact(manifests, x) <==> Intact(old(manifests), x)) && (Opens(Now(), x) <==> Opens(old(Now()), x))
      ensures HoldsDiff(manifests[id], ParentTree(old(head), old(walked)), current)
      ensures id in shown <==> ClearHead(old(head), old(shown)) && NamesLegible(current)
      ensures MarkersOpen(Now(), id) <==> (old(head).Some? ==> MarkersOpen(old(Now()), old(head).value)) && Markable(cfg, ParentTree(old(head), old(walked)), current)
      ensures id in shown ==> (Opens(Now(), id) <==> MarkersOpen(Now(), id) && LinksLegible(current))
    {
      hide *;
      NowIs();
      ghost var s := Now();
      PlainListed(ParentTree(head, walked), current, plain, gone);
      var tar := WriteTar(DiffTar(current, plain, gone));
      var diffId := Sha256(tar);
      var manifest := Manifest(head, diffId, cfg.roots, Some(rootModes));
      KeptParts(s);
      ghost var reading := NextShown(s, current, plain);
      NextShownIs(s, current, plain);
      CreateKeeps(s, id, manifest, current, plain, gone);
      AddedIs(s, id, manifest, current, reading);
      OpensAdd(s, id, manifest, current, reading);
      Install(id, manifest, tar, IndexTar(tar).entries, IndexOfTree(current), current, reading);
      NowIs();
      KeptParts(Now());
      DiffHeld(manifest, ParentTree(s.head, s.walked), current, plain, gone);
    }
  }

  lemma RestorableIs(s: State, id: Id, t: Tree)
    ensures Restorable(s, id, t) <==>
      Intact(s.manifests, id) && id in s.walked && Opens(s, id) && Walkable(t, s.cfg, true) && !Conflicts(t, s.cfg, s.walked[id])
  {
    hide Intact, Opens, Walkable, Conflicts;
  }

  lemma IsRestored(
      s: State, id: Id, idText: Bytes, t: Tree, dirMode: Mode, fileMode: Mode, defer: bool,
      u: Tree, last: map<Path, Mode>, changes: seq<Change>, plan: Plan)
    requires id in s.walked && id in s.manifests && s.manifests[id].rootModes.Some?
    requires plan == PlanOf(t, s.cfg, s.walked[id], s.manifests[id].rootModes.value, dirMode, fileMode)
    requires if defer then u == Held(plan, idText) else Reached(plan, idText, u)
    requires last == plan.last && forall c :: c in changes <==> IsChange(plan, s.manifests[id].rootModes.value, c)
    ensures Restored(s, id, idText, t, dirMode, fileMode, defer, u, last, changes)
  {
    hide PlanOf, Held, Reached, IsChange;
  }

  lemma DiffHeld(m: Manifest, before: Tree, t: Tree, plain: seq<Path>, gone: seq<Path>)
    requires ListsDiff(before, t, plain, gone) && (forall p :: p in plain ==> p in t) && m.diffId == Sha256(WriteTar(DiffTar(t, plain, gone)))
    ensures HoldsDiff(m, before, t)
  {
    hide ListsDiff, WriteTar, DiffTar;
  }

  lemma SameState(s: State, u: State)
    requires s.cfg == u.cfg && s.manifests == u.manifests && s.indexes == u.indexes && s.layers == u.layers
    requires s.layerIndexes == u.layerIndexes && s.head == u.head && s.walked == u.walked && s.shown == u.shown && s.used == u.used
    ensures s == u
  {
  }

  lemma AddedAll(s: State, id: Id, m: Manifest, t: Tree, shown: Option<Tree>, entries: seq<LayerEntry>)
    requires IndexTar(m.diffId.content) == Indexed(entries)
    ensures var a := Added(s, id, m, t, shown);
      && a.cfg == s.cfg && a.manifests == s.manifests[id := m] && a.indexes == s.indexes[id := IndexOfTree(t)]
      && a.layers == s.layers[m.diffId := m.diffId.content] && a.layerIndexes == s.layerIndexes[m.diffId := entries]
      && a.head == Some(id) && a.walked == s.walked[id := t] && a.shown == Showing(s.shown, id, shown) && a.used == s.used + {id}
  {
    hide IndexTar, IndexOfTree;
  }

  lemma ReIndexed(s: State, bare: State, id: Id, m: Manifest, t: Tree, shown: Option<Tree>)
    requires bare == s.(head := None) && IndexTar(m.diffId.content).Indexed?
    ensures Added(bare, id, m, t, shown) == Added(s, id, m, t, shown)
  {
    hide IndexTar, IndexOfTree;
  }

  function IdSet(c: seq<Id>): set<Id> {
    set x | x in c
  }

  /** The state without the manifests and indexes of `gone`. */
  ghost function Without(s: State, gone: set<Id>): State {
    s.(manifests := s.manifests - gone, indexes := s.indexes - gone)
  }

  lemma WithoutIs(s: State, gone: set<Id>)
    ensures var w := Without(s, gone);
      w.cfg == s.cfg && w.manifests == s.manifests - gone && w.walked == s.walked && w.shown == s.shown && w.used == s.used && w.head == s.head
  {
  }

  /** A first snapshot deleted nothing, so only its links decide. */
  lemma FirstOpens(s: State, id: Id)
    requires id in s.manifests && s.manifests[id].parent == None && id in s.walked
    ensures MarkersOpen(s, id) && (id in s.shown ==> (Opens(s, id) <==> LinksLegible(s.walked[id])))
  {
    assert IsChain(s.manifests, [id]) && Last([id]) == id;
    MarkersOpenIs(s, [id]);
    hide MarkersOpen, LinksLegible, Passes;
  }

  /** A first snapshot opens exactly when every name and link of its tree is legible. */
  lemma FirstOpensIff(s: State, id: Id, t: Tree)
    requires Kept(s) && id in s.manifests && s.manifests[id].parent == None && id in s.walked && s.walked[id] == t
    requires HoldsDiff(s.manifests[id], map[], t)
    ensures Opens(s, id) <==> NamesLegible(t) && LinksLegible(t)
  {
    hide *;
    var c := FirstChain(s.manifests, id);
    FirstOpens(s, id);
    KeptParts(s);
    FiledParts(s, id);
    ShapeIs(s.cfg, t);
    CarriesRests(s.cfg, t);
    OpensIs(s, id);
    PassesIs(s, c);
    if id in s.shown {
      LegibleParts(s.cfg, s.manifests[id], ParentTree(s.manifests[id].parent, s.walked), t, s.shown[id]);
    } else {
      var plain, gone := DiffOfFirst(s.manifests[id], t);
      if Opens(s, id) {
        AcceptableHolds(s.cfg, ChainBytes(s.manifests, c), s.manifests[id], s.indexes[id], t);
        FirstReads(t, plain, gone);
      }
      if NamesLegible(t) { FirstAccepted(s.cfg, s.manifests[id], s.indexes[id], t, plain, gone); }
    }
  }

  lemma FirstChain(ms: Manifests, id: Id) returns (c: seq<Id>)
    requires id in ms && ms[id].parent == None
    ensures c == [id] && IsChain(ms, c) && c != [] && Last(c) == id && forall i :: 0 <= i < |c| ==> c[i] in ms
    ensures ChainBytes(ms, c) == [ms[id].diffId.content]
  {
    c := [id];
  }

  /** The one layer of a first snapshot with legible names shows its tree, but for the targets of links. */
  lemma FirstAccepted(cfg: Config, m: Manifest, index: Index, t: Tree, plain: seq<Path>, gone: seq<Path>)
    requires Shape(cfg, t) && NamesLegible(t) && ListsDiff(map[], t, plain, gone)
    requires forall p :: p in plain ==> p in t
    requires m.diffId == Sha256(WriteTar(DiffTar(t, plain, gone))) && m.roots == cfg.roots && index == IndexOfTree(t) && RootsAgree(cfg, m.rootModes, t)
    ensures Acceptable(cfg, [m.diffId.content], m, index, t) <==> LinksLegible(t)
  {
    hide *;
    var b := WriteTar(DiffTar(t, plain, gone));
    assert [] + [b] == [b];
    ShapeIs(cfg, t);
    ShapeIsValidSaved(cfg, t);
    NothingCarried(cfg);
    NothingHeld();
    NothingGone(cfg, t, t);
    DiffHolds(cfg, [], map[], map[], t, plain, gone);
    DiffAccepted(cfg, map[], t, plain, gone);
    NothingFades();
    AfterFades(map[], map[], t, plain, gone);
    FadesIs(After(map[], t, plain), t);
    if Holds([b], t) { HoldsUnique([b], After(map[], t, plain), t); }
    AcceptableIs(cfg, [b], m, index, t);
  }

  lemma NothingFades()
    ensures Fades(map[], map[])
  {
  }

  ghost predicate PathsRest(t: Tree) {
    forall p :: p in t ==> Rests(p, t[p])
  }

  lemma CarriesRests(cfg: Config, t: Tree)
    requires Carries(cfg, t)
    ensures PathsRest(t)
  {
    hide Packable, Rests, Config.Captures;
    forall p | p in t ensures Rests(p, t[p]) { PackableRests(p, t[p]); }
  }

  lemma AcceptableHolds(cfg: Config, bs: seq<Bytes>, m: Manifest, index: Index, t: Tree)
    requires Acceptable(cfg, bs, m, index, t)
    ensures Holds(bs, t)
  {
    hide Holds, LayerAccepted, ValidSaved, LinksValid, IndexOfTree, AcceptsPath;
  }

  lemma HasOne(s: seq<Path>)
    requires s != []
    ensures exists p :: p in s
  {
    assert s[0] in s;
  }

  lemma DiffOfFirst(m: Manifest, t: Tree) returns (plain: seq<Path>, gone: seq<Path>)
    requires HoldsDiff(m, map[], t)
    ensures ListsDiff(map[], t, plain, gone)
    ensures gone == [] && (forall p :: p in plain <==> p in t) && m.diffId == Sha256(WriteTar(DiffTar(t, plain, gone)))
  {
    hide WriteTar, DiffTar;
    plain, gone :| ListsDiff(map[], t, plain, gone) && (forall p :: p in plain ==> p in t) && m.diffId == Sha256(WriteTar(DiffTar(t, plain, gone)));
    if gone != [] { HasOne(gone); }
  }

  /** If the paths read back are the paths written, every name was legible: the longest illegible one could come from nowhere. */
  lemma FirstReads(t: Tree, plain: seq<Path>, gone: seq<Path>)
    requires PathsRest(t) && gone == [] && forall p :: p in plain <==> p in t
    requires Holds([WriteTar(DiffTar(t, plain, gone))], t)
    ensures NamesLegible(t)
  {
    hide *;
    if !NamesLegible(t) {
      var b := WriteTar(DiffTar(t, plain, gone));
      var q := LongestIllegible(t);
      var x := ReadFor(b, t, q);
      var p := SourceOf(t, plain, gone, x);
      RestsAt(t, q);
      ReadAtIs(q, t[q]);
      ReadShorter(t, p, q);
    }
  }

  lemma LongestIllegible(t: Tree) returns (q: Path)
    requires !NamesLegible(t)
    ensures q in t && !LegibleName(q, t[q])
    ensures forall p :: p in t && !LegibleName(p, t[p]) ==> |Render(p)| <= |Render(q)|
  {
    hide LegibleName, Render;
    var s := set p | p in t && !LegibleName(p, t[p]);
    var p0 :| p0 in t && !LegibleName(p0, t[p0]);
    assert p0 in s;
    q := LongestOf(s);
  }

  lemma {:induction false} LongestOf(s: set<Path>) returns (q: Path)
    requires s != {}
    ensures q in s && forall p :: p in s ==> |Render(p)| <= |Render(q)|
    decreases s
  {
    hide Render;
    q :| q in s;
    if s != {q} {
      var o := LongestOf(s - {q});
      if |Render(o)| > |Render(q)| { q := o; }
    }
  }

  /** Something is read under every path of a tree that is held. */
  lemma ReadFor(b: Bytes, t: Tree, q: Path) returns (x: Item<LayerEntry>)
    requires Holds([b], t) && q in t
    ensures x in ItemsOf(b) && x.path == q
  {
    hide NodeAt, MergeLayers, ItemsOf;
    var m := MergeLayers(AllItems([b]));
    LayersPlaced(AllItems([b]));
    x := m[q].item;
    assert PlacedIn(AllItems([b]), q, m[q]);
  }

  /** The path an item was written for. */
  lemma SourceOf(t: Tree, plain: seq<Path>, gone: seq<Path>, x: Item<LayerEntry>) returns (p: Path)
    requires PathsRest(t) && gone == [] && forall o :: o in plain <==> o in t
    requires x in ItemsOf(WriteTar(DiffTar(t, plain, gone)))
    ensures p in t && ReadAt(p, t[p]) == x.path
  {
    hide *;
    var es := DiffTar(t, plain, gone);
    PlainSources(t, plain, gone);
    StorableAll(es);
    IndexOfWritten(es);
    ItemsIndexed(WriteTar(es), ReadBackAll(es, 0));
    ReadBackPaths(es, 0);
    var i :| 0 <= i < |es| && Reported(es[i]) && x.payload.path == ReadPath(es[i]);
    p := plain[i];
    RestsAt(t, p);
    ReadsAt(p, t[p]);
  }

  lemma PlainSources(t: Tree, plain: seq<Path>, gone: seq<Path>)
    requires PathsRest(t) && gone == [] && forall o :: o in plain <==> o in t
    ensures var es := DiffTar(t, plain, gone);
      |es| == |plain| && forall i :: 0 <= i < |es| ==> plain[i] in t && es[i] == ToTar(plain[i], t[plain[i]]) && Storable(es[i])
  {
    hide ToTar, Storable, Tame;
    forall i | 0 <= i < |plain| ensures plain[i] in t && Storable(ToTar(plain[i], t[plain[i]])) {
      assert plain[i] in plain && Rests(plain[i], t[plain[i]]);
    }
  }

  lemma StorableAll(es: seq<TarEntry>)
    requires forall i :: 0 <= i < |es| ==> Storable(es[i])
    ensures AllStorable(es)
  {
    hide Storable;
  }

  lemma RestsAt(t: Tree, p: Path)
    requires PathsRest(t) && p in t
    ensures Rests(p, t[p])
  {
    hide Rests;
  }

  /** An illegible path is read from a longer illegible one only. */
  lemma ReadShorter(t: Tree, p: Path, q: Path)
    requires PathsRest(t) && p in t && q in t && q != [] && ReadAt(p, t[p]) == q && !LegibleName(q, t[q])
    ensures !LegibleName(p, t[p]) && |Render(q)| < |Render(p)|
  {
    RestsAt(t, p);
    ReadAtIs(p, t[p]);
    hide *;
    UnmarkShorter(p);
  }

  lemma ReadAtIs(p: Path, n: Node)
    requires Rests(p, n)
    ensures p != [] && (LegibleName(p, n) ==> ReadAt(p, n) == p)
    ensures !LegibleName(p, n) ==> BOM <= p[0] && ReadAt(p, n) == Unmark(p)
  {
    if !LegibleName(p, n) { MarkInFirst(p, n); }
    hide Render, Unmark, Storable, MarkedName, TameName;
  }

  lemma TargetIsWalked(s: State, c: seq<Id>, target: Option<Tree>)
    requires Kept(s) && IsChain(s.manifests, c)
    requires Last(c) in s.manifests && Last(c) in s.indexes && Last(c) in s.walked
    requires var bs, m, index := ChainBytes(s.manifests, c), s.manifests[Last(c)], s.indexes[Last(c)];
      if target.Some? then Acceptable(s.cfg, bs, m, index, target.value) else forall t :: !Acceptable(s.cfg, bs, m, index, t)
    ensures target == if Opens(s, Last(c)) then Some(s.walked[Last(c)]) else None
  {
    IntactIsAcceptable(s, c);
    hide Holds, LayerAccepted, ValidSaved, LinksValid, Kept, Opens, AcceptsPath, IndexOfTree;
    if target.Some? && Opens(s, Last(c)) { HoldsUnique(ChainBytes(s.manifests, c), target.value, s.walked[Last(c)]); }
  }

  lemma RootsAgreeSome(cfg: Config, rootModes: Option<map<Path, Mode>>, t: Tree)
    requires RootsAgree(cfg, rootModes, t)
    ensures rootModes.Some? && RootsAgree(cfg, Some(rootModes.value), t)
  {
  }

  lemma MoveHead(s: State, id: Id)
    requires Kept(s) && Intact(s.manifests, id)
    ensures Kept(s.(head := Some(id)))
  {
    KeptParts(s);
    var u := s.(head := Some(id));
    hide *;
    FiledAlike(s, u);
    KeptFrom(u);
  }

  /** Snapshots that stay keep their files when HEAD moves or others go. */
  lemma FiledAlike(s: State, u: State)
    requires u.cfg == s.cfg && u.layers == s.layers && u.layerIndexes == s.layerIndexes && u.walked == s.walked && u.shown == s.shown
    requires (forall id :: id in u.manifests ==> id in s.manifests && u.manifests[id] == s.manifests[id])
    requires (forall id :: id in u.manifests && id in s.indexes ==> id in u.indexes && u.indexes[id] == s.indexes[id])
    requires forall id :: id in s.manifests ==> Filed(s, id)
    ensures forall id :: id in u.manifests ==> Filed(u, id)
  {
    hide Recorded, Stored, Rewritable, Legible;
    forall x | x in u.manifests ensures Filed(u, x) { assert Filed(s, x); }
  }

  /** The files of every snapshot on an intact chain. */
  lemma ChainStored(s: State, c: seq<Id>)
    requires Kept(s) && IsChain(s.manifests, c)
    ensures forall i :: 0 <= i < |c| ==> c[i] in s.manifests && Stored(s.layers, s.layerIndexes, s.manifests[c[i]].diffId)
    ensures forall i :: 0 <= i < |c| ==> Rewritable(s.manifests[c[i]].diffId.content)
    ensures var id := Last(c);
      && id in s.manifests && id in s.indexes && id in s.walked
      && s.indexes[id] == IndexOfTree(s.walked[id]) && Shape(s.cfg, s.walked[id])
      && s.manifests[id].roots == s.cfg.roots && RootsAgree(s.cfg, s.manifests[id].rootModes, s.walked[id])
  {
    hide Faithful, Unused, Shape, LayerAccepted, Stored, Rewritable, RootsAgree, IndexOfTree, Legible;
    forall i | 0 <= i < |c| ensures Filed(s, c[i]) { }
    assert Filed(s, Last(c));
  }

  /** The layers of a chain and their stored indexes. */
  method LoadChainLayers(ms: Manifests, layers: map<Digest, Bytes>, layerIndexes: map<Digest, seq<LayerEntry>>, c: seq<Id>)
    returns (bs: seq<Bytes>, items: seq<seq<Item<LayerEntry>>>)
    requires forall i :: 0 <= i < |c| ==> c[i] in ms && Stored(layers, layerIndexes, ms[c[i]].diffId)
    ensures bs == ChainBytes(ms, c) && items == AllItems(bs)
  {
    hide IndexTar, ToItems;
    bs, items := [], [];
    for i := 0 to |c|
      invariant |bs| == i && |items| == i
      invariant forall k :: 0 <= k < i ==> bs[k] == ms[c[k]].diffId.content && items[k] == ItemsOf(bs[k])
    {
      assert Stored(layers, layerIndexes, ms[c[i]].diffId);
      bs := bs + [layers[ms[c[i]].diffId]];
      items := items + [ToItems(layerIndexes[ms[c[i]].diffId])];
    }
  }

  /** The tree a chain of layers holds. */
  method MergeChain(ms: Manifests, layers: map<Digest, Bytes>, layerIndexes: map<Digest, seq<LayerEntry>>, c: seq<Id>)
    returns (tree: Tree)
    requires forall i :: 0 <= i < |c| ==> c[i] in ms && Stored(layers, layerIndexes, ms[c[i]].diffId) && Rewritable(ms[c[i]].diffId.content)
    ensures Holds(ChainBytes(ms, c), tree) && forall p :: p in tree ==> Rests(p, tree[p])
  {
    hide *;
    var bs, items := LoadChainLayers(ms, layers, layerIndexes, c);
    var merged := MergeLayerEntries(items);
    ChainRewritable(ms, c);
    MergedNodes(bs, merged);
    var good;
    good, tree := Materialize(bs, merged);
    HoldsIs(bs, merged, tree);
  }

  lemma ChainRewritable(ms: Manifests, c: seq<Id>)
    requires forall i :: 0 <= i < |c| ==> c[i] in ms && Rewritable(ms[c[i]].diffId.content)
    ensures forall i :: 0 <= i < |ChainBytes(ms, c)| ==> Rewritable(ChainBytes(ms, c)[i])
  {
    hide Rewritable;
  }

  /** Every winner of a merge of written layers is a node that can be written again. */
  lemma MergedNodes(bs: seq<Bytes>, merged: Merged<LayerEntry>)
    requires merged == MergeLayers(AllItems(bs)) && forall i :: 0 <= i < |bs| ==> Rewritable(bs[i])
    ensures forall p :: p in merged ==> merged[p].layer < |bs|
    ensures forall p :: p in merged ==>
      NodeAt(bs[merged[p].layer], merged[p].item.payload).Some? && Rests(p, NodeAt(bs[merged[p].layer], merged[p].item.payload).value)
  {
    hide NodeAt, MergeLayers, ItemsOf, Rewritable, Rests;
    LayersPlaced(AllItems(bs));
    forall p | p in merged
      ensures NodeAt(bs[merged[p].layer], merged[p].item.payload).Some? && Rests(p, NodeAt(bs[merged[p].layer], merged[p].item.payload).value)
    {
      var b := bs[merged[p].layer];
      WrittenReads(b);
      assert merged[p].item in ItemsOf(b);
    }
  }

  lemma HoldsIs(bs: seq<Bytes>, merged: Merged<LayerEntry>, t: Tree)
    requires merged == MergeLayers(AllItems(bs)) && t.Keys == merged.Keys
    requires forall p :: p in merged ==> merged[p].layer < |bs| && NodeAt(bs[merged[p].layer], merged[p].item.payload) == Some(t[p])
    ensures Holds(bs, t)
  {
    hide NodeAt, MergeLayers;
  }

  lemma OrderListed(order: seq<Path>, t: Tree)
    requires Lists(order, t.Keys)
    ensures ListsDiff(map[], t, order, []) && forall p :: p in order ==> p in t
  {
  }

  /** What a compacted snapshot shows: what HEAD's chain showed, written and read once more. */
  ghost function CompactShown(s: State, tree: Tree, order: seq<Path>): Option<Tree> {
    if ClearHead(s.head, s.shown) then Some(After(map[], tree, order)) else None
  }

  lemma CompactShownIs(s: State, tree: Tree, order: seq<Path>)
    ensures CompactShown(s, tree, order) == if ClearHead(s.head, s.shown) then Some(After(map[], tree, order)) else None
    ensures s.head.Some? ==> (ClearHead(s.head, s.shown) <==> s.head.value in s.shown)
  {
    hide After;
  }

  /** Writing what HEAD's chain holds as a first snapshot keeps the invariant. */
  lemma CompactKeeps(s: State, id: Id, m: Manifest, tree: Tree, order: seq<Path>, c: seq<Id>)
    requires Kept(s) && id !in s.used && IsChain(s.manifests, c) && s.head == Some(Last(c))
    requires Holds(ChainBytes(s.manifests, c), tree) && (forall p :: p in tree ==> Rests(p, tree[p])) && Lists(order, tree.Keys)
    requires ListsDiff(map[], tree, order, []) && forall p :: p in order ==> p in tree
    requires m.parent == None && m.diffId == Sha256(WriteTar(DiffTar(tree, order, []))) && m.roots == s.cfg.roots
    requires Last(c) in s.manifests && m.rootModes == s.manifests[Last(c)].rootModes
    ensures Last(c) in s.walked
    ensures IndexTar(m.diffId.content).Indexed? && Kept(Added(s.(head := None), id, m, s.walked[Last(c)], CompactShown(s, tree, order)))
    ensures id !in s.manifests
  {
    InManifests(s.manifests, c);
    hide *;
    var bare := s.(head := None);
    KeptWithoutHead(s);
    KeptParts(s);
    FiledParts(s, Last(c));
    var t := s.walked[Last(c)];
    DiffWritten(tree, order, []);
    CompactShownIs(s, tree, order);
    if PlainRoots(s.cfg) { PlainHead(s); }
    if Last(c) in s.shown { CompactShows(s, m, tree, order, c); }
    ClearNone(bare);
    AddKeeps(bare, id, m, t, CompactShown(s, tree, order));
  }

  lemma ClearNone(s: State)
    requires s.head == None
    ensures ClearHead(s.head, s.shown) && ParentTree(s.head, s.walked) == map[]
  {
  }

  lemma CompactShows(s: State, m: Manifest, tree: Tree, order: seq<Path>, c: seq<Id>)
    requires Kept(s) && IsChain(s.manifests, c) && s.head == Some(Last(c)) && Last(c) in s.shown
    requires Holds(ChainBytes(s.manifests, c), tree) && ListsDiff(map[], tree, order, []) && forall p :: p in order ==> p in tree
    requires m.diffId == Sha256(WriteTar(DiffTar(tree, order, []))) && Last(c) in s.walked
    ensures Legible(s.cfg, m, map[], s.walked[Last(c)], After(map[], tree, order))
    ensures ShowsOnHead(s.(head := None), m.diffId.content, After(map[], tree, order))
  {
    InManifests(s.manifests, c);
    hide *;
    var t, bare := s.walked[Last(c)], s.(head := None);
    KeptParts(s);
    FiledParts(s, Last(c));
    LegibleParts(s.cfg, s.manifests[Last(c)], ParentTree(s.manifests[Last(c)].parent, s.walked), t, s.shown[Last(c)]);
    FaithfulAt(s, c);
    HoldsUnique(ChainBytes(s.manifests, c), tree, s.shown[Last(c)]);
    ShapeIs(s.cfg, t);
    FadedLaid(s.cfg, tree, t);
    NothingCarried(s.cfg);
    NothingHeld();
    DiffHolds(s.cfg, [], map[], map[], tree, order, []);
    DiffAccepted(s.cfg, map[], tree, order, []);
    NothingGone(s.cfg, tree, t);
    RewrittenFades(tree, t, order);
    IsLegible(s.cfg, m, map[], t, After(map[], tree, order));
    ChainBytesNone(s.manifests);
    HeldByHead(bare, [], m, After(map[], tree, order));
  }

  /** `id` stands for what `before` was: the same tree and root modes; if `before` opens, it opens unless a name or link is lost. */
  ghost predicate Squashed(s: State, u: State, before: Id, id: Id) {
    && u.cfg == s.cfg && before in s.manifests && id in u.manifests && u.manifests[id].rootModes == s.manifests[before].rootModes
    && u.manifests[id].roots == s.manifests[before].roots && before in s.walked && id in u.walked && u.walked[id] == s.walked[before]
    && Intact(s.manifests, before) && Intact(u.manifests, id)
    && (Opens(s, before) ==> (Opens(u, id) <==> NamesLegible(u.walked[id]) && LinksLegible(u.walked[id])))
    && (Opens(s, before) && before in s.shown ==> Opens(u, id))
  }

  lemma CompactSquashes(s: State, u: State, id: Id, m: Manifest, tree: Tree, order: seq<Path>, c: seq<Id>)
    requires Kept(s) && Kept(u) && IsChain(s.manifests, c) && Last(c) in s.walked && u.cfg == s.cfg
    requires id in u.manifests && u.manifests[id] == m && m.parent == None && id in u.walked && u.walked[id] == s.walked[Last(c)]
    requires Last(c) in s.manifests && m.rootModes == s.manifests[Last(c)].rootModes
    requires Holds(ChainBytes(s.manifests, c), tree) && Lists(order, tree.Keys)
    requires m.diffId == Sha256(WriteTar(DiffTar(tree, order, [])))
    ensures Squashed(s, u, Last(c), id)
  {
    InManifests(s.manifests, c);
    hide *;
    var before, t := Last(c), s.walked[Last(c)];
    KeptParts(s);
    KeptParts(u);
    FiledParts(s, before);
    FiledParts(u, id);
    if Opens(s, before) {
      IntactIsAcceptable(s, c);
      AcceptableHolds(s.cfg, ChainBytes(s.manifests, c), s.manifests[before], s.indexes[before], t);
      HoldsUnique(ChainBytes(s.manifests, c), tree, t);
      OrderListed(order, t);
      DiffHeld(m, map[], t, order, []);
      FirstOpensIff(u, id, t);
      if before in s.shown {
        OpensIs(s, before);
        LegibleParts(s.cfg, s.manifests[before], ParentTree(s.manifests[before].parent, s.walked), t, s.shown[before]);
      }
    }
    HeadsIntact(s.manifests, c);
    OneIntact(u.manifests, id);
    IsSquashed(s, u, before, id);
  }

  lemma HeadsIntact(ms: Manifests, c: seq<Id>)
    requires IsChain(ms, c)
    ensures Intact(ms, Last(c))
  {
  }

  lemma OneIntact(ms: Manifests, id: Id)
    requires id in ms && ms[id].parent == None
    ensures Intact(ms, id)
  {
    assert IsChain(ms, [id]) && Last([id]) == id;
  }

  lemma IsSquashed(s: State, u: State, before: Id, id: Id)
    requires u.cfg == s.cfg && before in s.manifests && id in u.manifests && u.manifests[id].rootModes == s.manifests[before].rootModes
    requires u.manifests[id].roots == s.manifests[before].roots && before in s.walked && id in u.walked && u.walked[id] == s.walked[before]
    requires Intact(s.manifests, before) && Intact(u.manifests, id)
    requires Opens(s, before) ==> (Opens(u, id) <==> NamesLegible(u.walked[id]) && LinksLegible(u.walked[id]))
    requires Opens(s, before) && before in s.shown ==> Opens(u, id)
    ensures Squashed(s, u, before, id)
  {
    hide Intact, Opens, NamesLegible, LinksLegible;
  }

  lemma NothingHeld()
    ensures Holds([], map[]) && NamesLegible(map[])
  {
  }

  lemma NothingGone(cfg: Config, t: Tree, u: Tree)
    ensures Markable(cfg, map[], t) && Markable(cfg, map[], u)
  {
  }

  lemma RewrittenFades(tree: Tree, walked: Tree, order: seq<Path>)
    requires Fades(tree, walked)
    ensures Fades(After(map[], tree, order), walked)
  {
    hide Faded, Blur;
    forall p | p in tree ensures Faded(After(map[], tree, order)[p], walked[p]) { BlurFades(tree[p], walked[p]); }
  }

  lemma KeptWithoutHead(s: State)
    requires Kept(s)
    ensures Kept(s.(head := None))
    ensures forall id :: id !in s.used ==> id !in s.manifests
  {
    KeptParts(s);
    var u := s.(head := None);
    forall id | id !in s.used ensures id !in s.manifests { assert Unused(s.manifests, id); }
    hide *;
    FiledAlike(s, u);
    KeptFrom(u);
  }

  lemma DropKeeps(s: State, id: Id, chain: seq<Id>)
    requires Kept(s) && s.head == Some(id) && id in s.manifests && s.manifests[id].parent == None && id !in chain
    ensures Kept(Without(s, IdSet(chain)))
  {
    hide *;
    KeptParts(s);
    var u := Without(s, IdSet(chain));
    FaithfulRemove(s.manifests, s.shown, IdSet(chain));
    WithoutParts(s, id, chain);
    FiledAlike(s, u);
    KeptFrom(u);
  }

  lemma WithoutParts(s: State, id: Id, chain: seq<Id>)
    requires s.head == Some(id) && id in s.manifests && s.manifests[id].parent == None && id !in chain
    requires forall x :: x !in s.used ==> Unused(s.manifests, x) && x !in s.shown
    ensures var u := Without(s, IdSet(chain));
      && u.cfg == s.cfg && u.layers == s.layers && u.layerIndexes == s.layerIndexes && u.walked == s.walked && u.shown == s.shown
      && u.manifests == s.manifests - IdSet(chain) && u.head == Some(id) && Intact(u.manifests, id)
      && (forall x :: x in u.manifests ==> x in s.manifests && u.manifests[x] == s.manifests[x])
      && (forall x :: x in u.manifests && x in s.indexes ==> x in u.indexes && u.indexes[x] == s.indexes[x])
      && (forall x :: x !in u.used ==> Unused(u.manifests, x) && x !in u.shown)
      && u.manifests.Keys <= s.manifests.Keys
  {
    var u := Without(s, IdSet(chain));
    assert IsChain(u.manifests, [id]) && Last([id]) == id;
    forall x | x !in u.used ensures Unused(u.manifests, x) { assert Unused(s.manifests, x); }
  }

  lemma DropFirst(ms: Manifests, id: Id, m: Manifest, chain: seq<Id>)
    requires id !in ms && IsChain(ms, chain)
    ensures ms[id := m] - IdSet(chain) == (ms - IdSet(chain))[id := m] && id !in chain
  {
  }

  /** Compaction leaves intact exactly the new snapshot and the branches that share nothing with HEAD's chain. */
  lemma CompactKeepsBranches(ms: Manifests, chain: seq<Id>, id: Id, m: Manifest, x: Id)
    requires IsChain(ms, chain) && Unused(ms, id) && m.parent == None
    ensures Intact((ms - IdSet(chain))[id := m], x) <==>
      x == id || exists c :: IsChain(ms, c) && Last(c) == x && forall i :: 0 <= i < |c| ==> c[i] !in chain
  {
    var rest := ms - IdSet(chain);
    var ms' := rest[id := m];
    if x == id {
      assert IsChain(ms', [id]) && Last([id]) == id;
    } else {
      if Intact(ms', x) {
        var c :| IsChain(ms', c) && Last(c) == x;
        ChainsAfterAdd(rest, id, m, c);
        ChainsAfterRemove(ms, IdSet(chain), c);
        assert forall i :: 0 <= i < |c| ==> c[i] in rest;
      }
      if c :| IsChain(ms, c) && Last(c) == x && forall i :: 0 <= i < |c| ==> c[i] !in chain {
        assert IsChain(rest, c);
        ChainKept(rest, id, m, c);
      }
    }
  }

  /** A tree that a walk collected lists its roots, whatever it is restored over. */
  lemma ShapeListsRoots(t: Tree, cfg: Config, saved: Tree, rootModes: map<Path, Mode>, dirMode: Mode, fileMode: Mode)
    requires Shape(cfg, saved)
    ensures PlanOf(t, cfg, saved, rootModes, dirMode, fileMode).ListsRoots()
  {
    hide Packable, Readable, Config.Captures, Config.Implicit, Retained;
  }

  /** Capturing a restored tree gives back the saved one, plus what excluded entries keep in place. */
  lemma RestoredCapture(t: Tree, cfg: Config, saved: Tree, rootModes: map<Path, Mode>, dirMode: Mode, fileMode: Mode, id: Bytes, u: Tree)
    requires var plan := PlanOf(t, cfg, saved, rootModes, dirMode, fileMode); plan.Fits() && plan.ListsRoots() && Reached(plan, id, u)
    requires Shape(cfg, saved) && RootsAgree(cfg, Some(rootModes), saved)
    ensures cfg.Captured(u) == Extended(t, cfg, saved)
  {
    hide *;
    var plan := PlanOf(t, cfg, saved, rootModes, dirMode, fileMode);
    PlanParts(t, cfg, saved, rootModes, dirMode, fileMode);
    forall p ensures p in cfg.Captured(u) <==> p in plan.target {
      CapturedAt(plan, id, u, p);
    }
    forall p | p in plan.target ensures cfg.Captured(u)[p] == plan.target[p] {
      CapturedAt(plan, id, u, p);
      if p in plan.last { LastAgrees(t, cfg, saved, rootModes, dirMode, fileMode, p); }
    }
  }

  /** The capture of a reached tree, path by path. */
  lemma CapturedAt(plan: Plan, id: Bytes, u: Tree, p: Path)
    requires plan.Fits() && Reached(plan, id, u)
    ensures p in plan.cfg.Captured(u) <==> p in plan.target
    ensures p in plan.target ==> plan.cfg.Captures(p) && plan.cfg.Captured(u)[p] == if p in plan.last then Dir(plan.last[p]) else plan.target[p]
  {
    HeadIsReserved();
    hide WellFormed, Retained, Config.UnderRoot, Config.Implicit;
  }

  lemma LastAgrees(t: Tree, cfg: Config, saved: Tree, rootModes: map<Path, Mode>, dirMode: Mode, fileMode: Mode, p: Path)
    requires Shape(cfg, saved) && RootsAgree(cfg, Some(rootModes), saved)
    requires var plan := PlanOf(t, cfg, saved, rootModes, dirMode, fileMode);
      plan.Fits() && plan.ListsRoots() && p in plan.target && p in plan.last && cfg.Captures(p)
    ensures var plan := PlanOf(t, cfg, saved, rootModes, dirMode, fileMode); Dir(plan.last[p]) == plan.target[p]
  {
    var plan := PlanOf(t, cfg, saved, rootModes, dirMode, fileMode);
    PlanParts(t, cfg, saved, rootModes, dirMode, fileMode);
    hide PlanOf, Packable, Readable, Retained, Config.Captures, Plan.Fits, Plan.ListsRoots;
    if p in RootSet(cfg) {
      assert cfg.Implicit(p);
      assert p in saved;
      assert Extended(t, cfg, saved)[p] == saved[p];
    } else {
      assert p in plan.last && p !in RootModes(t, rootModes, RootSet(cfg));
    }
  }

  lemma PlainListed(before: Tree, now: Tree, plain: seq<Path>, gone: seq<Path>)
    requires ListsDiff(before, now, plain, gone)
    ensures forall p :: p in plain ==> p in now
  {
  }

  lemma RootModesAgree(t: Tree, cfg: Config, rootModes: map<Path, Mode>)
    requires WellFormed(t) && Walkable(t, cfg, false)
    requires rootModes == map r | r in RootSet(cfg) :: RootMode(t, map[], r)
    ensures rootModes == RootModes(t, map[], RootSet(cfg)) && RootsAgree(cfg, Some(rootModes), cfg.Captured(t))
  {
    hide AcceptsEntry, Resolves, WellFormed, Config.Captures;
  }

  lemma HeadRecorded(s: State)
    requires Kept(s)
    ensures s.head.Some? ==> s.head.value in s.manifests && s.head.value in s.indexes && s.indexes[s.head.value] == IndexOfTree(ParentTree(s.head, s.walked))
    ensures s.head.None? ==> map[] == IndexOfTree(ParentTree(s.head, s.walked))
  {
    HeadUsed(s);
  }
}
