/** Snapshot history: manifests linked by parents, each holding one diff layer. */
module History {
  import opened Bytes
  import opened Paths
  import opened Filesystem
  import opened Workspace
  import opened RestorePlan
  import opened View
  import opened Diff
  import opened Numerals
  import opened Tar
  import opened TarRoundTrip
  import opened PathText
  import opened Layers

  type Id = nat

  /** SHA-256, taken to be injective: a digest stands for the bytes it names. */
  datatype Digest = Sha256(content: Bytes)

  // --- cumulative indexes ---------------------------------------------------------------

  datatype Record =
    | FileRecord(size: nat, mode: Mode, contentDigest: Digest)
    | DirRecord(mode: Mode)
    | LinkRecord(linkTarget: Bytes)

  type Index = map<Path, Record>

  function RecordOf(n: Node): Record {
    match n
    case File(bytes, mode) => FileRecord(|bytes|, mode, Sha256(bytes))
    case Dir(mode) => DirRecord(mode)
    case Symlink(target) => LinkRecord(target)
  }

  function IndexOfTree(t: Tree): Index {
    map p | p in t :: RecordOf(t[p])
  }

  /** The comparison `create` makes: everything but the size. */
  predicate SameRecord(a: Record, b: Record) {
    match (a, b)
    case (FileRecord(_, m, d), FileRecord(_, n, e)) => m == n && d == e
    case (DirRecord(m), DirRecord(n)) => m == n
    case (LinkRecord(s), LinkRecord(t)) => s == t
    case _ => false
  }

  lemma SameRecordIsSameNode(a: Node, b: Node)
    ensures SameRecord(RecordOf(a), RecordOf(b)) <==> a == b
    ensures RecordOf(a) == RecordOf(b) ==> a == b
  {
  }

  // --- what a walk captures ----------------------------------------------------------------

  /** Sizes that fit the octal fields of a tar header. */
  predicate Sized(p: Path, n: Node) {
    && |Body(ToTar(p, n))| < Numerals.Pow(8, 11)
    && |Overrides(ToTar(p, n))| < Numerals.Pow(8, 11)
    && |Overrides(MarkerTar(p))| < Numerals.Pow(8, 11)
  }

  /** Every entry is captured and can be stored in a tar. */
  ghost predicate Carries(cfg: Config, t: Tree) {
    forall p :: p in t ==> cfg.Captures(p) && Packable(p, t[p])
  }

  /** It carries its entries, with real directories where parents and roots must be. */
  ghost predicate Laid(cfg: Config, t: Tree) {
    && Carries(cfg, t)
    && (forall p, a :: p in t && Above(a, p) && cfg.Captures(a) ==> a in t && t[a].Dir?)
    && (forall d :: cfg.Captures(d) && cfg.Implicit(d) ==> d in t && t[d].Dir?)
  }

  /** A tree a walk can have collected. */
  ghost predicate Shape(cfg: Config, t: Tree) {
    Laid(cfg, t) && forall p :: p in t ==> Readable(WithReadable(t[p]), false)
  }

  /** Link targets matter for a saved tree, read permission does not. */
  function WithReadable(n: Node): Node {
    n.WithMode(OWNER_RWX)
  }

  lemma MarkerStorable(p: Path)
    requires p != [] && ValidPath(p) && |Overrides(MarkerTar(p))| < Numerals.Pow(8, 11)
    ensures Storable(MarkerTar(p))
  {
    MarkerIsValid(p);
    RenderIsNormal(WhiteoutPathFor(p));
    hide Overrides, NormalPath;
    assert Numerals.Pow(8, 11) > 0;
  }

  lemma NodeStorable(p: Path, n: Node)
    requires p != [] && ValidPath(p) && Sized(p, n) && Readable(WithReadable(n), false)
    ensures Storable(ToTar(p, n))
  {
    RenderIsNormal(p);
    hide Overrides, NormalPath;
    assert Numerals.Pow(8, 11) > 0;
  }

  /** Whatever a walk collects has the shape of a snapshot. */
  lemma WalkShape(cfg: Config, t: Tree)
    requires WellFormed(t) && Walkable(t, cfg, false)
    requires forall p :: p in t && cfg.Captures(p) ==> Sized(p, t[p])
    ensures Shape(cfg, cfg.Captured(t))
  {
    hide Packable, Readable, Sized, AcceptsEntry, Resolves, Walkable, Excludes;
    var cur := cfg.Captured(t);
    WalkedRoots(cfg, t);
    forall p | p in cur
      ensures Packable(p, cur[p]) && Readable(WithReadable(cur[p]), false)
    {
      WalkedPackable(cfg, t, p);
    }
    forall d | cfg.Captures(d) && cfg.Implicit(d)
      ensures d in cur && cur[d].Dir?
    {
      var r :| r in cfg.roots && (d == r || Above(d, r));
      assert RealRoot(t, r);
    }
  }

  lemma WalkedRoots(cfg: Config, t: Tree)
    requires Walkable(t, cfg, false)
    ensures forall r :: r in cfg.roots ==> RealRoot(t, r)
  {
    hide AcceptsEntry, RealRoot;
  }

  lemma WalkedPackable(cfg: Config, t: Tree, p: Path)
    requires Walkable(t, cfg, false) && p in t && cfg.Captures(p) && Sized(p, t[p])
    ensures Packable(p, t[p]) && Readable(WithReadable(t[p]), false)
  {
    hide Resolves, RealRoot, Overrides, Storable, Config.Captures;
    assert AcceptsEntry(t, p, false);
    OwnerAllBits(OWNER_RWX);
    NodeStorable(p, t[p]);
    MarkerStorable(p);
  }

  // --- what a walked tree reads back as ---------------------------------------------------------

  /** Every entry is read back under its own path. */
  ghost predicate NamesLegible(t: Tree) {
    forall p :: p in t ==> LegibleName(p, t[p])
  }

  /** A link whose target is not read back as it was written. */
  predicate LosesTarget(n: Node) {
    n.Symlink? && |n.target| <= 100 && BOM <= n.target
  }

  ghost predicate LinksLegible(t: Tree) {
    forall p :: p in t ==> !LosesTarget(t[p])
  }

  /** `n` is what is left of `w` after it was written and read back, once or more. */
  predicate Faded(n: Node, w: Node) {
    if LosesTarget(w) then n.Symlink? && |n.target| < |w.target| && n.target == w.target[|w.target| - |n.target|..]
    else n == w
  }

  ghost predicate Fades(t: Tree, walked: Tree) {
    t.Keys == walked.Keys && forall p :: p in t ==> Faded(t[p], walked[p])
  }

  lemma BlurFades(n: Node, w: Node)
    requires n == w || Faded(n, w)
    ensures Faded(Blur(n), w)
  {
    if n.Symlink? && BOM <= n.target && w.Symlink? {
      var k := |w.target| - |n.target|;
      assert n.target[3..] == w.target[k..][3..] == w.target[k + 3..];
    }
  }

  /** Nothing faded exactly when no link loses its target. */
  lemma FadesIs(t: Tree, walked: Tree)
    requires Fades(t, walked)
    ensures t == walked <==> LinksLegible(walked)
  {
    hide LosesTarget;
    if !LinksLegible(walked) {
      var p :| p in walked && LosesTarget(walked[p]);
      assert Faded(t[p], walked[p]);
    }
  }

  lemma FadedPacks(p: Path, n: Node, w: Node)
    requires Packable(p, w) && Faded(n, w)
    ensures Packable(p, n) && n.Dir? == w.Dir? && (LegibleName(p, w) ==> LegibleName(p, n))
  {
    if LosesTarget(w) {
      forall b | b in n.target ensures b in w.target { }
      ShortLink(p, n);
      ShortLink(p, w);
      hide NormalPath, MarkerTar, Render, Overrides, Numerals.Pow;
    }
  }

  lemma ShortLink(p: Path, n: Node)
    requires n.Symlink? && |n.target| <= 100
    ensures Overrides(ToTar(p, n)) == Overrides(ToTar(p, Symlink([]))) && StoredName(ToTar(p, n)) == StoredName(ToTar(p, Symlink([])))
  {
  }

  lemma FadedLaid(cfg: Config, t: Tree, walked: Tree)
    requires Fades(t, walked) && Laid(cfg, walked)
    ensures Laid(cfg, t) && (NamesLegible(walked) ==> NamesLegible(t))
  {
    hide Packable, LegibleName, Faded, Config.Captures, Config.Implicit;
    forall p | p in t
      ensures Packable(p, t[p]) && t[p].Dir? == walked[p].Dir? && (LegibleName(p, walked[p]) ==> LegibleName(p, t[p]))
    {
      FadedPacks(p, t[p], walked[p]);
    }
  }

  // --- chains ----------------------------------------------------------------------------------

  datatype Manifest = Manifest(parent: Option<Id>, diffId: Digest, roots: seq<Path>, rootModes: Option<map<Path, Mode>>)
  type Manifests = map<Id, Manifest>

  /** From a snapshot without parent, each the parent of the next. */
  ghost predicate IsChain(ms: Manifests, c: seq<Id>) {
    && c != []
    && (forall i :: 0 <= i < |c| ==> c[i] in ms)
    && ms[c[0]].parent == None
    && (forall i :: 0 < i < |c| ==> ms[c[i]].parent == Some(c[i - 1]))
  }

  function Last(c: seq<Id>): Id
    requires c != []
  {
    c[|c| - 1]
  }

  /** The parents of `id` are all there, down to a first snapshot. */
  ghost predicate Intact(ms: Manifests, id: Id) {
    exists c :: IsChain(ms, c) && Last(c) == id
  }

  function ChainBytes(ms: Manifests, c: seq<Id>): seq<Bytes>
    requires forall i :: 0 <= i < |c| ==> c[i] in ms
  {
    seq(|c|, i requires 0 <= i < |c| => ms[c[i]].diffId.content)
  }

  function AllItems(bs: seq<Bytes>): seq<seq<Item<LayerEntry>>> {
    seq(|bs|, i requires 0 <= i < |bs| => ItemsOf(bs[i]))
  }

  /** Replaying the layers gives exactly `t`, contents included. */
  ghost predicate Holds(bs: seq<Bytes>, t: Tree) {
    var m := MergeLayers(AllItems(bs));
    && m.Keys == t.Keys
    && forall p :: p in m ==> m[p].layer < |bs| && NodeAt(bs[m[p].layer], m[p].item.payload) == Some(t[p])
  }

  lemma ChainPrefix(ms: Manifests, c: seq<Id>)
    requires IsChain(ms, c) && |c| > 1
    ensures IsChain(ms, c[..|c| - 1]) && ms[Last(c)].parent == Some(Last(c[..|c| - 1]))
  {
  }

  /** A snapshot has at most one chain. */
  lemma {:induction false} ChainUnique(ms: Manifests, c: seq<Id>, d: seq<Id>)
    requires IsChain(ms, c) && IsChain(ms, d) && Last(c) == Last(d)
    ensures c == d
    decreases |c|
  {
    if |c| > 1 {
      ChainPrefix(ms, c);
      if |d| > 1 {
        ChainPrefix(ms, d);
        ChainUnique(ms, c[..|c| - 1], d[..|d| - 1]);
        assert c == c[..|c| - 1] + [Last(c)] && d == d[..|d| - 1] + [Last(d)];
      }
    } else if |d| > 1 {
      ChainPrefix(ms, d);
    } else {
      assert c == [c[0]] && d == [d[0]];
    }
  }

  /** Chains never repeat a snapshot. */
  lemma ChainDistinct(ms: Manifests, c: seq<Id>, i: nat, j: nat)
    requires IsChain(ms, c) && i < j < |c|
    ensures c[i] != c[j]
  {
    if c[i] == c[j] {
      assert IsChain(ms, c[..i + 1]) && IsChain(ms, c[..j + 1]);
      ChainUnique(ms, c[..i + 1], c[..j + 1]);
    }
  }

  method Chain(ms: Manifests, id: Id) returns (ok: bool, chain: seq<Id>)
    ensures ok <==> Intact(ms, id)
    ensures ok ==> IsChain(ms, chain) && Last(chain) == id
  {
    chain := [];
    var cursor := Some(id);
    var seen := {};
    while cursor.Some?
      invariant seen == (set x | x in chain) && seen <= ms.Keys
      invariant forall i :: 0 <= i < |chain| ==> chain[i] in ms
      invariant forall i :: 0 < i < |chain| ==> ms[chain[i]].parent == Some(chain[i - 1])
      invariant if chain == [] then cursor == Some(id) else Last(chain) == id && ms[chain[0]].parent == cursor
      invariant forall c :: IsChain(ms, c) && Last(c) == id ==> OnChain(c, chain, cursor)
      decreases ms.Keys - seen
    {
      ghost var before, at := chain, cursor;
      StepsDown(ms, id, chain, cursor);
      if cursor.value in seen || cursor.value !in ms { return false, chain; }
      seen := seen + {cursor.value};
      chain := [cursor.value] + chain;
      cursor := ms[cursor.value].parent;
      forall c | IsChain(ms, c) && Last(c) == id ensures OnChain(c, chain, cursor) { Descend(ms, c, before, at, cursor); }
    }
    ok := true;
    assert IsChain(ms, chain);
  }

  /** The part of `c` already collected, and the snapshot just below it. */
  ghost predicate OnChain(c: seq<Id>, collected: seq<Id>, cursor: Option<Id>) {
    && |collected| <= |c|
    && c[|c| - |collected|..] == collected
    && if |collected| == |c| then cursor == None else cursor == Some(c[|c| - |collected| - 1])
  }

  lemma Descend(ms: Manifests, c: seq<Id>, collected: seq<Id>, cursor: Option<Id>, next: Option<Id>)
    requires IsChain(ms, c) && OnChain(c, collected, cursor) && cursor.Some? && cursor.value in ms
    requires next == ms[cursor.value].parent
    ensures OnChain(c, [cursor.value] + collected, next)
  {
    var k := |c| - |collected| - 1;
    assert c[k..] == [c[k]] + c[k + 1..];
  }

  /** On an intact chain the next snapshot exists and is a new one. */
  lemma StepsDown(ms: Manifests, id: Id, collected: seq<Id>, cursor: Option<Id>)
    requires cursor.Some? && forall c :: IsChain(ms, c) && Last(c) == id ==> OnChain(c, collected, cursor)
    ensures Intact(ms, id) ==> cursor.value in ms && cursor.value !in collected
  {
    if Intact(ms, id) {
      var c :| IsChain(ms, c) && Last(c) == id;
      var k := |c| - |collected| - 1;
      forall j | 0 <= j < |collected|
        ensures collected[j] != c[k]
      {
        assert c[k + 1 + j] == collected[j];
        ChainDistinct(ms, c, k, k + 1 + j);
      }
    }
  }

  // --- adding a layer ------------------------------------------------------------------------------

  /** `plain` lists what changed from `before` to `now`, `gone` what disappeared. */
  ghost predicate ListsDiff(before: Tree, now: Tree, plain: seq<Path>, gone: seq<Path>) {
    && (forall p :: p in plain <==> p in now && (p !in before || before[p] != now[p]))
    && (forall i, j :: 0 <= i < j < |plain| ==> plain[i] != plain[j])
    && (forall p :: p in gone <==> p in before && p !in now)
  }

  lemma NamesNoWhiteout(p: Path)
    requires p != [] && !WhiteoutName(Base(p))
    ensures WhiteoutTarget(p) == NoWhiteout && Base(p) != OPAQUE_TAIL
  {
    assert OPAQUE_MARKER[..4] == WHITEOUT_PREFIX;
    assert OPAQUE_TAIL[..4] == WHITEOUT_PREFIX;
  }

  lemma DiffIsDiff(cfg: Config, before: Tree, now: Tree, plain: seq<Path>, gone: seq<Path>, m: Merged<LayerEntry>, items: seq<Item<LayerEntry>>)
    requires Carries(cfg, before) && Laid(cfg, now) && ListsDiff(before, now, plain, gone) && m.Keys == before.Keys
    requires |items| == |plain| && forall i :: 0 <= i < |plain| ==> items[i].path == plain[i] && plain[i] in now && (items[i].dir <==> now[plain[i]].Dir?)
    ensures DiffOf(m, now.Keys, items, gone)
  {
    hide Packable, Readable, Config.Captures, Config.Implicit;
    forall i | 0 <= i < |items|
      ensures items[i].path in now && WhiteoutTarget(items[i].path) == NoWhiteout
      ensures !items[i].dir ==> forall q :: Above(items[i].path, q) ==> q !in now
    {
      ShapeAt(cfg, now, plain[i]);
    }
    forall p | p in gone
      ensures p != [] && p in m && p !in now && Base(p) != OPAQUE_TAIL
      ensures forall q :: Above(p, q) ==> q !in now
    {
      ShapeAt(cfg, before, p);
    }
    forall p | p in now.Keys && p !in m
      ensures exists i :: 0 <= i < |items| && items[i].path == p
    {
      assert p in plain;
      var i :| 0 <= i < |plain| && plain[i] == p;
      assert items[i].path == p;
    }
  }

  lemma ShapeAt(cfg: Config, t: Tree, p: Path)
    requires Carries(cfg, t) && p in t
    ensures p != [] && ValidPath(p) && cfg.Captures(p) && Packable(p, t[p])
    ensures WhiteoutTarget(p) == NoWhiteout && Base(p) != OPAQUE_TAIL && Storable(MarkerTar(p))
  {
    hide Config.Captures, Storable, ValidPath;
    NamesNoWhiteout(p);
  }

  lemma AllItemsNext(bs: seq<Bytes>, b: Bytes)
    ensures MergeLayers(AllItems(bs + [b])) == ApplyLayer(MergeLayers(AllItems(bs)), |bs|, ItemsOf(b))
  {
    hide ItemsOf, MergeLayers;
    var all := AllItems(bs + [b]);
    assert all[..|bs|] == AllItems(bs) && all[..|bs| + 1] == all;
    MergeLayersNext(all, |bs|);
  }

  /** What a chain shows after the diff from a tree it showed as `below`. */
  function After(below: Tree, now: Tree, plain: seq<Path>): Tree {
    map p | p in now :: if p in below && p !in plain then below[p] else Blur(now[p])
  }

  lemma AfterFades(below: Tree, before: Tree, now: Tree, plain: seq<Path>, gone: seq<Path>)
    requires Fades(below, before) && ListsDiff(before, now, plain, gone)
    ensures Fades(After(below, now, plain), now)
  {
    hide Faded, Blur;
    forall p | p in now ensures Faded(After(below, now, plain)[p], now[p]) { BlurFades(now[p], now[p]); }
  }

  /** What a diff lists can be stored, under legible names. */
  lemma DiffListed(cfg: Config, before: Tree, now: Tree, plain: seq<Path>, gone: seq<Path>)
    requires Carries(cfg, before) && Laid(cfg, now) && NamesLegible(before) && NamesLegible(now) && ListsDiff(before, now, plain, gone)
    ensures forall p :: p in plain ==> p in now && Packable(p, now[p]) && LegibleName(p, now[p])
    ensures forall p :: p in gone ==> p != [] && ValidPath(p) && Storable(MarkerTar(p)) && LegibleMarker(p)
  {
    hide Packable, LegibleName, LegibleMarker, ValidPath, Storable;
    forall p | p in plain ensures p in now && Packable(p, now[p]) && LegibleName(p, now[p]) { ShapeAt(cfg, now, p); }
    forall p | p in gone ensures p != [] && ValidPath(p) && Storable(MarkerTar(p)) && LegibleMarker(p) {
      ShapeAt(cfg, before, p);
      LegibleIs(p, before[p]);
    }
  }

  /** A written diff on top of a chain that shows `before` as `below` makes a chain that shows `now`, faded alike. */
  lemma DiffHolds(cfg: Config, bs: seq<Bytes>, below: Tree, before: Tree, now: Tree, plain: seq<Path>, gone: seq<Path>)
    requires Carries(cfg, before) && Laid(cfg, now) && NamesLegible(before) && NamesLegible(now)
    requires Holds(bs, below) && below.Keys == before.Keys && ListsDiff(before, now, plain, gone)
    ensures var b := WriteTar(DiffTar(now, plain, gone));
      IndexTar(b).Indexed? && Holds(bs + [b], After(below, now, plain))
  {
    hide Packable, DiffOf, WriteTar, DecodesTo, NodeAt, ItemsOf, IndexTar, MergeLayers, AllItems, DiffTar, ApplyLayer, LegibleName, LegibleMarker, Blur, After, Laid, Carries, Storable, ListsDiff;
    DiffListed(cfg, before, now, plain, gone);
    var b := WriteTar(DiffTar(now, plain, gone));
    DiffDecodes(now, plain, gone);
    var items := ItemsOf(b);
    var m := MergeLayers(AllItems(bs));
    DecodedParts(b, items, now, plain, gone);
    DiffIsDiff(cfg, before, now, plain, gone, m, items[..|plain|]);
    DecodedLayer(m, |bs|, b, items, now, plain, gone);
    AllItemsNext(bs, b);
    AfterParts(below, before, now, plain, gone);
    LayerHolds(bs, b, below, After(below, now, plain), plain, m, ApplyLayer(m, |bs|, items), items);
  }

  lemma AfterParts(below: Tree, before: Tree, now: Tree, plain: seq<Path>, gone: seq<Path>)
    requires below.Keys == before.Keys && ListsDiff(before, now, plain, gone)
    ensures var after := After(below, now, plain);
      && after.Keys == now.Keys
      && (forall p :: p in plain ==> p in now && after[p] == Blur(now[p]))
      && (forall p :: p in now && p !in plain ==> p in below && after[p] == below[p])
  {
    hide Blur;
  }

  lemma DecodedParts(b: Bytes, items: seq<Item<LayerEntry>>, now: Tree, plain: seq<Path>, gone: seq<Path>)
    requires (forall p :: p in plain ==> p in now) && DecodesTo(b, items, now, plain, gone)
    ensures |items| == |plain| + |gone|
    ensures forall i :: 0 <= i < |plain| ==> plain[i] in now && items[..|plain|][i] == items[i]
    ensures forall i :: 0 <= i < |plain| ==> items[..|plain|][i].path == plain[i] && (items[..|plain|][i].dir <==> now[plain[i]].Dir?)
    ensures forall i :: 0 <= i < |plain| ==> NodeAt(b, items[i].payload) == Some(Blur(now[plain[i]]))
  {
    hide Blur, NodeAt;
    forall i | 0 <= i < |plain| ensures plain[i] in now { assert plain[i] in plain; }
  }

  lemma DecodedLayer(m: Merged<LayerEntry>, layer: nat, b: Bytes, items: seq<Item<LayerEntry>>, now: Tree, plain: seq<Path>, gone: seq<Path>)
    requires (forall p :: p in plain ==> p in now) && DecodesTo(b, items, now, plain, gone)
    requires DiffOf(m, now.Keys, items[..|plain|], gone)
    ensures var r := ApplyLayer(m, layer, items);
      && r.Keys == now.Keys
      && (forall k :: 0 <= k < |plain| ==> items[k].path in r && r[items[k].path] == Placed(layer, items[k]))
      && (forall p :: p in now && !Rewrites(items[..|plain|], |plain|, p) ==> p in m && p in r && r[p] == m[p])
  {
    hide DiffOf, NodeAt, WhiteoutPathFor, Apply;
    DiffApplies(m, now.Keys, layer, items[..|plain|], gone, items[|plain|..]);
    assert items[..|plain|] + items[|plain|..] == items;
    assert forall k :: 0 <= k < |plain| ==> items[..|plain|][k] == items[k];
  }

  lemma LayerHolds(bs: seq<Bytes>, b: Bytes, before: Tree, now: Tree, plain: seq<Path>, m: Merged<LayerEntry>, r: Merged<LayerEntry>, items: seq<Item<LayerEntry>>)
    requires Holds(bs, before) && m == MergeLayers(AllItems(bs)) && forall p :: p in now && p !in plain ==> p in before && now[p] == before[p]
    requires r == MergeLayers(AllItems(bs + [b])) && r.Keys == now.Keys && |plain| <= |items|
    requires forall i :: 0 <= i < |plain| ==> items[i].path == plain[i] && plain[i] in now && NodeAt(b, items[i].payload) == Some(now[plain[i]])
    requires forall i :: 0 <= i < |plain| ==> plain[i] in r && r[plain[i]] == Placed(|bs|, items[i])
    requires forall p :: p in now && !Rewrites(items[..|plain|], |plain|, p) ==> p in m && p in r && r[p] == m[p]
    ensures Holds(bs + [b], now)
  {
    hide NodeAt, MergeLayers, AllItems;
    forall p | p in now
      ensures r[p].layer < |bs + [b]| && NodeAt((bs + [b])[r[p].layer], r[p].item.payload) == Some(now[p])
    {
      if p in plain {
        var i :| 0 <= i < |plain| && plain[i] == p;
        assert (bs + [b])[|bs|] == b;
      } else {
        assert (bs + [b])[m[p].layer] == bs[m[p].layer];
      }
    }
  }

  // --- the manifests as they grow and shrink -------------------------------------------------------

  /** No manifest is, or names as its parent, an unused id. */
  ghost predicate Unused(ms: Manifests, id: Id) {
    id !in ms && forall x :: x in ms ==> ms[x].parent != Some(id)
  }

  /** Adding a snapshot adds at most the chains that end in it. */
  lemma ChainsAfterAdd(ms: Manifests, id: Id, m: Manifest, c: seq<Id>)
    requires Unused(ms, id) && m.parent != Some(id) && IsChain(ms[id := m], c)
    ensures if Last(c) == id then
              ms[id := m][id].parent == m.parent
              && (if |c| == 1 then m.parent == None else IsChain(ms, c[..|c| - 1]) && m.parent == Some(Last(c[..|c| - 1])))
            else IsChain(ms, c)
    ensures Last(c) != id ==> id !in c
  {
    forall i | 0 <= i < |c| - 1
      ensures c[i] != id
    {
      assert c[i + 1] in ms[id := m] && ms[id := m][c[i + 1]].parent == Some(c[i]);
    }
  }

  lemma ChainKept(ms: Manifests, id: Id, m: Manifest, c: seq<Id>)
    requires id !in ms && IsChain(ms, c)
    ensures IsChain(ms[id := m], c) && ChainBytes(ms[id := m], c) == ChainBytes(ms, c)
  {
  }

  lemma ChainExtended(ms: Manifests, id: Id, m: Manifest, c: seq<Id>)
    requires id !in ms && IsChain(ms, c) && m.parent == Some(Last(c))
    ensures IsChain(ms[id := m], c + [id]) && ChainBytes(ms[id := m], c + [id]) == ChainBytes(ms, c) + [m.diffId.content]
  {
  }

  lemma ChainsAfterRemove(ms: Manifests, gone: set<Id>, c: seq<Id>)
    requires IsChain(ms - gone, c)
    ensures IsChain(ms, c) && ChainBytes(ms, c) == ChainBytes(ms - gone, c)
  {
  }

  /** Every intact snapshot that shows a tree replays to it. */
  ghost predicate Faithful(ms: Manifests, shown: map<Id, Tree>) {
    forall c :: IsChain(ms, c) && Last(c) in shown ==> Holds(ChainBytes(ms, c), shown[Last(c)])
  }

  /** What a new snapshot adds to the trees that are shown; nothing if its names are not all legible. */
  function Showing(shown: map<Id, Tree>, id: Id, t: Option<Tree>): map<Id, Tree> {
    if t.Some? then shown[id := t.value] else shown
  }

  /** A new snapshot on top of an intact head. */
  lemma FaithfulAdd(ms: Manifests, shown: map<Id, Tree>, head: seq<Id>, id: Id, m: Manifest, t: Option<Tree>)
    requires Faithful(ms, shown) && Unused(ms, id) && m.parent != Some(id) && id !in shown
    requires if head == [] then m.parent == None else IsChain(ms, head) && m.parent == Some(Last(head))
    requires t.Some? ==> Holds((if head == [] then [] else ChainBytes(ms, head)) + [m.diffId.content], t.value)
    ensures Faithful(ms[id := m], Showing(shown, id, t)) && Intact(ms[id := m], id)
    ensures forall x :: x != id ==> (Intact(ms[id := m], x) <==> Intact(ms, x))
  {
    hide Holds;
    var ms', shown' := ms[id := m], Showing(shown, id, t);
    forall c | IsChain(ms', c) && Last(c) in shown'
      ensures Holds(ChainBytes(ms', c), shown'[Last(c)])
    {
      ChainsAfterAdd(ms, id, m, c);
      if Last(c) == id {
        if |c| == 1 {
          assert c == [id] && ChainBytes(ms', c) == [m.diffId.content];
          assert [] + [m.diffId.content] == [m.diffId.content];
        } else {
          var d := c[..|c| - 1];
          ChainUnique(ms, d, head);
          ChainExtended(ms, id, m, d);
          assert c == d + [id];
        }
      } else {
        ChainKept(ms, id, m, c);
      }
    }
    IntactAdd(ms, head, id, m);
  }

  lemma IntactAdd(ms: Manifests, head: seq<Id>, id: Id, m: Manifest)
    requires Unused(ms, id) && m.parent != Some(id)
    requires if head == [] then m.parent == None else IsChain(ms, head) && m.parent == Some(Last(head))
    ensures Intact(ms[id := m], id)
    ensures forall x :: x != id ==> (Intact(ms[id := m], x) <==> Intact(ms, x))
  {
    var ms' := ms[id := m];
    if head == [] {
      assert IsChain(ms', [id]) && Last([id]) == id;
    } else {
      ChainExtended(ms, id, m, head);
      assert Last(head + [id]) == id;
    }
    forall x | x != id
      ensures Intact(ms', x) <==> Intact(ms, x)
    {
      if Intact(ms', x) {
        var c :| IsChain(ms', c) && Last(c) == x;
        ChainsAfterAdd(ms, id, m, c);
      }
      if Intact(ms, x) {
        var c :| IsChain(ms, c) && Last(c) == x;
        ChainKept(ms, id, m, c);
      }
    }
  }

  lemma FaithfulRemove(ms: Manifests, shown: map<Id, Tree>, gone: set<Id>)
    requires Faithful(ms, shown)
    ensures Faithful(ms - gone, shown)
  {
    hide Holds;
    forall c | IsChain(ms - gone, c) && Last(c) in shown
      ensures Holds(ChainBytes(ms - gone, c), shown[Last(c)])
    {
      ChainsAfterRemove(ms, gone, c);
    }
  }
}
