/** Joining two diverged heads: per path, last writer wins against the nearest common ancestor. */
module MergeHeads {
  import opened Bytes
  import opened Paths
  import opened View
  import opened Ancestry
  import opened Order

  // --- stores and head views -----------------------------------------------------------------

  /** A layer entry as the merge reads it; `plain` marks a regular file. */
  datatype Entry = Entry(size: nat, offset: nat, mode: nat, mtimeMs: nat, plain: bool)

  /** A layer descriptor; `notes` stands for its remaining annotations. */
  datatype Descriptor = Descriptor(digest: Digest, mtimeMs: nat, actor: Bytes, notes: Bytes)

  datatype Manifest = Manifest(layers: seq<Descriptor>, diffIds: seq<Bytes>, parents: seq<Digest>, actor: Bytes)

  type Layers = map<Digest, seq<Item<Entry>>>

  /** Manifests, and the index and tar of every layer. */
  datatype Store = Store(manifests: map<Digest, Manifest>, layers: Layers, tars: map<Digest, Bytes>)

  function ParentsGraph(s: Store): Graph {
    map d | d in s.manifests :: s.manifests[d].parents
  }

  datatype Register = Register(entry: Entry, descriptor: Descriptor, diffId: Bytes, sole: bool, mtimeMs: nat, actor: Bytes)

  datatype HeadView = HeadView(files: map<Path, Register>, whiteouts: map<Path, nat>)

  /** Every layer of the head can be indexed. */
  predicate Loadable(s: Store, d: Digest) {
    d in s.manifests && forall l :: l in s.manifests[d].layers ==> l.digest in s.layers
  }

  function LayersOf(s: Store, m: Manifest): seq<seq<Item<Entry>>>
    requires forall l :: l in m.layers ==> l.digest in s.layers
  {
    seq(|m.layers|, i requires 0 <= i < |m.layers| => s.layers[m.layers[i].digest])
  }

  function FileCount(es: seq<Item<Entry>>): nat {
    if es == [] then 0 else FileCount(es[..|es| - 1]) + if IsFile(es[|es| - 1]) then 1 else 0
  }

  function DiffId(m: Manifest, i: nat): Bytes {
    if i < |m.diffIds| then m.diffIds[i] else []
  }

  /** The register of the entry that won a path. */
  function RegisterOf(m: Manifest, layers: seq<seq<Item<Entry>>>, won: Placed<Entry>): Register
    requires won.layer < |m.layers| == |layers|
  {
    var e, l := won.item.payload, m.layers[won.layer];
    Register(e, l, DiffId(m, won.layer), FileCount(layers[won.layer]) == 1, if e.mtimeMs != 0 then e.mtimeMs else l.mtimeMs, l.actor)
  }

  function Max2(a: nat, b: nat): nat {
    if a < b then b else a
  }

  function Stamp(w: map<Path, nat>, p: Path): nat {
    if p in w then w[p] else 0
  }

  /** The latest clock of each delete whiteout in one layer. */
  function StampLayer(w: map<Path, nat>, es: seq<Item<Entry>>): map<Path, nat> {
    if es == [] then w
    else
      var before := StampLayer(w, es[..|es| - 1]);
      match WhiteoutTarget(es[|es| - 1].path)
      case Delete(t) => before[t := Max2(Stamp(before, t), es[|es| - 1].payload.mtimeMs)]
      case _ => before
  }

  function Stamps(layers: seq<seq<Item<Entry>>>): map<Path, nat> {
    if layers == [] then map[] else StampLayer(Stamps(layers[..|layers| - 1]), layers[|layers| - 1])
  }

  /** Every placed entry is a non-whiteout entry of the layer it names. */
  ghost predicate Rooted<T>(layers: seq<seq<Item<T>>>, m: Merged<T>) {
    forall p :: p in m ==> m[p].layer < |layers| && m[p].item in layers[m[p].layer] && m[p].item.path == p && WhiteoutTarget(p) == NoWhiteout
  }

  lemma {:induction false} MergedRooted<T>(layers: seq<seq<Item<T>>>)
    ensures Rooted(layers, MergeLayers(layers))
  {
    hide ApplyLayer, WhiteoutTarget;
    if layers != [] {
      var n := |layers| - 1;
      MergedRooted(layers[..n]);
      LayerRooted(layers, MergeLayers(layers[..n]), layers[n]);
    }
  }

  lemma {:induction false} LayerRooted<T>(layers: seq<seq<Item<T>>>, m: Merged<T>, es: seq<Item<T>>)
    requires layers != [] && Rooted(layers, m) && forall e :: e in es ==> e in layers[|layers| - 1]
    ensures Rooted(layers, ApplyLayer(m, |layers| - 1, es))
    decreases |es|
  {
    hide WhiteoutTarget;
    if es != [] {
      var rest := es[..|es| - 1];
      forall e | e in rest ensures e in layers[|layers| - 1] { assert e in es; }
      LayerRooted(layers, m, rest);
      assert es[|es| - 1] in es;
    }
  }

  /** What `loadHeadView` must return. */
  function ViewOf(s: Store, d: Digest): HeadView
    requires Loadable(s, d)
  {
    var m := s.manifests[d];
    var layers := LayersOf(s, m);
    var merged := MergeLayers(layers);
    MergedRooted(layers);
    HeadView(map p | p in merged && !merged[p].item.dir :: RegisterOf(m, layers, merged[p]), Stamps(layers))
  }

  /** The latest clock of every delete whiteout. */
  method CollectStamps(perLayer: seq<seq<Item<Entry>>>) returns (whiteouts: map<Path, nat>)
    ensures whiteouts == Stamps(perLayer)
  {
    hide WhiteoutTarget;
    whiteouts := map[];
    for i := 0 to |perLayer|
      invariant whiteouts == Stamps(perLayer[..i])
    {
      ghost var before := whiteouts;
      for k := 0 to |perLayer[i]|
        invariant whiteouts == StampLayer(before, perLayer[i][..k])
      {
        var e := perLayer[i][k];
        assert perLayer[i][..k + 1][..k] == perLayer[i][..k];
        var wh := WhiteoutTarget(e.path);
        if wh.Delete? {
          whiteouts := whiteouts[wh.target := Max2(Stamp(whiteouts, wh.target), e.payload.mtimeMs)];
        }
      }
      assert perLayer[i][..|perLayer[i]|] == perLayer[i];
      assert perLayer[..i + 1][..i] == perLayer[..i];
    }
    assert perLayer[..|perLayer|] == perLayer;
  }

  method CollectFiles(m: Manifest, perLayer: seq<seq<Item<Entry>>>, merged: Merged<Entry>) returns (files: map<Path, Register>)
    requires |m.layers| == |perLayer| && Rooted(perLayer, merged)
    ensures files == map p | p in merged && !merged[p].item.dir :: RegisterOf(m, perLayer, merged[p])
  {
    hide RegisterOf;
    files := map[];
    var rest := merged.Keys;
    while rest != {}
      invariant rest <= merged.Keys
      invariant files == map p | p in merged && p !in rest && !merged[p].item.dir :: RegisterOf(m, perLayer, merged[p])
      decreases rest
    {
      var path :| path in rest;
      rest := rest - {path};
      if !merged[path].item.dir { files := files[path := RegisterOf(m, perLayer, merged[path])]; }
    }
  }

  method LoadHeadView(s: Store, d: Digest) returns (v: HeadView)
    requires Loadable(s, d)
    ensures v == ViewOf(s, d)
  {
    hide RegisterOf, MergeLayers, Stamps;
    var m := s.manifests[d];
    var perLayer := LayersOf(s, m);
    var whiteouts := CollectStamps(perLayer);
    var merged := MergeLayerEntries(perLayer);
    MergedRooted(perLayer);
    var files := CollectFiles(m, perLayer, merged);
    v := HeadView(files, whiteouts);
  }

  // --- the register order ------------------------------------------------------------------------

  predicate SameEntry(a: Register, b: Register) {
    a.descriptor.digest == b.descriptor.digest && a.entry.offset == b.entry.offset && a.entry.size == b.entry.size
  }

  /** The later of two registers by (mtime, actor, layer digest, offset). */
  function NewerOf(a: Register, b: Register): Register {
    if a.mtimeMs != b.mtimeMs then (if a.mtimeMs > b.mtimeMs then a else b)
    else if a.actor != b.actor then (if Less(b.actor, a.actor) then a else b)
    else if a.descriptor.digest != b.descriptor.digest then (if Less(b.descriptor.digest, a.descriptor.digest) then a else b)
    else if a.entry.offset >= b.entry.offset then a else b
  }

  datatype Key = Key(mtimeMs: nat, actor: Bytes, digest: Digest, offset: nat)

  function KeyOf(r: Register): Key {
    Key(r.mtimeMs, r.actor, r.descriptor.digest, r.entry.offset)
  }

  predicate KeyLess(a: Key, b: Key) {
    || a.mtimeMs < b.mtimeMs
    || (a.mtimeMs == b.mtimeMs && (Less(a.actor, b.actor)
        || (a.actor == b.actor && (Less(a.digest, b.digest) || (a.digest == b.digest && a.offset < b.offset)))))
  }

  lemma KeyTotal(a: Key, b: Key)
    ensures KeyLess(a, b) || a == b || KeyLess(b, a)
    ensures !(KeyLess(a, b) && KeyLess(b, a)) && !(KeyLess(a, b) && a == b)
  {
    LessTotal(a.actor, b.actor);
    LessTotal(a.digest, b.digest);
  }

  lemma KeyTransitive(a: Key, b: Key, c: Key)
    requires KeyLess(a, b) && KeyLess(b, c)
    ensures KeyLess(a, c)
  {
    if Less(a.actor, b.actor) && Less(b.actor, c.actor) { LessTransitive(a.actor, b.actor, c.actor); }
    if Less(a.digest, b.digest) && Less(b.digest, c.digest) { LessTransitive(a.digest, b.digest, c.digest); }
  }

  /** `NewerOf` picks the greater key, the first register when the keys tie. */
  lemma NewerIsGreater(a: Register, b: Register)
    ensures NewerOf(a, b) == if KeyLess(KeyOf(a), KeyOf(b)) then b else a
  {
    LessTotal(a.actor, b.actor);
    LessTotal(a.descriptor.digest, b.descriptor.digest);
  }

  /** Registers with the same key are the same register. */
  ghost predicate Distinguished(a: Register, b: Register) {
    KeyOf(a) == KeyOf(b) ==> a == b
  }

  lemma NewerSymmetric(a: Register, b: Register)
    requires Distinguished(a, b)
    ensures NewerOf(a, b) == NewerOf(b, a)
  {
    NewerIsGreater(a, b);
    NewerIsGreater(b, a);
    KeyTotal(KeyOf(a), KeyOf(b));
  }

  // --- what becomes of one path ------------------------------------------------------------------

  /** A surviving register, or bytes out of a content merger. */
  datatype Winner =
    | Keep(reg: Register)
    | Fresh(bytes: Bytes, mtimeMs: nat, actor: Bytes, mode: nat)

  /** `lww`: the path is reported as a conflict resolved by last-writer-wins. */
  datatype Verdict = Unreadable | Gone(lww: bool) | Won(winner: Winner, lww: bool)

  datatype Built = Built(descriptor: Descriptor, diffId: Bytes, items: seq<Item<Entry>>, tar: Bytes)

  /** The merger registered for a path, the per-file layer builder (path, bytes, mode, mtime, actor), the manifest digest. */
  datatype Tools = Tools(
    merger: Path -> Option<(Bytes, Bytes) -> Bytes>,
    build: (Path, Bytes, nat, nat, Bytes) -> Built,
    hash: Manifest -> Digest)

  /** The two views to join and the files of their nearest common ancestor. */
  datatype Sides = Sides(a: HeadView, b: HeadView, base: map<Path, Register>) {
    function Paths(): set<Path> { a.files.Keys + b.files.Keys }
  }

  function FileBytes(s: Store, r: Register): Option<Bytes> {
    if r.descriptor.digest in s.tars then Some(Sub(s.tars[r.descriptor.digest], r.entry.offset, r.entry.offset + r.entry.size))
    else None
  }

  const PLUS: byte := 43

  function JoinActors(a: Bytes, b: Bytes): Bytes {
    if Less(b, a) then b + [PLUS] + a else a + [PLUS] + b
  }

  function BothSides(t: Tools, s: Store, p: Path, a: Register, b: Register): Verdict {
    var newer := NewerOf(a, b);
    if SameEntry(a, b) then Won(Keep(newer), false)
    else match t.merger(p)
      case None => Won(Keep(newer), true)
      case Some(merge) =>
        match (FileBytes(s, a), FileBytes(s, b))
        case (Some(x), Some(y)) =>
          var bytes := if newer == a then merge(y, x) else merge(x, y);
          Won(Fresh(bytes, Max2(a.mtimeMs, b.mtimeMs), JoinActors(a.actor, b.actor), newer.entry.mode), false)
        case _ => Unreadable
  }

  /** Added on one side, or deleted on the other: an untouched file goes, an edited one goes by the clocks. */
  function OneSide(present: Register, other: HeadView, base: map<Path, Register>, p: Path): Verdict {
    if p !in base then Won(Keep(present), false)
    else
      var edited, stamp := !SameEntry(present, base[p]), Stamp(other.whiteouts, p);
      if !edited || stamp >= present.mtimeMs then Gone(stamp > 0 || edited)
      else Won(Keep(present), stamp > 0)
  }

  function Decide(t: Tools, s: Store, v: Sides, p: Path): Verdict
    requires p in v.Paths()
  {
    if p in v.a.files && p in v.b.files then BothSides(t, s, p, v.a.files[p], v.b.files[p])
    else if p in v.a.files then OneSide(v.a.files[p], v.b, v.base, p)
    else OneSide(v.b.files[p], v.a, v.base, p)
  }

  // --- the merged manifest --------------------------------------------------------------------------

  datatype Draft = Draft(store: Store, layers: seq<Descriptor>, diffIds: seq<Bytes>)

  function PutLayer(s: Store, b: Built): Store {
    var d := b.descriptor.digest;
    s.(layers := if d in s.layers then s.layers else s.layers[d := b.items], tars := if d in s.tars then s.tars else s.tars[d := b.tar])
  }

  /** Zero-copy: the layer is named again as it stands. */
  predicate Reusable(w: Winner) {
    w.Keep? && w.reg.sole && w.reg.entry.plain && w.reg.diffId != []
  }

  function ContentOf(s: Store, w: Winner): Option<Bytes> {
    if w.Keep? then FileBytes(s, w.reg) else Some(w.bytes)
  }

  function BuildFor(t: Tools, p: Path, w: Winner, bytes: Bytes): Built {
    if w.Keep? then t.build(p, bytes, w.reg.entry.mode, w.reg.mtimeMs, w.reg.actor)
    else t.build(p, bytes, w.mode, w.mtimeMs, w.actor)
  }

  function AddWinner(t: Tools, d: Draft, p: Path, w: Winner): Option<Draft> {
    if Reusable(w) then Some(Draft(d.store, d.layers + [w.reg.descriptor], d.diffIds + [w.reg.diffId]))
    else match ContentOf(d.store, w)
      case None => None
      case Some(bytes) =>
        var built := BuildFor(t, p, w, bytes);
        Some(Draft(PutLayer(d.store, built), d.layers + [built.descriptor], d.diffIds + [built.diffId]))
  }

  function AddWinners(t: Tools, s: Store, winners: map<Path, Winner>, q: seq<Path>): Option<Draft>
    requires forall p :: p in q ==> p in winners
  {
    if q == [] then Some(Draft(s, [], []))
    else match AddWinners(t, s, winners, q[..|q| - 1])
      case None => None
      case Some(d) => AddWinner(t, d, q[|q| - 1], winners[q[|q| - 1]])
  }

  function SortTwo(a: Digest, b: Digest): seq<Digest> {
    if Less(b, a) then [b, a] else [a, b]
  }

  const MERGE_ACTOR: Bytes := [109, 101, 114, 103, 101]  // "merge"

  /** One head contains the other, or a new head joins them. */
  datatype Outcome =
    | Failed
    | Ahead(digest: Digest)
    | Joined(store: Store, digest: Digest, lwwPaths: seq<Path>, contentMergedPaths: seq<Path>)

  function Publish(t: Tools, d: Draft, headA: Digest, headB: Digest, lww: seq<Path>, content: seq<Path>): Outcome {
    var m := Manifest(d.layers, d.diffIds, SortTwo(headA, headB), MERGE_ACTOR);
    var digest := t.hash(m);
    Joined(if digest in d.store.manifests then d.store else d.store.(manifests := d.store.manifests[digest := m]), digest, lww, content)
  }

  function Winners(t: Tools, s: Store, v: Sides): map<Path, Winner> {
    map p | p in v.Paths() && Decide(t, s, v, p).Won? :: Decide(t, s, v, p).winner
  }

  predicate IsLww(t: Tools, s: Store, v: Sides, p: Path)
    requires p in v.Paths()
  {
    var d := Decide(t, s, v, p);
    !d.Unreadable? && d.lww
  }

  predicate IsContent(t: Tools, s: Store, v: Sides, p: Path)
    requires p in v.Paths()
  {
    var d := Decide(t, s, v, p);
    d.Won? && d.winner.Fresh?
  }

  function LwwPaths(t: Tools, s: Store, v: Sides, q: seq<Path>): seq<Path>
    requires forall p :: p in q ==> p in v.Paths()
  {
    if q == [] then []
    else LwwPaths(t, s, v, q[..|q| - 1]) + if IsLww(t, s, v, q[|q| - 1]) then [q[|q| - 1]] else []
  }

  function ContentPaths(t: Tools, s: Store, v: Sides, q: seq<Path>): seq<Path>
    requires forall p :: p in q ==> p in v.Paths()
  {
    if q == [] then []
    else ContentPaths(t, s, v, q[..|q| - 1]) + if IsContent(t, s, v, q[|q| - 1]) then [q[|q| - 1]] else []
  }

  ghost predicate Sortable(v: Sides) {
    forall p :: p in v.Paths() ==> NoSlash(p)
  }

  /** The join of two views, paths in string order. */
  ghost function Join(t: Tools, s: Store, headA: Digest, headB: Digest, v: Sides): Outcome
    requires Sortable(v)
  {
    var q := InOrder(v.Paths());
    var winners := Winners(t, s, v);
    if exists p :: p in q && Decide(t, s, v, p).Unreadable? then Failed
    else match AddWinners(t, s, winners, InOrder(winners.Keys))
      case None => Failed
      case Some(d) => Publish(t, d, headA, headB, LwwPaths(t, s, v, q), ContentPaths(t, s, v, q))
  }

  /** Layer paths are component lists. */
  ghost predicate Componentwise(s: Store) {
    forall d, e :: d in s.layers && e in s.layers[d] ==> NoSlash(e.path)
  }

  lemma ViewNoSlash(s: Store, d: Digest)
    requires Loadable(s, d) && Componentwise(s)
    ensures forall p :: p in ViewOf(s, d).files ==> NoSlash(p)
  {
    hide NoSlash, MergeLayers, RegisterOf;
    MergedRooted(LayersOf(s, s.manifests[d]));
  }

  function SidesOf(s: Store, headA: Digest, headB: Digest, base: Option<Digest>): Sides
    requires Loadable(s, headA) && Loadable(s, headB) && (base.Some? ==> Loadable(s, base.value))
  {
    Sides(ViewOf(s, headA), ViewOf(s, headB), if base.Some? then ViewOf(s, base.value).files else map[])
  }

  ghost function JoinFrom(t: Tools, s: Store, headA: Digest, headB: Digest, base: Option<Digest>): Outcome
    requires Componentwise(s)
  {
    if Loadable(s, headA) && Loadable(s, headB) && (base.Some? ==> Loadable(s, base.value)) then
      ViewNoSlash(s, headA);
      ViewNoSlash(s, headB);
      Join(t, s, headA, headB, SidesOf(s, headA, headB, base))
    else Failed
  }

  ghost predicate Answers(g: Graph, ancestor: Digest, head: Digest, maxWalk: nat, r: bool) {
    (r ==> Reaches(g, head, ancestor)) && (Fits(g, head, maxWalk) ==> (r <==> Reaches(g, head, ancestor)))
  }

  ghost predicate BaseOf(g: Graph, a: Digest, b: Digest, maxWalk: nat, base: Option<Digest>) {
    && (base.Some? ==> exists w: nat :: Common(g, a, b, base.value, w))
    && (Fits(g, a, maxWalk) && Fits(g, b, maxWalk) ==>
        if base.Some? then Chosen(g, a, b, base.value) else forall x, w: nat :: !Common(g, a, b, x, w))
  }

  /** What a call of `mergeHeads` may return. */
  ghost predicate Merges(t: Tools, s: Store, headA: Digest, headB: Digest, maxWalk: nat, o: Outcome)
    requires Componentwise(s)
  {
    var g := ParentsGraph(s);
    if headA == headB then o == Ahead(headA)
    else exists aHasB, bHasA, base ::
      && Answers(g, headB, headA, maxWalk, aHasB) && Answers(g, headA, headB, maxWalk, bHasA) && BaseOf(g, headA, headB, maxWalk, base)
      && o == if aHasB then Ahead(headA) else if bHasA then Ahead(headB) else JoinFrom(t, s, headA, headB, base)
  }

  /** The first loop: settle every path. */
  method DecideAll(t: Tools, s: Store, v: Sides, q: seq<Path>)
    returns (ok: bool, winners: map<Path, Winner>, lww: seq<Path>, content: seq<Path>)
    requires forall p :: p in q <==> p in v.Paths()
    ensures ok <==> forall p :: p in q ==> !Decide(t, s, v, p).Unreadable?
    ensures ok ==> winners == Winners(t, s, v) && lww == LwwPaths(t, s, v, q) && content == ContentPaths(t, s, v, q)
  {
    hide *;
    ok, winners, lww, content := true, map[], [], [];
    NoneDecided(t, s, v, q);
    for i := 0 to |q|
      invariant Decided(t, s, v, q[..i], winners, lww, content)
    {
      var path := q[i];
      assert q[..i + 1] == q[..i] + [path] && path in v.Paths();
      DecidedNext(t, s, v, q[..i], path, winners, lww, content);
      match Decide(t, s, v, path)
      case Unreadable => return false, winners, lww, content;
      case Gone(l) => if l { lww := lww + [path]; }
      case Won(w, l) =>
        winners := winners[path := w];
        if w.Fresh? { content := content + [path]; }
        if l { lww := lww + [path]; }
    }
    assert q[..|q|] == q;
    AllDecided(t, s, v, q, winners, lww, content);
  }

  /** The loop's results after the paths of `q`, none of them unreadable. */
  ghost predicate Decided(t: Tools, s: Store, v: Sides, q: seq<Path>, winners: map<Path, Winner>, lww: seq<Path>, content: seq<Path>)
  {
    && (forall p :: p in q ==> p in v.Paths() && !Decide(t, s, v, p).Unreadable?)
    && (forall p :: p in winners <==> p in q && Decide(t, s, v, p).Won?)
    && (forall p :: p in winners ==> winners[p] == Decide(t, s, v, p).winner)
    && lww == LwwPaths(t, s, v, q) && content == ContentPaths(t, s, v, q)
  }

  lemma NoneDecided(t: Tools, s: Store, v: Sides, q: seq<Path>)
    ensures Decided(t, s, v, q[..0], map[], [], [])
  {
  }

  lemma DecidedNext(t: Tools, s: Store, v: Sides, q: seq<Path>, p: Path, winners: map<Path, Winner>, lww: seq<Path>, content: seq<Path>)
    requires p in v.Paths() && Decided(t, s, v, q, winners, lww, content)
    ensures match Decide(t, s, v, p)
      case Unreadable => true
      case Gone(l) => Decided(t, s, v, q + [p], winners, if l then lww + [p] else lww, content)
      case Won(w, l) => Decided(t, s, v, q + [p], winners[p := w], if l then lww + [p] else lww, if w.Fresh? then content + [p] else content)
  {
    hide Decide;
    assert (q + [p])[..|q|] == q;
  }

  lemma AllDecided(t: Tools, s: Store, v: Sides, q: seq<Path>, winners: map<Path, Winner>, lww: seq<Path>, content: seq<Path>)
    requires Decided(t, s, v, q, winners, lww, content) && forall p :: p in q <==> p in v.Paths()
    ensures forall p :: p in q ==> !Decide(t, s, v, p).Unreadable?
    ensures winners == Winners(t, s, v) && lww == LwwPaths(t, s, v, q) && content == ContentPaths(t, s, v, q)
  {
    hide Decide;
  }

  /** The second loop: one layer per winner. */
  method BuildLayers(t: Tools, s: Store, winners: map<Path, Winner>, q: seq<Path>) returns (r: Option<Draft>)
    requires forall p :: p in q ==> p in winners
    ensures r == AddWinners(t, s, winners, q)
  {
    hide AddWinner;
    var d := Draft(s, [], []);
    for i := 0 to |q|
      invariant Some(d) == AddWinners(t, s, winners, q[..i])
    {
      assert q[..i + 1][..i] == q[..i];
      var next := AddWinner(t, d, q[i], winners[q[i]]);
      if next.None? {
        Stopped(t, s, winners, q, i + 1);
        return None;
      }
      d := next.value;
    }
    assert q[..|q|] == q;
    r := Some(d);
  }

  lemma {:induction false} Stopped(t: Tools, s: Store, winners: map<Path, Winner>, q: seq<Path>, i: nat)
    requires forall p :: p in q ==> p in winners
    requires i <= |q| && AddWinners(t, s, winners, q[..i]).None?
    ensures AddWinners(t, s, winners, q).None?
    decreases |q|
  {
    if i < |q| {
      assert q[..|q| - 1][..i] == q[..i];
      Stopped(t, s, winners, q[..|q| - 1], i);
    } else {
      assert q[..i] == q;
    }
  }

  method MergeHeads(t: Tools, s: Store, headA: Digest, headB: Digest, maxWalk: nat) returns (o: Outcome)
    requires Componentwise(s)
    ensures Merges(t, s, headA, headB, maxWalk, o)
  {
    hide Answers, BaseOf, Componentwise, Loadable, Join, ViewOf, Winners, NoSlash;
    if headA == headB { return Ahead(headA); }
    var g := ParentsGraph(s);
    var aHasB := IsAncestor(g, headB, headA, maxWalk);
    var bHasA := IsAncestor(g, headA, headB, maxWalk);
    var base := CommonAncestor(g, headA, headB, maxWalk);
    IsAnswer(g, headB, headA, maxWalk, aHasB);
    IsAnswer(g, headA, headB, maxWalk, bHasA);
    IsBase(g, headA, headB, maxWalk, base);
    if aHasB { return Ahead(headA); }
    if bHasA { return Ahead(headB); }
    if !Loadable(s, headA) || !Loadable(s, headB) || (base.Some? && !Loadable(s, base.value)) { return Failed; }
    var viewA := LoadHeadView(s, headA);
    var viewB := LoadHeadView(s, headB);
    var files: map<Path, Register> := map[];
    if base.Some? {
      var ancestor := LoadHeadView(s, base.value);
      files := ancestor.files;
    }
    ViewNoSlash(s, headA);
    ViewNoSlash(s, headB);
    o := JoinViews(t, s, headA, headB, Sides(viewA, viewB, files));
  }

  method JoinViews(t: Tools, s: Store, headA: Digest, headB: Digest, v: Sides) returns (o: Outcome)
    requires Sortable(v)
    ensures o == Join(t, s, headA, headB, v)
  {
    hide Decide, InOrder, AddWinners, Publish, PathLess, NoSlash;
    var q := SortPaths(v.Paths());
    var ok, winners, lww, content := DecideAll(t, s, v, q);
    if !ok { return Failed; }
    var order := SortPaths(winners.Keys);
    var d := BuildLayers(t, s, winners, order);
    if d.None? { return Failed; }
    o := Publish(t, d.value, headA, headB, lww, content);
  }

  lemma IsAnswer(g: Graph, ancestor: Digest, head: Digest, maxWalk: nat, r: bool)
    requires r ==> Reaches(g, head, ancestor)
    requires Fits(g, head, maxWalk) ==> (r <==> Reaches(g, head, ancestor))
    ensures Answers(g, ancestor, head, maxWalk, r)
  {
  }

  lemma IsBase(g: Graph, a: Digest, b: Digest, maxWalk: nat, base: Option<Digest>)
    requires base.Some? ==> exists w: nat :: Common(g, a, b, base.value, w)
    requires Fits(g, a, maxWalk) && Fits(g, b, maxWalk) ==>
      if base.Some? then Chosen(g, a, b, base.value) else forall x, w: nat :: !Common(g, a, b, x, w)
    ensures BaseOf(g, a, b, maxWalk, base)
  {
  }
}
