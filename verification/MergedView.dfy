/** What a merged head shows, and exactly when that is the winners. */
module MergedView {
  import opened Bytes
  import opened Paths
  import opened View
  import opened Ancestry
  import opened Order
  import opened MergeHeads
  import opened Replay

  /** One regular file and nothing else. */
  predicate SoleFile(es: seq<Item<Entry>>) {
    |es| == 1 && IsFile(es[0]) && es[0].payload.plain
  }

  predicate Distinct(q: seq<Path>) {
    forall i, j :: 0 <= i < j < |q| ==> q[i] != q[j]
  }

  predicate Stack(layers: seq<seq<Item<Entry>>>, q: seq<Path>) {
    |layers| == |q| && forall i :: 0 <= i < |q| ==> SoleFile(layers[i]) && layers[i][0].path == q[i]
  }

  /** `m` holds, for every `i`, the file of layer `i` at `q[i]`, and nothing else. */
  ghost predicate Flat(layers: seq<seq<Item<Entry>>>, q: seq<Path>, m: Merged<Entry>)
    requires Stack(layers, q)
  {
    && (forall p :: p in m <==> p in q)
    && forall i :: 0 <= i < |q| ==> q[i] in m && m[q[i]] == Placed(i, layers[i][0])
  }

  lemma {:induction false} StackIsFlat(layers: seq<seq<Item<Entry>>>, q: seq<Path>)
    requires Stack(layers, q) && Distinct(q)
    ensures Flat(layers, q, MergeLayers(layers))
  {
    hide IsFile;
    if q != [] {
      var n := |q| - 1;
      StackIsFlat(layers[..n], q[..n]);
      var below := MergeLayers(layers[..n]);
      assert layers[n][..0] == [];
      OnTop(below, n, layers[n]);
      assert q == q[..n] + [q[n]];
    }
  }

  lemma OnTop(m: Merged<Entry>, layer: nat, es: seq<Item<Entry>>)
    requires SoleFile(es) && es[0].path !in m
    ensures ApplyLayer(m, layer, es) == m[es[0].path := Placed(layer, es[0])]
  {
    hide WhiteoutTarget;
    assert es[..0] == [];
    assert ApplyLayer(m, layer, es[..0]) == m;
  }

  // --- layers with one file --------------------------------------------------------------------------

  /** A single file, at `p`; directories and whiteouts do not count. */
  ghost predicate OneFile(es: seq<Item<Entry>>, p: Path) {
    FileCount(es) == 1 && exists e :: e in es && IsFile(e) && e.path == p
  }

  lemma {:induction false} CountNone(es: seq<Item<Entry>>)
    ensures FileCount(es) == 0 <==> forall e :: e in es ==> !IsFile(e)
  {
    hide IsFile;
    if es != [] {
      var n := |es| - 1;
      CountNone(es[..n]);
      assert es == es[..n] + [es[n]];
    }
  }

  lemma {:induction false} CountOne(es: seq<Item<Entry>>, i: nat, j: nat)
    requires FileCount(es) == 1 && i < |es| && j < |es| && IsFile(es[i]) && IsFile(es[j])
    ensures i == j
  {
    hide IsFile;
    var n := |es| - 1;
    assert es == es[..n] + [es[n]];
    CountNone(es[..n]);
    if i < n { assert es[..n][i] in es[..n]; }
    if j < n { assert es[..n][j] in es[..n]; }
    if i < n && j < n { CountOne(es[..n], i, j); }
  }

  /** Layer `i` of the stack has one file, at `q[i]`. */
  ghost predicate Stacked(layers: seq<seq<Item<Entry>>>, q: seq<Path>) {
    |layers| == |q| && forall i :: 0 <= i < |q| ==> OneFile(layers[i], q[i])
  }

  lemma SoleIsOne(es: seq<Item<Entry>>)
    requires SoleFile(es)
    ensures OneFile(es, es[0].path)
  {
    hide IsFile;
    assert es[..0] == [] && FileCount(es[..0]) == 0;
  }

  /** The position of each file in the flattened stack is the position of its layer in `q`. */
  lemma {:induction false} StackedApart(layers: seq<seq<Item<Entry>>>, q: seq<Path>)
    requires Stacked(layers, q) && Distinct(q)
    ensures FilesApart(Flattened(layers))
    ensures forall x :: x in Flattened(layers) && IsFile(x.item) ==> x.layer < |q| && x.item.path == q[x.layer]
  {
    hide IsFile, OneFile;
    if layers != [] {
      var n := |layers| - 1;
      var rest, last := Flattened(layers[..n]), Tagged(n, layers[n]);
      StackedApart(layers[..n], q[..n]);
      forall j | 0 <= j < |last| && IsFile(last[j].item) ensures last[j].item.path == q[n] { OneFilePath(layers[n], q[n], j); }
      forall k, j | 0 <= k < j < |last| && IsFile(last[k].item) ensures !IsFile(last[j].item) {
        if IsFile(last[j].item) { OneFilePath(layers[n], q[n], j); CountOne(layers[n], k, j); }
      }
      var xs := rest + last;
      forall x | x in xs && IsFile(x.item) ensures x.layer < |q| && x.item.path == q[x.layer] {
        if x in rest { assert q[..n][x.layer] == q[x.layer]; }
      }
      forall k, j | 0 <= k < j < |xs| && IsFile(xs[k].item) && IsFile(xs[j].item) ensures xs[k].item.path != xs[j].item.path {
        if k < |rest| {
          assert rest[k] in rest;
          FlattenedHas(layers[..n]);
        }
      }
    }
  }

  lemma OneFilePath(es: seq<Item<Entry>>, p: Path, j: nat)
    requires OneFile(es, p) && j < |es| && IsFile(es[j])
    ensures FileCount(es) == 1 && es[j].path == p
  {
    hide IsFile, FileCount;
    var e :| e in es && IsFile(e) && e.path == p;
    var i :| 0 <= i < |es| && es[i] == e;
    CountOne(es, i, j);
  }

  /** A stack of one-file layers shows all its files if and only if none is disturbed, and never another file. */
  lemma StackShows(layers: seq<seq<Item<Entry>>>, q: seq<Path>)
    requires Stacked(layers, q) && Distinct(q)
    ensures var m := MergeLayers(layers);
      && (Undisturbed(Flattened(layers)) <==> forall p :: p in q ==> ShowsFile(m, p))
      && (forall p :: ShowsFile(m, p) ==> p in q && m[p].layer < |q| && p == q[m[p].layer])
      && (forall p :: ShowsFile(m, p) ==> m[p].item in layers[m[p].layer] && IsFile(m[p].item))
  {
    var xs := Flattened(layers);
    RunIsMerge(layers);
    StackedApart(layers, q);
    AllShown(xs);
    StackFiles(layers, q);
    hide Undisturbed, FilesApart, Flattened, Run, MergeLayers, IsFile, ShowsFile, Stacked;
    forall p | ShowsFile(Run(xs), p) ensures p in Run(xs) && Run(xs)[p] in xs && IsFile(Run(xs)[p].item) && Run(xs)[p].item.path == p {
      ShownFile(xs, p);
    }
    FlattenedHas(layers);
    forall k | 0 <= k < |xs| && IsFile(xs[k].item) ensures xs[k].item.path in q { assert xs[k] in xs; }
  }

  lemma ShownFile(xs: seq<Placed<Entry>>, p: Path)
    requires ShowsFile(Run(xs), p)
    ensures p in Run(xs) && Run(xs)[p] in xs && IsFile(Run(xs)[p].item) && Run(xs)[p].item.path == p
  {
    RunRooted(xs);
    hide Run, WhiteoutTarget;
  }

  /** Some item of the stack puts a file at `p`. */
  ghost predicate Filed(xs: seq<Placed<Entry>>, p: Path) {
    exists k :: 0 <= k < |xs| && IsFile(xs[k].item) && xs[k].item.path == p
  }

  /** Every path of `q` has its file in the flattened stack. */
  lemma StackFiles(layers: seq<seq<Item<Entry>>>, q: seq<Path>)
    requires Stacked(layers, q)
    ensures forall p :: p in q ==> Filed(Flattened(layers), p)
  {
    FlattenedHas(layers);
    forall p | p in q ensures Filed(Flattened(layers), p) {
      var i :| 0 <= i < |q| && q[i] == p;
      FiledAt(layers, i, p);
    }
  }

  lemma FiledAt(layers: seq<seq<Item<Entry>>>, i: nat, p: Path)
    requires i < |layers| && OneFile(layers[i], p)
    ensures Filed(Flattened(layers), p)
  {
    FlattenedHas(layers);
    var xs := Flattened(layers);
    hide Flattened, IsFile, FileCount;
    var e :| e in layers[i] && IsFile(e) && e.path == p;
    var j :| 0 <= j < |layers[i]| && layers[i][j] == e;
    assert Placed(i, layers[i][j]) in xs;
    var k :| 0 <= k < |xs| && xs[k] == Placed(i, e);
    assert IsFile(xs[k].item);
  }

  // --- content addressing -------------------------------------------------------------------------

  /** What the blob behind a digest holds, wherever it is stored. */
  datatype Archive = Archive(items: Digest -> seq<Item<Entry>>, tar: Digest -> Bytes)

  ghost predicate Archived(ar: Archive, s: Store) {
    && (forall d :: d in s.layers ==> s.layers[d] == ar.items(d))
    && (forall d :: d in s.tars ==> s.tars[d] == ar.tar(d))
  }

  /** A per-file layer with this one file: whole seconds in the tar, the full clock in the annotations. */
  predicate FaithfulBuild(ar: Archive, b: Built, p: Path, bytes: Bytes, mode: nat, mtimeMs: nat, actor: Bytes) {
    && b.items == ar.items(b.descriptor.digest) && b.tar == ar.tar(b.descriptor.digest)
    && b.descriptor.actor == actor && b.descriptor.mtimeMs == mtimeMs
    && SoleFile(b.items) && b.items[0].path == p
    && var e := b.items[0].payload;
      e.size == |bytes| && e.mode == mode % 4096 && e.mtimeMs == mtimeMs / 1000 * 1000 && Sub(b.tar, e.offset, e.offset + e.size) == bytes
  }

  ghost predicate Builds(t: Tools, ar: Archive) {
    forall p, bytes, mode, mtimeMs, actor {:trigger t.build(p, bytes, mode, mtimeMs, actor)} ::
      WhiteoutTarget(p) == NoWhiteout ==> FaithfulBuild(ar, t.build(p, bytes, mode, mtimeMs, actor), p, bytes, mode, mtimeMs, actor)
  }

  ghost predicate Hashed(t: Tools, s: Store) {
    forall d :: d in s.manifests ==> t.hash(s.manifests[d]) == d
  }

  ghost predicate Injective(t: Tools) {
    forall m, m' {:trigger t.hash(m), t.hash(m')} :: t.hash(m) == t.hash(m') ==> m == m'
  }

  // --- one layer per winner ------------------------------------------------------------------------

  /** A register of a head in `s`: an entry of the layer it names, with that layer's clock, actor and file count. */
  ghost predicate Native(s: Store, p: Path, r: Register) {
    && r.descriptor.digest in s.layers && Item(p, false, r.entry) in s.layers[r.descriptor.digest]
    && (r.sole <==> FileCount(s.layers[r.descriptor.digest]) == 1)
    && r.mtimeMs == (if r.entry.mtimeMs != 0 then r.entry.mtimeMs else r.descriptor.mtimeMs) && r.actor == r.descriptor.actor
  }

  /** No whiteout, and a register that is kept comes from a head. */
  ghost predicate Ready(s: Store, p: Path, w: Winner) {
    WhiteoutTarget(p) == NoWhiteout && (w.Keep? ==> Native(s, p, w.reg))
  }

  /** Every register of a view is native to its store. */
  lemma ViewNative(s: Store, d: Digest)
    requires Loadable(s, d)
    ensures forall p :: p in ViewOf(s, d).files ==> WhiteoutTarget(p) == NoWhiteout && Native(s, p, ViewOf(s, d).files[p])
  {
    var m := s.manifests[d];
    var layers := LayersOf(s, m);
    MergedRooted(layers);
    var merged := MergeLayers(layers);
    hide MergeLayers, WhiteoutTarget, FileCount, Stamps;
    forall p | p in ViewOf(s, d).files ensures WhiteoutTarget(p) == NoWhiteout && Native(s, p, ViewOf(s, d).files[p]) {
      assert m.layers[merged[p].layer] in m.layers;
      assert merged[p].item == Item(p, false, merged[p].item.payload);
    }
  }

  /** Every winner of two heads is ready. */
  lemma WinnersNative(t: Tools, s: Store, headA: Digest, headB: Digest, base: Option<Digest>)
    requires Loadable(s, headA) && Loadable(s, headB) && (base.Some? ==> Loadable(s, base.value))
    ensures var winners := Winners(t, s, SidesOf(s, headA, headB, base)); forall p :: p in winners ==> Ready(s, p, winners[p])
  {
    var v := SidesOf(s, headA, headB, base);
    ViewNative(s, headA);
    ViewNative(s, headB);
    assert v.a == ViewOf(s, headA) && v.b == ViewOf(s, headB);
    hide *;
    forall p | p in Winners(t, s, v) ensures Ready(s, p, Winners(t, s, v)[p]) {
      WinnerOf(t, s, v, p);
      if Winners(t, s, v)[p].Keep? { KeptIsGiven(t, s, v, p); }
      IsReady(s, p, Winners(t, s, v)[p]);
    }
  }

  lemma WinnerOf(t: Tools, s: Store, v: Sides, p: Path)
    requires p in Winners(t, s, v)
    ensures p in v.Paths() && Decide(t, s, v, p).Won? && Winners(t, s, v)[p] == Decide(t, s, v, p).winner
    ensures p in v.a.files || p in v.b.files
  {
    hide Decide;
  }

  lemma IsReady(s: Store, p: Path, w: Winner)
    requires WhiteoutTarget(p) == NoWhiteout && (w.Keep? ==> Native(s, p, w.reg))
    ensures Ready(s, p, w)
  {
  }

  /** A register that is kept is one of the path's own. */
  lemma KeptIsGiven(t: Tools, s: Store, v: Sides, p: Path)
    requires p in v.Paths() && Decide(t, s, v, p).Won? && Decide(t, s, v, p).winner.Keep?
    ensures var r := Decide(t, s, v, p).winner.reg; (p in v.a.files && r == v.a.files[p]) || (p in v.b.files && r == v.b.files[p])
  {
    if p in v.a.files && p in v.b.files { NewerIsGreater(v.a.files[p], v.b.files[p]); }
    hide NewerOf, KeyLess, SameEntry, FileBytes;
  }

  ghost predicate Grown(s: Store, s': Store) {
    && s'.manifests == s.manifests && s.layers.Keys <= s'.layers.Keys && s.tars.Keys <= s'.tars.Keys
  }

  /** Layer `i` of the draft carries the winner of path `p`. */
  ghost predicate Carries(t: Tools, d: Draft, i: nat, p: Path, w: Winner)
    requires i < |d.layers| == |d.diffIds|
  {
    if Reusable(w) then d.layers[i] == w.reg.descriptor && d.diffIds[i] == w.reg.diffId
    else
      var bytes := ContentOf(d.store, w);
      bytes.Some? && d.layers[i].digest in d.store.tars
      && d.layers[i] == BuildFor(t, p, w, bytes.value).descriptor && d.diffIds[i] == BuildFor(t, p, w, bytes.value).diffId
  }

  ghost predicate Drafted(t: Tools, ar: Archive, s: Store, winners: map<Path, Winner>, q: seq<Path>, d: Draft)
    requires forall p :: p in q ==> p in winners
  {
    && Grown(s, d.store) && Archived(ar, d.store) && |d.layers| == |d.diffIds| == |q|
    && (forall i :: 0 <= i < |q| ==> d.layers[i].digest in d.store.layers)
    && (forall i :: 0 <= i < |q| ==> Carries(t, d, i, q[i], winners[q[i]]))
  }

  lemma {:induction false} DraftCarries(t: Tools, ar: Archive, s: Store, winners: map<Path, Winner>, q: seq<Path>)
    requires Archived(ar, s) && Builds(t, ar)
    requires forall p :: p in q ==> p in winners && Ready(s, p, winners[p])
    ensures var d := AddWinners(t, s, winners, q); d.Some? ==> Drafted(t, ar, s, winners, q, d.value)
  {
    hide Ready, AddWinner, Carries, Archived, Builds;
    if q != [] {
      var n := |q| - 1;
      DraftCarries(t, ar, s, winners, q[..n]);
      var before := AddWinners(t, s, winners, q[..n]);
      if before.Some? && AddWinner(t, before.value, q[n], winners[q[n]]).Some? {
        assert q[n] in q;
        DraftStep(t, ar, s, winners, q[..n], before.value, q[n]);
        assert q == q[..n] + [q[n]];
      }
    }
  }

  lemma DraftStep(t: Tools, ar: Archive, s: Store, winners: map<Path, Winner>, q: seq<Path>, d: Draft, p: Path)
    requires (forall x :: x in q ==> x in winners) && p in winners
    requires Drafted(t, ar, s, winners, q, d) && Builds(t, ar) && Ready(s, p, winners[p]) && AddWinner(t, d, p, winners[p]).Some?
    ensures Drafted(t, ar, s, winners, q + [p], AddWinner(t, d, p, winners[p]).value)
  {
    hide Archived, FaithfulBuild, BuildFor;
    var w := winners[p];
    var d' := AddWinner(t, d, p, w).value;
    StepStore(t, ar, s, d, p, w);
    forall i | 0 <= i < |q| ensures Carries(t, d', i, q[i], winners[q[i]]) {
      ContentKept(ar, d.store, d'.store, winners[q[i]]);
    }
    ContentKept(ar, d.store, d'.store, w);
    hide PutLayer, Native, Ready;
  }

  lemma StepStore(t: Tools, ar: Archive, s: Store, d: Draft, p: Path, w: Winner)
    requires Grown(s, d.store) && Archived(ar, d.store) && Builds(t, ar) && Ready(s, p, w) && AddWinner(t, d, p, w).Some?
    ensures var d' := AddWinner(t, d, p, w).value;
      && Grown(d.store, d'.store) && Grown(s, d'.store) && Archived(ar, d'.store) && |d'.layers| == |d.layers| + 1
      && d'.layers[|d.layers|].digest in d'.store.layers && (Reusable(w) || d'.layers[|d.layers|].digest in d'.store.tars)
  {
    hide WhiteoutTarget, FileBytes, SoleFile;
  }

  lemma ContentKept(ar: Archive, s: Store, s': Store, w: Winner)
    requires Archived(ar, s) && Archived(ar, s') && Grown(s, s')
    ensures ContentOf(s, w).Some? ==> ContentOf(s', w) == ContentOf(s, w)
  {
    hide Sub;
  }

  // --- the new head ------------------------------------------------------------------------------------

  function ActorOf(w: Winner): Bytes {
    if w.Keep? then w.reg.actor else w.actor
  }

  function ModeOf(w: Winner): nat {
    if w.Keep? then w.reg.entry.mode else w.mode
  }

  function ClockOf(w: Winner): nat {
    if w.Keep? then w.reg.mtimeMs else w.mtimeMs
  }

  /** A tar holds whole seconds; the annotation's full clock counts only where these are zero. */
  function Rebuilt(mtimeMs: nat): nat {
    if mtimeMs < 1000 then mtimeMs else mtimeMs - mtimeMs % 1000
  }

  /** The register that shows a winner: itself when reused, else its content alone in a fresh layer. */
  ghost predicate Shows(s: Store, w: Winner, r: Register) {
    if Reusable(w) then r == w.reg
    else
      && FileBytes(s, r).Some? && FileBytes(s, r) == ContentOf(s, w) && r.sole
      && r.actor == ActorOf(w) && r.mtimeMs == Rebuilt(ClockOf(w)) && r.entry.mode == ModeOf(w) % 4096
  }

  lemma CarriedLayer(t: Tools, ar: Archive, s: Store, d: Draft, i: nat, p: Path, w: Winner)
    requires Grown(s, d.store) && Archived(ar, s) && Archived(ar, d.store) && Builds(t, ar) && Ready(s, p, w)
    requires i < |d.layers| == |d.diffIds| && Carries(t, d, i, p, w) && d.layers[i].digest in d.store.layers
    ensures OneFile(d.store.layers[d.layers[i].digest], p)
  {
    if Reusable(w) {
      assert Item(p, false, w.reg.entry) in s.layers[w.reg.descriptor.digest];
    } else {
      var bytes := ContentOf(d.store, w).value;
      BuiltFaithfully(t, ar, p, w, bytes);
      SoleIsOne(d.store.layers[d.layers[i].digest]);
    }
    hide WhiteoutTarget, FaithfulBuild, BuildFor, ContentOf, FileCount;
  }

  lemma BuiltFaithfully(t: Tools, ar: Archive, p: Path, w: Winner, bytes: Bytes)
    requires Builds(t, ar) && WhiteoutTarget(p) == NoWhiteout
    ensures var b := BuildFor(t, p, w, bytes);
      && SoleFile(ar.items(b.descriptor.digest)) && b.items == ar.items(b.descriptor.digest) && b.items[0].path == p
      && b.descriptor.actor == ActorOf(w) && b.items[0].payload.mode == ModeOf(w) % 4096
      && (if b.items[0].payload.mtimeMs != 0 then b.items[0].payload.mtimeMs else b.descriptor.mtimeMs) == Rebuilt(ClockOf(w))
      && var e := b.items[0].payload; Sub(ar.tar(b.descriptor.digest), e.offset, e.offset + e.size) == bytes
  {
    hide SoleFile, WhiteoutTarget, Sub;
  }

  lemma CarriedRegister(t: Tools, ar: Archive, s: Store, d: Draft, m: Manifest, i: nat, p: Path, w: Winner, e: Item<Entry>)
    requires Grown(s, d.store) && Archived(ar, s) && Archived(ar, d.store) && Builds(t, ar) && Ready(s, p, w)
    requires i < |d.layers| == |d.diffIds| && Carries(t, d, i, p, w) && m.layers == d.layers && m.diffIds == d.diffIds
    requires forall l :: l in m.layers ==> l.digest in d.store.layers
    requires e in LayersOf(d.store, m)[i] && IsFile(e)
    ensures Shows(d.store, w, RegisterOf(m, LayersOf(d.store, m), Placed(i, e)))
  {
    CarriedLayer(t, ar, s, d, i, p, w);
    var layers := LayersOf(d.store, m);
    assert m.layers[i] in m.layers;
    assert layers[i] == d.store.layers[d.layers[i].digest];
    var j :| 0 <= j < |layers[i]| && layers[i][j] == e;
    OneFilePath(layers[i], p, j);
    if Reusable(w) {
      var f := Item(p, false, w.reg.entry);
      assert f in layers[i] && IsFile(f);
      var k :| 0 <= k < |layers[i]| && layers[i][k] == f;
      CountOne(layers[i], k, j);
    } else {
      var bytes := ContentOf(d.store, w).value;
      BuiltFaithfully(t, ar, p, w, bytes);
      assert |layers[i]| == 1;
    }
    hide WhiteoutTarget, FaithfulBuild, BuildFor, IsFile, FileCount, Builds, Sub, LayersOf;
  }

  lemma DraftStack(t: Tools, ar: Archive, s: Store, winners: map<Path, Winner>, q: seq<Path>, d: Draft, m: Manifest)
    requires Archived(ar, s) && Builds(t, ar) && (forall p :: p in q ==> p in winners && Ready(s, p, winners[p]))
    requires Drafted(t, ar, s, winners, q, d) && m.layers == d.layers
    ensures forall l :: l in m.layers ==> l.digest in d.store.layers
    ensures Stacked(LayersOf(d.store, m), q)
  {
    hide Archived, Builds, Ready, Carries, OneFile, Grown;
    forall l | l in m.layers ensures l.digest in d.store.layers {
      var i :| 0 <= i < |m.layers| && m.layers[i] == l;
    }
    var layers := LayersOf(d.store, m);
    forall i | 0 <= i < |q| ensures OneFile(layers[i], q[i]) {
      assert q[i] in q;
      CarriedLayer(t, ar, s, d, i, q[i], winners[q[i]]);
      assert layers[i] == d.store.layers[m.layers[i].digest];
    }
  }

  // --- the layers a join will stack, known beforehand ----------------------------------------------------------

  /** A reused winner brings its layer as it is in the store, any other brings its file alone. */
  function PlanOf(s: Store, p: Path, w: Winner): seq<Item<()>> {
    if Reusable(w) && w.reg.descriptor.digest in s.layers then Outlines(s.layers[w.reg.descriptor.digest]) else [Item(p, false, ())]
  }

  function Plan(s: Store, winners: map<Path, Winner>, q: seq<Path>): seq<seq<Item<()>>>
    requires forall p :: p in q ==> p in winners
  {
    seq(|q|, i requires 0 <= i < |q| => assert q[i] in q; PlanOf(s, q[i], winners[q[i]]))
  }

  /** No item of the winners' layers, in path order, touches a file placed before it. */
  ghost predicate LeavesAlone(s: Store, winners: map<Path, Winner>) {
    && (forall p :: p in winners ==> NoSlash(p))
    && var q := InOrder(winners.Keys);
      (forall p :: p in q ==> p in winners) && Undisturbed(Flattened(Plan(s, winners, q)))
  }

  lemma LeavesAloneIs(s: Store, winners: map<Path, Winner>, q: seq<Path>)
    requires (forall p :: p in winners ==> NoSlash(p)) && q == InOrder(winners.Keys) && forall p :: p in q ==> p in winners
    ensures LeavesAlone(s, winners) <==> Undisturbed(Flattened(Plan(s, winners, q)))
  {
    hide Undisturbed, Flattened, Plan, InOrder, NoSlash;
  }

  lemma CarriedPlan(t: Tools, ar: Archive, s: Store, d: Draft, i: nat, p: Path, w: Winner)
    requires Grown(s, d.store) && Archived(ar, s) && Archived(ar, d.store) && Builds(t, ar) && Ready(s, p, w)
    requires i < |d.layers| == |d.diffIds| && Carries(t, d, i, p, w) && d.layers[i].digest in d.store.layers
    ensures Outlines(d.store.layers[d.layers[i].digest]) == PlanOf(s, p, w)
  {
    if Reusable(w) {
      assert d.store.layers[d.layers[i].digest] == s.layers[w.reg.descriptor.digest];
    } else {
      var bytes := ContentOf(d.store, w).value;
      BuiltFaithfully(t, ar, p, w, bytes);
      SoleOutline(d.store.layers[d.layers[i].digest]);
    }
    hide WhiteoutTarget, FaithfulBuild, BuildFor, ContentOf, FileCount, Outlines;
  }

  lemma SoleOutline(es: seq<Item<Entry>>)
    requires SoleFile(es)
    ensures Outlines(es) == [Item(es[0].path, false, ())]
  {
    hide WhiteoutTarget;
  }

  /** The published layers are the planned ones. */
  lemma DraftPlan(t: Tools, ar: Archive, s: Store, winners: map<Path, Winner>, q: seq<Path>, d: Draft, m: Manifest)
    requires Archived(ar, s) && Builds(t, ar) && (forall p :: p in q ==> p in winners && Ready(s, p, winners[p]))
    requires Drafted(t, ar, s, winners, q, d) && m.layers == d.layers && forall l :: l in m.layers ==> l.digest in d.store.layers
    ensures AllOutlines(LayersOf(d.store, m)) == Plan(s, winners, q)
  {
    hide Archived, Builds, Ready, Carries, Outlines, Grown, PlanOf;
    var layers := LayersOf(d.store, m);
    forall i | 0 <= i < |q| ensures Outlines(layers[i]) == PlanOf(s, q[i], winners[q[i]]) {
      assert q[i] in q && m.layers[i] in m.layers;
      CarriedPlan(t, ar, s, d, i, q[i], winners[q[i]]);
      assert layers[i] == d.store.layers[m.layers[i].digest];
    }
  }

  lemma PlannedAlike(layers: seq<seq<Item<Entry>>>, planned: seq<seq<Item<()>>>)
    requires AllOutlines(layers) == planned
    ensures Undisturbed(Flattened(layers)) <==> Undisturbed(Flattened(planned))
  {
    FlattenedSketch(layers);
    UndisturbedSketch(Flattened(layers));
    hide Undisturbed, Flattened, AllOutlines, Sketch;
  }

  /** Nothing in the layers of the head, read in order, touches a file that is placed before it. */
  ghost predicate HeadUndisturbed(s: Store, head: Digest) {
    Loadable(s, head) && Undisturbed(Flattened(LayersOf(s, s.manifests[head])))
  }

  /** The head's files are exactly the winners, each with its register or its content. */
  ghost predicate ShowsWinners(s: Store, head: Digest, winners: map<Path, Winner>) {
    && Loadable(s, head)
    && (forall p :: p in ViewOf(s, head).files <==> p in winners)
    && (forall p :: p in winners ==> Shows(s, winners[p], ViewOf(s, head).files[p]))
  }

  /** The head published for a draft shows exactly the winners if and only if no file of it is disturbed. */
  lemma HeadShows(t: Tools, ar: Archive, s: Store, winners: map<Path, Winner>, q: seq<Path>, d: Draft, s': Store, head: Digest)
    requires Archived(ar, s) && Builds(t, ar) && (forall p :: p in q ==> p in winners && Ready(s, p, winners[p]))
    requires Drafted(t, ar, s, winners, q, d) && Distinct(q) && forall p :: p in winners ==> p in q
    requires s'.layers == d.store.layers && s'.tars == d.store.tars && head in s'.manifests
    requires s'.manifests[head].layers == d.layers && s'.manifests[head].diffIds == d.diffIds
    ensures Loadable(s', head)
    ensures ShowsWinners(s', head, winners) <==> HeadUndisturbed(s', head)
    ensures HeadUndisturbed(s', head) <==> Undisturbed(Flattened(Plan(s, winners, q)))
    ensures forall p :: p in ViewOf(s', head).files ==> p in winners && Shows(s', winners[p], ViewOf(s', head).files[p])
  {
    var m := s'.manifests[head];
    DraftStack(t, ar, s, winners, q, d, m);
    var layers := LayersOf(d.store, m);
    assert LayersOf(s', m) == layers;
    DraftPlan(t, ar, s, winners, q, d, m);
    PlannedAlike(layers, Plan(s, winners, q));
    StackShows(layers, q);
    var merged := MergeLayers(layers);
    hide *;
    ViewIs(s', head, layers, merged);
    forall p | ShowsFile(merged, p) ensures p in winners && Shows(s', winners[p], RegisterOf(m, layers, merged[p])) {
      HeadRegister(t, ar, s, winners, q, d, s', m, p);
    }
    WinnersShown(s', head, winners, q, layers, merged);
  }

  /** The files of a view are the file entries of the merged layers. */
  lemma ViewIs(s: Store, head: Digest, layers: seq<seq<Item<Entry>>>, merged: Merged<Entry>)
    requires head in s.manifests && (forall l :: l in s.manifests[head].layers ==> l.digest in s.layers)
    requires layers == LayersOf(s, s.manifests[head]) && merged == MergeLayers(layers)
    ensures Loadable(s, head) && |layers| == |s.manifests[head].layers|
    ensures forall p :: p in ViewOf(s, head).files <==> ShowsFile(merged, p)
    ensures forall p :: ShowsFile(merged, p) ==> p in merged && merged[p].layer < |layers| && ViewOf(s, head).files[p] == RegisterOf(s.manifests[head], layers, merged[p])
    ensures HeadUndisturbed(s, head) <==> Undisturbed(Flattened(layers))
  {
    MergedRooted(layers);
    hide MergeLayers, RegisterOf, Stamps, Undisturbed, Flattened;
  }

  lemma HeadRegister(t: Tools, ar: Archive, s: Store, winners: map<Path, Winner>, q: seq<Path>, d: Draft, s': Store, m: Manifest, p: Path)
    requires Archived(ar, s) && Builds(t, ar) && (forall x :: x in q ==> x in winners && Ready(s, x, winners[x]))
    requires Drafted(t, ar, s, winners, q, d) && s'.tars == d.store.tars && m.layers == d.layers && m.diffIds == d.diffIds
    requires forall l :: l in m.layers ==> l.digest in d.store.layers
    requires var layers := LayersOf(d.store, m); var merged := MergeLayers(layers);
      p in merged && p in q && merged[p].layer < |q| == |layers| && p == q[merged[p].layer] && merged[p].item in layers[merged[p].layer] && IsFile(merged[p].item)
    ensures |m.layers| == |LayersOf(d.store, m)|
    ensures p in winners && Shows(s', winners[p], RegisterOf(m, LayersOf(d.store, m), MergeLayers(LayersOf(d.store, m))[p]))
  {
    var layers := LayersOf(d.store, m);
    var merged := MergeLayers(layers);
    hide *;
    DraftCarriesAt(t, ar, s, winners, q, d, merged[p].layer);
    CarriedRegister(t, ar, s, d, m, merged[p].layer, p, winners[p], merged[p].item);
    ShowsIn(d.store, s', winners[p], RegisterOf(m, layers, merged[p]));
  }

  lemma WinnersShown(s: Store, head: Digest, winners: map<Path, Winner>, q: seq<Path>, layers: seq<seq<Item<Entry>>>, merged: Merged<Entry>)
    requires Loadable(s, head) && |layers| == |s.manifests[head].layers| && (forall p :: p in winners <==> p in q)
    requires forall p :: p in ViewOf(s, head).files <==> ShowsFile(merged, p)
    requires forall p :: ShowsFile(merged, p) ==> p in merged && merged[p].layer < |layers| && ViewOf(s, head).files[p] == RegisterOf(s.manifests[head], layers, merged[p])
    requires forall p :: ShowsFile(merged, p) ==> p in winners && Shows(s, winners[p], RegisterOf(s.manifests[head], layers, merged[p]))
    ensures ShowsWinners(s, head, winners) <==> forall p :: p in q ==> ShowsFile(merged, p)
    ensures forall p :: p in ViewOf(s, head).files ==> p in winners && Shows(s, winners[p], ViewOf(s, head).files[p])
  {
    hide Loadable, ViewOf, Shows, RegisterOf, ShowsFile;
  }

  lemma DraftCarriesAt(t: Tools, ar: Archive, s: Store, winners: map<Path, Winner>, q: seq<Path>, d: Draft, i: nat)
    requires (forall p :: p in q ==> p in winners) && Drafted(t, ar, s, winners, q, d) && i < |q|
    ensures Grown(s, d.store) && Archived(ar, d.store) && i < |d.layers| == |d.diffIds| && Carries(t, d, i, q[i], winners[q[i]])
  {
  }

  lemma ShowsIn(s: Store, s': Store, w: Winner, r: Register)
    requires s.tars == s'.tars && Shows(s, w, r)
    ensures Shows(s', w, r)
  {
  }

  /** Joining two views publishes a head whose files are exactly the winners if and only if the winners' layers leave each other's files alone. */
  lemma ViewsJoined(t: Tools, ar: Archive, s: Store, headA: Digest, headB: Digest, v: Sides)
    requires Sortable(v) && Archived(ar, s) && Builds(t, ar) && Hashed(t, s) && Injective(t)
    requires forall p :: p in Winners(t, s, v) ==> Ready(s, p, Winners(t, s, v)[p])
    requires Join(t, s, headA, headB, v).Joined?
    ensures var o := Join(t, s, headA, headB, v);
      && Loadable(o.store, o.digest) && Hashed(t, o.store)
      && (ShowsWinners(o.store, o.digest, Winners(t, s, v)) <==> LeavesAlone(s, Winners(t, s, v)))
      && (HeadUndisturbed(o.store, o.digest) <==> LeavesAlone(s, Winners(t, s, v)))
      && (forall p :: p in ViewOf(o.store, o.digest).files ==>
            p in Winners(t, s, v) && Shows(o.store, Winners(t, s, v)[p], ViewOf(o.store, o.digest).files[p]))
  {
    hide *;
    var winners := Winners(t, s, v);
    WinnersSort(t, s, v);
    var q := InOrder(winners.Keys);
    var o := Join(t, s, headA, headB, v);
    ListsMembers(q, winners.Keys);
    ListsDistinct(q, winners.Keys);
    JoinIs(t, s, headA, headB, v);
    DraftCarries(t, ar, s, winners, q);
    var d := AddWinners(t, s, winners, q).value;
    DraftGrown(t, ar, s, winners, q, d);
    HeadShows(t, ar, s, winners, q, d, o.store, o.digest);
    LeavesAloneIs(s, winners, q);
  }

  /**
   * The head published by a merge shows exactly the winners if and only if no item of the layers it will name,
   * the reusable ones as they are in the store, touches a file placed before it.
   */
  lemma JoinShows(t: Tools, ar: Archive, s: Store, headA: Digest, headB: Digest, base: Option<Digest>)
    requires Componentwise(s) && Archived(ar, s) && Builds(t, ar) && Hashed(t, s) && Injective(t)
    requires JoinFrom(t, s, headA, headB, base).Joined?
    ensures Loadable(s, headA) && Loadable(s, headB) && (base.Some? ==> Loadable(s, base.value))
    ensures var o, winners := JoinFrom(t, s, headA, headB, base), Winners(t, s, SidesOf(s, headA, headB, base));
      && Loadable(o.store, o.digest)
      && (ShowsWinners(o.store, o.digest, winners) <==> LeavesAlone(s, winners))
      && (forall p :: p in ViewOf(o.store, o.digest).files ==> p in winners && Shows(o.store, winners[p], ViewOf(o.store, o.digest).files[p]))
  {
    JoinedFrom(t, s, headA, headB, base);
    hide *;
    WinnersNative(t, s, headA, headB, base);
    ViewsJoined(t, ar, s, headA, headB, SidesOf(s, headA, headB, base));
  }

  lemma JoinedFrom(t: Tools, s: Store, headA: Digest, headB: Digest, base: Option<Digest>)
    requires Componentwise(s) && JoinFrom(t, s, headA, headB, base).Joined?
    ensures Loadable(s, headA) && Loadable(s, headB) && (base.Some? ==> Loadable(s, base.value)) && Sortable(SidesOf(s, headA, headB, base))
    ensures JoinFrom(t, s, headA, headB, base) == Join(t, s, headA, headB, SidesOf(s, headA, headB, base))
  {
    ViewNoSlash(s, headA);
    ViewNoSlash(s, headB);
    hide Join, ViewOf, NoSlash, Loadable, Componentwise;
  }

  /** Layers that hold their file alone never disturb each other. */
  lemma SinglesUndisturbed(layers: seq<seq<Item<Entry>>>, q: seq<Path>)
    requires Stack(layers, q) && Distinct(q)
    ensures Stacked(layers, q) && Undisturbed(Flattened(layers))
  {
    hide IsFile, OneFile;
    forall i | 0 <= i < |q| ensures OneFile(layers[i], q[i]) { SoleIsOne(layers[i]); }
    StackIsFlat(layers, q);
    StackShows(layers, q);
    hide MergeLayers, Undisturbed, Flattened;
    forall p | p in q ensures ShowsFile(MergeLayers(layers), p) {
      var i :| 0 <= i < |q| && q[i] == p;
      SoleIsFile(layers[i]);
    }
  }

  lemma SoleIsFile(es: seq<Item<Entry>>)
    requires SoleFile(es)
    ensures !es[0].dir
  {
  }

  lemma ListsDistinct(q: seq<Path>, s: set<Path>)
    requires Lists(q, s)
    ensures Distinct(q)
  {
  }

  lemma WinnersSort(t: Tools, s: Store, v: Sides)
    requires Sortable(v)
    ensures forall p :: p in Winners(t, s, v) ==> p in v.Paths() && NoSlash(p)
  {
    hide NoSlash, Decide;
  }

  lemma DraftGrown(t: Tools, ar: Archive, s: Store, winners: map<Path, Winner>, q: seq<Path>, d: Draft)
    requires (forall p :: p in q ==> p in winners) && Drafted(t, ar, s, winners, q, d)
    ensures d.store.manifests == s.manifests
  {
  }

  /** A successful join stores one manifest over the draft's layers. */
  lemma JoinIs(t: Tools, s: Store, headA: Digest, headB: Digest, v: Sides)
    requires Sortable(v) && Join(t, s, headA, headB, v).Joined?
    requires forall p :: p in Winners(t, s, v) ==> NoSlash(p)
    requires forall p :: p in InOrder(Winners(t, s, v).Keys) <==> p in Winners(t, s, v)
    ensures var o := Join(t, s, headA, headB, v); var d := AddWinners(t, s, Winners(t, s, v), InOrder(Winners(t, s, v).Keys));
      && d.Some?
      && (Hashed(t, s) && Injective(t) && d.value.store.manifests == s.manifests ==>
          && Hashed(t, o.store) && o.store.layers == d.value.store.layers && o.store.tars == d.value.store.tars
          && s.manifests.Keys <= o.store.manifests.Keys && o.digest in o.store.manifests
          && (forall x :: x in o.store.manifests && x != o.digest ==> x in s.manifests)
          && (forall x :: x in s.manifests ==> o.store.manifests[x] == s.manifests[x])
          && o.store.manifests[o.digest] == Manifest(d.value.layers, d.value.diffIds, SortTwo(headA, headB), MERGE_ACTOR))
  {
    hide InOrder, Winners, AddWinners, LwwPaths, ContentPaths, Decide, NoSlash, Sides.Paths, SortTwo, MERGE_ACTOR;
  }

  // --- a reused layer that disturbs another file -----------------------------------------------------------

  const KEPT: Path := [[97]]
  const SOLE: Path := [[122]]

  /** The count of files overlooks a whiteout, and reusing the layer deletes another winner. */
  lemma WhiteoutRidesAlong(t: Tools, s: Store, a: Register, z: Register, head: Digest)
    requires a.sole && z.sole && a.entry.plain && z.entry.plain && a.diffId != [] && z.diffId != []
    requires a.descriptor.digest in s.layers && z.descriptor.digest in s.layers && head in s.manifests
    requires s.layers[a.descriptor.digest] == [Item(KEPT, false, a.entry)]
    requires s.layers[z.descriptor.digest] == [Item(SOLE, false, z.entry), Item(WhiteoutPathFor(KEPT), false, z.entry)]
    requires s.manifests[head].layers == [a.descriptor, z.descriptor]
    ensures FileCount(s.layers[z.descriptor.digest]) == 1
    ensures var d := AddWinners(t, s, map[KEPT := Keep(a), SOLE := Keep(z)], [KEPT, SOLE]);
      d.Some? && d.value.layers == s.manifests[head].layers
    ensures Loadable(s, head) && KEPT !in ViewOf(s, head).files && SOLE in ViewOf(s, head).files
  {
    var kept, sole := Item(KEPT, false, a.entry), Item(SOLE, false, z.entry);
    var marker := Item(WhiteoutPathFor(KEPT), false, z.entry);
    RideTargets();
    hide WhiteoutTarget, WhiteoutPathFor;
    var winners := map[KEPT := Keep(a), SOLE := Keep(z)];
    assert [KEPT, SOLE][..1] == [KEPT] && [KEPT][..0] == [];
    assert AddWinners(t, s, winners, [KEPT]) == Some(Draft(s, [] + [a.descriptor], [] + [a.diffId]));
    assert [kept][..0] == [] && [sole, marker][..1] == [sole] && [sole][..0] == [];
    var none: Merged<Entry> := map[];
    var one := Apply(none, 0, kept);
    assert ApplyLayer(none, 0, [kept]) == one == map[KEPT := Placed(0, kept)];
    var two := ApplyLayer(one, 1, [sole, marker]);
    assert ApplyLayer(one, 1, [sole]) == Apply(one, 1, sole) == map[KEPT := Placed(0, kept), SOLE := Placed(1, sole)];
    assert two == Apply(ApplyLayer(one, 1, [sole]), 1, marker) == map[SOLE := Placed(1, sole)];
    var layers := LayersOf(s, s.manifests[head]);
    assert layers == [[kept], [sole, marker]] && layers[..1] == [[kept]] && layers[..1][..0] == [];
    assert MergeLayers(layers[..1]) == one;
    assert MergeLayers(layers) == two;
    assert FileCount([sole]) == 1 && !IsFile(marker);
  }

  lemma RideTargets()
    ensures WhiteoutTarget(KEPT) == WhiteoutTarget(SOLE) == NoWhiteout && WhiteoutTarget(WhiteoutPathFor(KEPT)) == Delete(KEPT)
    ensures KEPT != SOLE && !Above(KEPT, SOLE)
  {
    assert |Base(KEPT)| == 1 && |Base(SOLE)| == 1 && |OPAQUE_TAIL| == 8;
    WhiteoutRoundTrip(KEPT);
  }

  // --- layers beside their diff ids ----------------------------------------------------------------------------

  /** A head names the layer, with this diff id beside it. */
  ghost predicate Paired(m: Manifest, l: Descriptor, diffId: Bytes) {
    exists i :: 0 <= i < |m.layers| && m.layers[i] == l && diffId == if i < |m.diffIds| then m.diffIds[i] else []
  }

  /** Both come from one build of a per-file layer. */
  ghost predicate BuiltTogether(t: Tools, l: Descriptor, diffId: Bytes) {
    exists p, w, bytes :: l == BuildFor(t, p, w, bytes).descriptor && diffId == BuildFor(t, p, w, bytes).diffId
  }

  lemma ViewPaired(s: Store, d: Digest)
    requires Loadable(s, d)
    ensures forall p :: p in ViewOf(s, d).files ==> Paired(s.manifests[d], ViewOf(s, d).files[p].descriptor, ViewOf(s, d).files[p].diffId)
  {
    var m := s.manifests[d];
    var layers := LayersOf(s, m);
    MergedRooted(layers);
    var merged := MergeLayers(layers);
    hide MergeLayers, WhiteoutTarget, FileCount, Stamps;
    forall p | p in ViewOf(s, d).files ensures Paired(m, ViewOf(s, d).files[p].descriptor, ViewOf(s, d).files[p].diffId) {
      assert m.layers[merged[p].layer] == ViewOf(s, d).files[p].descriptor;
    }
  }

  lemma WinnersPaired(t: Tools, s: Store, a: Digest, b: Digest, base: Option<Digest>, p: Path)
    requires Loadable(s, a) && Loadable(s, b) && (base.Some? ==> Loadable(s, base.value))
    requires var winners := Winners(t, s, SidesOf(s, a, b, base)); p in winners && winners[p].Keep?
    ensures var r := Winners(t, s, SidesOf(s, a, b, base))[p].reg;
      Paired(s.manifests[a], r.descriptor, r.diffId) || Paired(s.manifests[b], r.descriptor, r.diffId)
  {
    var v := SidesOf(s, a, b, base);
    ViewPaired(s, a);
    ViewPaired(s, b);
    assert v.a == ViewOf(s, a) && v.b == ViewOf(s, b);
    hide *;
    WinnerOf(t, s, v, p);
    KeptIsGiven(t, s, v, p);
  }

  lemma CarriedPair(t: Tools, d: Draft, i: nat, p: Path, w: Winner)
    requires i < |d.layers| == |d.diffIds| && Carries(t, d, i, p, w)
    ensures (w.Keep? && d.layers[i] == w.reg.descriptor && d.diffIds[i] == w.reg.diffId) || BuiltTogether(t, d.layers[i], d.diffIds[i])
  {
    hide ContentOf, BuildFor;
  }

  /** Each layer of a merged head stands beside its own diff id: the pair is one of a head's, or of one build. */
  lemma JoinPairs(t: Tools, ar: Archive, s: Store, a: Digest, b: Digest, base: Option<Digest>, i: nat)
    requires Componentwise(s) && Archived(ar, s) && Builds(t, ar) && Hashed(t, s) && Injective(t)
    requires JoinFrom(t, s, a, b, base).Joined?
    requires var o := JoinFrom(t, s, a, b, base); o.digest in o.store.manifests ==> i < |o.store.manifests[o.digest].layers|
    ensures a in s.manifests && b in s.manifests
    ensures var o := JoinFrom(t, s, a, b, base); o.digest in o.store.manifests && var m := o.store.manifests[o.digest];
      && i < |m.layers| == |m.diffIds|
      && (Paired(s.manifests[a], m.layers[i], m.diffIds[i]) || Paired(s.manifests[b], m.layers[i], m.diffIds[i])
          || BuiltTogether(t, m.layers[i], m.diffIds[i]))
  {
    JoinedFrom(t, s, a, b, base);
    LoadableHeads(s, a, b);
    hide *;
    var v := SidesOf(s, a, b, base);
    var winners := Winners(t, s, v);
    WinnersSort(t, s, v);
    WinnersNative(t, s, a, b, base);
    var q := InOrder(winners.Keys);
    ListsMembers(q, winners.Keys);
    JoinIs(t, s, a, b, v);
    DraftCarries(t, ar, s, winners, q);
    var d := AddWinners(t, s, winners, q).value;
    DraftGrown(t, ar, s, winners, q, d);
    DraftSize(t, ar, s, winners, q, d);
    assert q[i] in q;
    DraftCarriesAt(t, ar, s, winners, q, d, i);
    CarriedPair(t, d, i, q[i], winners[q[i]]);
    if winners[q[i]].Keep? { WinnersPaired(t, s, a, b, base, q[i]); }
  }

  lemma LoadableHeads(s: Store, a: Digest, b: Digest)
    requires Loadable(s, a) && Loadable(s, b)
    ensures a in s.manifests && b in s.manifests
  {
  }

  lemma DraftSize(t: Tools, ar: Archive, s: Store, winners: map<Path, Winner>, q: seq<Path>, d: Draft)
    requires (forall p :: p in q ==> p in winners) && Drafted(t, ar, s, winners, q, d)
    ensures |d.layers| == |d.diffIds| == |q|
  {
  }
}
