/** Turning an overlay's upper files and deletions into a new head over the basis layers. */
module Overlay {
  import opened Bytes
  import opened Paths
  import opened View
  import opened Order

  type Digest = Bytes

  /** A tar entry's content; tar clocks are whole seconds. */
  datatype File = File(content: Bytes, mode: nat, seconds: nat)

  /** The path annotation: none, the whiteout marker ".wh", or a pod path. */
  datatype Mark = Unmarked | Whiteouts | For(path: Path)

  /** A layer with its annotations; blobs are content-addressed, so equal digests are equal `items`. */
  datatype Layer = Layer(items: seq<Item<File>>, overlay: Option<Bytes>, mark: Mark, mtimeMs: nat, actor: Bytes)

  /** A layer of a manifest beside its diff id in the config, if the config has one. */
  datatype Slot = Slot(layer: Layer, diffId: Option<Bytes>)

  /** `overlayConfig`: the config blob is one this push writes, not another publisher's. */
  datatype Manifest = Manifest(layers: seq<Layer>, diffIds: seq<Option<Bytes>>, overlayConfig: bool, actor: Bytes, parents: seq<Digest>)

  datatype UpperFile = UpperFile(content: Bytes, mode: nat, mtimeMs: nat)

  datatype Edit = Edit(upper: map<Path, UpperFile>, deletions: map<Path, nat>, actor: Bytes, permanent: bool)

  datatype Tools = Tools(diffId: seq<Item<File>> -> Bytes, hash: Manifest -> Digest)

  datatype Outcome = NoHead | Pushed(changed: bool, digest: Digest, overlayLayers: nat)

  // --- which layers stay ---------------------------------------------------------------------------

  function Slots(m: Manifest): seq<Slot> {
    seq(|m.layers|, i requires 0 <= i < |m.layers| => Slot(m.layers[i], if i < |m.diffIds| then m.diffIds[i] else None))
  }

  function LayersIn(s: seq<Slot>): seq<Layer> {
    seq(|s|, i requires 0 <= i < |s| => s[i].layer)
  }

  function DiffIdsIn(s: seq<Slot>): seq<Option<Bytes>> {
    seq(|s|, i requires 0 <= i < |s| => s[i].diffId)
  }

  predicate Superseded(e: Edit, p: Path) {
    p in e.upper || p in e.deletions
  }

  /** A layer of this actor's earlier overlay pushes. */
  predicate Own(e: Edit, l: Layer) {
    l.overlay == Some(e.actor)
  }

  predicate Dropped(e: Edit, l: Layer) {
    Own(e, l) && match l.mark
    case Unmarked => false
    case Whiteouts => |e.deletions| > 0
    case For(p) => Superseded(e, p)
  }

  function Kept(e: Edit, s: seq<Slot>): seq<Slot> {
    if s == [] then []
    else Kept(e, s[..|s| - 1]) + if Dropped(e, s[|s| - 1].layer) then [] else [s[|s| - 1]]
  }

  // --- what is appended ----------------------------------------------------------------------------

  /** The overlay annotation names the actor; an empty name leaves it out, as a permanent push does. */
  function Annotation(e: Edit): Option<Bytes> {
    if Unannotated(e) then None else Some(e.actor)
  }

  predicate Unannotated(e: Edit) {
    e.permanent || e.actor == []
  }

  function FileLayer(e: Edit, p: Path, f: UpperFile): Layer {
    Layer([Item(p, false, File(f.content, f.mode % 4096, f.mtimeMs / 1000))], Annotation(e), For(p), f.mtimeMs, e.actor)
  }

  const MARKER_MODE := 420

  function Marker(p: Path, stamp: nat): Item<File> {
    Item(WhiteoutPathFor(p), false, File([], MARKER_MODE, stamp / 1000))
  }

  function MarkerItems(e: Edit, q: seq<Path>): seq<Item<File>>
    requires forall p :: p in q ==> p in e.deletions
  {
    if q == [] then [] else MarkerItems(e, q[..|q| - 1]) + [Marker(q[|q| - 1], e.deletions[q[|q| - 1]])]
  }

  function LatestStamp(e: Edit, q: seq<Path>): nat
    requires forall p :: p in q ==> p in e.deletions
  {
    if q == [] then 0
    else
      var before, s := LatestStamp(e, q[..|q| - 1]), e.deletions[q[|q| - 1]];
      if before < s then s else before
  }

  function MarkerLayer(e: Edit, q: seq<Path>): Layer
    requires forall p :: p in q ==> p in e.deletions
  {
    Layer(MarkerItems(e, q), Annotation(e), Whiteouts, LatestStamp(e, q), e.actor)
  }

  function Built(t: Tools, l: Layer): Slot {
    Slot(l, Some(t.diffId(l.items)))
  }

  function FileSlots(t: Tools, e: Edit, q: seq<Path>): seq<Slot>
    requires forall p :: p in q ==> p in e.upper
  {
    if q == [] then [] else FileSlots(t, e, q[..|q| - 1]) + [Built(t, FileLayer(e, q[|q| - 1], e.upper[q[|q| - 1]]))]
  }

  ghost predicate Sortable(e: Edit) {
    (forall p :: p in e.upper ==> NoSlash(p)) && forall p :: p in e.deletions ==> NoSlash(p)
  }

  /** One layer per upper file in path order, then one layer of whiteouts. */
  ghost function Appended(t: Tools, e: Edit): seq<Slot>
    requires Sortable(e)
  {
    FileSlots(t, e, InOrder(e.upper.Keys)) + if e.deletions == map[] then [] else [Built(t, MarkerLayer(e, InOrder(e.deletions.Keys)))]
  }

  predicate SameBlobs(a: seq<Layer>, b: seq<Layer>) {
    |a| == |b| && forall i :: 0 <= i < |a| ==> a[i].items == b[i].items
  }

  /** Same layer blobs and same config. */
  predicate SameHead(m: Manifest, s: seq<Slot>) {
    SameBlobs(m.layers, LayersIn(s)) && m.overlayConfig && m.diffIds == DiffIdsIn(s)
  }

  datatype State = State(manifests: map<Digest, Manifest>, refs: map<Bytes, Digest>)

  ghost function NewSlots(t: Tools, m: Manifest, e: Edit): seq<Slot>
    requires Sortable(e)
  {
    Kept(e, Slots(m)) + Appended(t, e)
  }

  ghost function NewHead(t: Tools, d: Digest, m: Manifest, e: Edit): Manifest
    requires Sortable(e)
  {
    Manifest(LayersIn(NewSlots(t, m, e)), DiffIdsIn(NewSlots(t, m, e)), true, e.actor, [d])
  }

  /** What one push of `e` to `ref` does. */
  ghost function Push(t: Tools, s: State, ref: Bytes, e: Edit): (State, Outcome)
    requires Sortable(e)
  {
    if ref !in s.refs || s.refs[ref] !in s.manifests then (s, NoHead)
    else
      var d := s.refs[ref];
      var m := s.manifests[d];
      if e.upper == map[] && e.deletions == map[] then (s, Pushed(false, d, 0))
      else if SameHead(m, NewSlots(t, m, e)) then (s, Pushed(false, d, |Appended(t, e)|))
      else
        var head := NewHead(t, d, m, e);
        var digest := t.hash(head);
        (State(if digest in s.manifests then s.manifests else s.manifests[digest := head], s.refs[ref := digest]), Pushed(true, digest, |Appended(t, e)|))
  }

  class Pod {
    var manifests: map<Digest, Manifest>
    var refs: map<Bytes, Digest>

    function Current(): State
      reads this
    {
      State(manifests, refs)
    }

    method BuildOverlayHead(t: Tools, ref: Bytes, e: Edit) returns (o: Outcome)
      requires Sortable(e)
      modifies this
      ensures (Current(), o) == Push(t, old(Current()), ref, e)
    {
      hide InOrder, Kept, FileSlots, MarkerItems, LatestStamp, SameHead, NoSlash;
      if ref !in refs || refs[ref] !in manifests { return NoHead; }
      var head := refs[ref];
      var m := manifests[head];
      var upperFiles := SortPaths(e.upper.Keys);
      if |upperFiles| == 0 && |e.deletions| == 0 {
        NothingToPush(e, upperFiles);
        return Pushed(false, head, 0);
      }
      SomethingToPush(e, upperFiles);
      var deleted := SortPaths(e.deletions.Keys);
      var slots := KeepLayers(e, Slots(m));
      var appended, overlayLayers := AppendLayers(t, e, upperFiles, deleted);
      slots := slots + appended;
      assert slots == NewSlots(t, m, e);
      if SameHead(m, slots) { return Pushed(false, head, overlayLayers); }
      var manifest := Manifest(LayersIn(slots), DiffIdsIn(slots), true, e.actor, [head]);
      var digest := t.hash(manifest);
      if digest !in manifests { manifests := manifests[digest := manifest]; }
      refs := refs[ref := digest];
      o := Pushed(true, digest, overlayLayers);
    }
  }

  lemma NothingToPush(e: Edit, q: seq<Path>)
    requires Lists(q, e.upper.Keys) && |q| == 0 && |e.deletions| == 0
    ensures e.upper == map[] && e.deletions == map[]
  {
    assert forall p :: p in e.upper ==> p in q;
  }

  lemma SomethingToPush(e: Edit, q: seq<Path>)
    requires Lists(q, e.upper.Keys) && (|q| != 0 || |e.deletions| != 0)
    ensures e.upper != map[] || e.deletions != map[]
  {
    if q != [] { assert q[0] in e.upper; }
  }

  method KeepLayers(e: Edit, s: seq<Slot>) returns (kept: seq<Slot>)
    ensures kept == Kept(e, s)
  {
    hide Dropped;
    kept := [];
    for i := 0 to |s|
      invariant kept == Kept(e, s[..i])
    {
      assert s[..i + 1][..i] == s[..i];
      if !Dropped(e, s[i].layer) { kept := kept + [s[i]]; }
    }
    assert s[..|s|] == s;
  }

  /** The markers of the deletions, and the latest of their clocks. */
  method ListMarkers(e: Edit, deleted: seq<Path>) returns (entries: seq<Item<File>>, stamp: nat)
    requires forall p :: p in deleted ==> p in e.deletions
    ensures entries == MarkerItems(e, deleted) && stamp == LatestStamp(e, deleted)
  {
    hide Marker;
    entries, stamp := [], 0;
    for i := 0 to |deleted|
      invariant entries == MarkerItems(e, deleted[..i]) && stamp == LatestStamp(e, deleted[..i])
    {
      assert deleted[..i + 1][..i] == deleted[..i] && deleted[i] in deleted;
      entries := entries + [Marker(deleted[i], e.deletions[deleted[i]])];
      stamp := if stamp < e.deletions[deleted[i]] then e.deletions[deleted[i]] else stamp;
    }
    assert deleted[..|deleted|] == deleted;
  }

  method AppendLayers(t: Tools, e: Edit, upperFiles: seq<Path>, deleted: seq<Path>) returns (slots: seq<Slot>, overlayLayers: nat)
    requires Sortable(e) && upperFiles == InOrder(e.upper.Keys) && deleted == InOrder(e.deletions.Keys)
    ensures slots == Appended(t, e) && overlayLayers == |slots|
  {
    hide InOrder, NoSlash, FileLayer, Marker, PathLess;
    slots, overlayLayers := [], 0;
    for i := 0 to |upperFiles|
      invariant slots == FileSlots(t, e, upperFiles[..i]) && overlayLayers == |slots| == i
    {
      assert upperFiles[..i + 1][..i] == upperFiles[..i] && upperFiles[i] in upperFiles;
      slots := slots + [Built(t, FileLayer(e, upperFiles[i], e.upper[upperFiles[i]]))];
      overlayLayers := overlayLayers + 1;
    }
    assert upperFiles[..|upperFiles|] == upperFiles;
    ListsEmpty(deleted, e.deletions.Keys);
    if |deleted| > 0 {
      var entries, stamp := ListMarkers(e, deleted);
      slots := slots + [Built(t, Layer(entries, Annotation(e), Whiteouts, stamp, e.actor))];
      overlayLayers := overlayLayers + 1;
    }
  }
}
