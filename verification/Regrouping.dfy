/** With deletions the grouping of merges matters: a merged head forgets the clocks of its deletions. */
module Regrouping {
  import opened Bytes
  import opened Paths
  import opened Workspace
  import opened View
  import opened Ancestry
  import opened Order
  import opened MergeHeads
  import opened MergedView
  import opened Convergence
  import opened CrissCross
  import opened Grouping

  // Stand-ins for content digests: a root behind three heads, one of which edits the file, one lacks it, one deletes it later.
  const ROOT: Digest := [1]
  const EDITS: Digest := [2]
  const LACKS: Digest := [3]
  const DELETES: Digest := [4]

  const OLD_LAYER: Descriptor := Descriptor([5], 1000, [97], [])
  const NEW_LAYER: Descriptor := Descriptor([6], 5000, [97], [])
  const MARK_LAYER: Descriptor := Descriptor([7], 7000, [98], [])

  const OLD_ITEM: Item<Entry> := Item(FILE, false, Entry(3, 512, 420, 1000, true))
  const NEW_ITEM: Item<Entry> := Item(FILE, false, Entry(4, 512, 420, 5000, true))
  const MARK: Item<Entry> := Item(WhiteoutPathFor(FILE), false, Entry(0, 512, 420, 7000, true))

  const OLD: Register := Register(OLD_ITEM.payload, OLD_LAYER, [9], true, 1000, [97])
  const NEW: Register := Register(NEW_ITEM.payload, NEW_LAYER, [10], true, 5000, [97])

  const LAYERS: Layers := map[OLD_LAYER.digest := [OLD_ITEM], NEW_LAYER.digest := [NEW_ITEM], MARK_LAYER.digest := [MARK]]

  function Heads(): Store {
    Store(
      map[ROOT := Manifest([OLD_LAYER], [[9]], [], [97]), EDITS := Manifest([NEW_LAYER], [[10]], [ROOT], [97]),
          LACKS := Manifest([], [], [ROOT], [98]), DELETES := Manifest([MARK_LAYER], [[11]], [ROOT], [98])],
      LAYERS,
      map[])
  }

  /** What a manifest of `layers` over these blobs shows. */
  function Visible(layers: seq<Descriptor>): HeadView {
    if layers == [OLD_LAYER] then HeadView(map[FILE := OLD], map[])
    else if layers == [NEW_LAYER] then HeadView(map[FILE := NEW], map[])
    else if layers == [MARK_LAYER] then HeadView(map[], map[FILE := 7000])
    else HeadView(map[], map[])
  }

  /** One of the four kinds of head that occur. */
  predicate Known(m: Manifest) {
    (m.layers == [OLD_LAYER] && m.diffIds == [[9]]) || (m.layers == [NEW_LAYER] && m.diffIds == [[10]])
    || (m.layers == [MARK_LAYER] && m.diffIds == [[11]]) || (m.layers == [] && m.diffIds == [])
  }

  lemma MarkTargets()
    ensures WhiteoutTarget(FILE) == NoWhiteout && WhiteoutTarget(MARK.path) == Delete(FILE) && NoSlash(FILE) && NoSlash(MARK.path)
  {
    PlainFile();
    assert |Base(FILE)| == 1 && |OPAQUE_TAIL| == 8;
    WhiteoutRoundTrip(FILE);
    assert Base(FILE) == [102] && Parent(FILE) == [] && MARK.path == [] + [WHITEOUT_PREFIX + [102]];
    assert MARK.path[0] == WHITEOUT_PREFIX + [102] && SLASH !in WHITEOUT_PREFIX;
    hide WhiteoutTarget, WhiteoutPathFor;
  }

  lemma LayerShows(item: Item<Entry>)
    requires item in {OLD_ITEM, NEW_ITEM, MARK}
    ensures MergeLayers([[item]]) == if item == MARK then map[] else map[FILE := Placed(0, item)]
    ensures Stamps([[item]]) == if item == MARK then map[FILE := 7000] else map[]
    ensures item != MARK ==> FileCount([item]) == 1
  {
    MarkTargets();
    assert OLD_ITEM != MARK && NEW_ITEM != MARK by { assert OLD_ITEM.payload.size == 3 && NEW_ITEM.payload.size == 4 && MARK.payload.size == 0; }
    hide WhiteoutTarget, WhiteoutPathFor, FILE;
    var none: Merged<Entry> := map[];
    var layers := [[item]];
    assert layers[..0] == [] && layers[0][..0] == [];
    assert ApplyLayer(none, 0, [item]) == Apply(none, 0, item);
    assert MergeLayers(layers) == ApplyLayer(none, 0, layers[0]);
    var w: map<Path, nat> := map[];
    assert [item][..0] == [] && StampLayer(w, [item][..0]) == w;
    assert Stamps(layers) == StampLayer(w, layers[0]);
    if item == MARK {
      assert StampLayer(w, [MARK]) == w[FILE := 7000];
      assert Removed(none, FILE) == none;
    }
  }

  lemma HeadShown(s: Store, d: Digest)
    requires s.layers == LAYERS && d in s.manifests && Known(s.manifests[d])
    ensures Loadable(s, d) && ViewOf(s, d) == Visible(s.manifests[d].layers)
  {
    var m := s.manifests[d];
    DigestsDiffer();
    var layers := LayersOf(s, m);
    if m.layers == [] {
      assert layers == [];
    } else {
      var item := if m.layers == [OLD_LAYER] then OLD_ITEM else if m.layers == [NEW_LAYER] then NEW_ITEM else MARK;
      assert layers == [[item]];
      LayerShows(item);
    }
    hide MergeLayers, Stamps, FILE, MARK;
  }

  lemma DigestsDiffer()
    ensures LAYERS[OLD_LAYER.digest] == [OLD_ITEM] && LAYERS[NEW_LAYER.digest] == [NEW_ITEM] && LAYERS[MARK_LAYER.digest] == [MARK]
    ensures OLD_LAYER != NEW_LAYER && OLD_LAYER != MARK_LAYER && NEW_LAYER != MARK_LAYER
    ensures OLD_ITEM != MARK && NEW_ITEM != MARK
  {
    assert OLD_ITEM.payload.size == 3 && NEW_ITEM.payload.size == 4 && MARK.payload.size == 0;
  }

  lemma HeadsAre()
    ensures Componentwise(Heads()) && Heads().layers == LAYERS
    ensures forall d :: d in Heads().manifests ==> Known(Heads().manifests[d])
    ensures ROOT in Heads().manifests && Heads().manifests[ROOT].layers == [OLD_LAYER]
    ensures EDITS in Heads().manifests && Heads().manifests[EDITS].layers == [NEW_LAYER]
    ensures LACKS in Heads().manifests && Heads().manifests[LACKS].layers == []
    ensures DELETES in Heads().manifests && Heads().manifests[DELETES].layers == [MARK_LAYER]
  {
    MarkTargets();
    hide WhiteoutPathFor, FILE, NoSlash;
    assert forall d, e :: d in LAYERS && e in LAYERS[d] ==> e in {OLD_ITEM, NEW_ITEM, MARK};
  }

  /** Each of the heads takes its file from a layer of its own. */
  lemma HeadsSole()
    ensures forall d :: d in Heads().manifests ==> Sole(Heads(), d)
  {
    HeadsAre();
    MarkTargets();
    DigestsDiffer();
    hide FILE, MARK, ViewOf, Loadable, LAYERS, OLD_LAYER, NEW_LAYER, MARK_LAYER, Heads;
    var s := Heads();
    forall d | d in s.manifests ensures Sole(s, d) {
      HeadShown(s, d);
      RegistersAlone(s);
    }
  }

  lemma RegistersAlone(s: Store)
    requires s.layers == LAYERS
    ensures Alone(s, FILE, Keep(OLD)) && Alone(s, FILE, Keep(NEW))
  {
    MarkTargets();
    DigestsDiffer();
    hide WhiteoutTarget, FILE, MARK;
  }

  /** What the base and the three heads have at the file: an edit, nothing, and a later deletion. */
  lemma HeadSlots()
    ensures var s := Heads();
      && Loadable(s, ROOT) && Loadable(s, EDITS) && Loadable(s, LACKS) && Loadable(s, DELETES)
      && BaseAt(s, Some(ROOT), FILE) == Some(OLD) && SlotAt(ViewOf(s, EDITS), FILE) == Slot(Some(NEW), 0)
      && SlotAt(ViewOf(s, LACKS), FILE) == Slot(None, 0) && SlotAt(ViewOf(s, DELETES), FILE) == Slot(None, 7000)
      && (forall p :: p !in ViewOf(s, LACKS).files && p !in ViewOf(s, DELETES).files)
  {
    HeadsAre();
    HeadShown(Heads(), ROOT);
    HeadShown(Heads(), EDITS);
    HeadShown(Heads(), LACKS);
    HeadShown(Heads(), DELETES);
    DigestsDiffer();
    assert [NEW_LAYER][0] == NEW_LAYER && [OLD_LAYER][0] == OLD_LAYER && [MARK_LAYER][0] == MARK_LAYER;
    hide FILE, MARK, ViewOf, Loadable, Heads;
  }

  lemma EditSurvives()
    ensures Survives(Some(OLD), NEW, 0) && !Survives(Some(OLD), NEW, 7000)
  {
    assert NEW.descriptor.digest == [6] && OLD.descriptor.digest == [5] && [6 as byte][0] == 6 && [5 as byte][0] == 5;
  }

  lemma NoneMerged(t: Tools, v: HeadView, w: HeadView)
    requires forall p :: p !in w.files
    ensures Unmerged(t, v, w)
  {
  }

  /** The guard fails at the file: one grouping of the three joins loses the edit, the other keeps it. */
  lemma GroupingMatters(t: Tools)
    requires Injective(t) && forall m: Manifest :: t.hash(m) !in Heads().manifests
    ensures Componentwise(Heads())
    ensures Shown(LeftFirst(t, Heads(), EDITS, LACKS, DELETES, Some(ROOT)), FILE) == None
    ensures Shown(RightFirst(t, Heads(), EDITS, LACKS, DELETES, Some(ROOT)), FILE) == Some(NEW)
  {
    var s := Heads();
    HeadsAre();
    assert Told(t, s);
    HeadSlots();
    HeadsSole();
    EditSurvives();
    NoneMerged(t, ViewOf(s, EDITS), ViewOf(s, LACKS));
    NoneMerged(t, ViewOf(s, LACKS), ViewOf(s, DELETES));
    NoneMerged(t, ViewOf(s, EDITS), ViewOf(s, DELETES));
    hide *;
    assert !GroupsAlike(Some(OLD), Slot(Some(NEW), 0), Slot(None, 0), Slot(None, 7000)) by { EditAlone(OLD, NEW, 0, 7000); }
    GroupingIff(t, s, EDITS, LACKS, DELETES, Some(ROOT), FILE);
    RightMeets(t, s, EDITS, LACKS, DELETES, Some(ROOT), FILE);
    LeftMeets(t, s, EDITS, LACKS, DELETES, Some(ROOT), FILE);
    EditMeets(OLD, NEW, 7000);
  }

  lemma EditAlone(base: Register, r: Register, early: nat, late: nat)
    requires Survives(Some(base), r, 0) && !Survives(Some(base), r, late) && early <= late
    ensures !GroupsAlike(Some(base), Slot(Some(r), 0), Slot(None, early), Slot(None, late))
  {
    hide SameEntry;
  }

  lemma EditMeets(base: Register, r: Register, late: nat)
    requires Survives(Some(base), r, 0) && !Survives(Some(base), r, late)
    ensures var b, e, n, d := Some(base), Slot(Some(r), 0), Slot(None, 0), Slot(None, late);
      Meet(b, Meet(b, e, n), d).reg == None && Meet(b, e, Meet(b, n, d)).reg == Some(r)
  {
    hide Survives, NewerOf;
  }
}
