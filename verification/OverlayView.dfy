/** What a pushed overlay shows, and exactly when the paths it does not mention stay as they were. */
module OverlayView {
  import opened Bytes
  import opened Paths
  import Workspace
  import opened View
  import opened Replay
  import opened Order
  import opened Overlay

  function ItemsIn(ls: seq<Layer>): seq<seq<Item<File>>> {
    seq(|ls|, i requires 0 <= i < |ls| => ls[i].items)
  }

  /** The merged view of a list of layers. */
  function Shown(s: seq<Slot>): Merged<File> {
    MergeLayers(ItemsIn(LayersIn(s)))
  }

  lemma ShownNext(s: seq<Slot>, x: Slot)
    ensures Shown(s + [x]) == ApplyLayer(Shown(s), |s|, x.layer.items)
  {
    hide MergeLayers, ApplyLayer;
    assert ItemsIn(LayersIn(s + [x])) == ItemsIn(LayersIn(s)) + [x.layer.items];
    MergeLayersLast(ItemsIn(LayersIn(s)), x.layer.items);
  }

  lemma MergeLayersLast(layers: seq<seq<Item<File>>>, l: seq<Item<File>>)
    ensures MergeLayers(layers + [l]) == ApplyLayer(MergeLayers(layers), |layers|, l)
  {
    hide ApplyLayer;
    assert (layers + [l])[..|layers|] == layers;
  }

  ghost predicate AtOrBelow(p: Path, roots: set<Path>) {
    exists d :: d in roots && (d == p || Above(d, p))
  }

  /** An entry of this name deletes `p`: a whiteout of it or of something above it, or an opaque marker above it. */
  predicate Hits(w: Path, p: Path) {
    match WhiteoutTarget(w)
    case Delete(target) => target == p || Above(target, p)
    case Opaque(dir) => Above(dir, p)
    case NoWhiteout => false
  }

  /** An upper file named like a whiteout deletes `p`. */
  ghost predicate UpperHits(e: Edit, p: Path) {
    exists u :: u in e.upper && Hits(u, p)
  }

  /** The marker of a deletion deletes `p`. */
  ghost predicate Struck(e: Edit, p: Path) {
    exists d :: d in e.deletions && Hits(WhiteoutPathFor(d), p)
  }

  /** Neither deleted, nor an upper file, nor below one, nor deleted by a name of either. */
  ghost predicate Untouched(e: Edit, p: Path) {
    !AtOrBelow(p, e.deletions.Keys) && !AtOrBelow(p, e.upper.Keys) && !UpperHits(e, p) && !Struck(e, p)
  }

  lemma HitsDown(w: Path, p: Path, q: Path)
    requires Hits(w, p) && (p == q || Above(p, q))
    ensures Hits(w, q)
  {
    match WhiteoutTarget(w)
    case Delete(target) => if target != p && p != q { AboveTransitive(target, p, q); }
    case Opaque(dir) => if p != q { AboveTransitive(dir, p, q); }
    case NoWhiteout =>
  }

  /** What lies above an untouched path is untouched. */
  lemma UntouchedUp(e: Edit, p: Path, q: Path)
    requires Untouched(e, q) && (p == q || Above(p, q))
    ensures Untouched(e, p)
  {
    if AtOrBelow(p, e.deletions.Keys) { BelowDown(p, q, e.deletions.Keys); }
    if AtOrBelow(p, e.upper.Keys) { BelowDown(p, q, e.upper.Keys); }
    hide Hits, AtOrBelow, Above;
    if u :| u in e.upper && Hits(u, p) { HitsDown(u, p, q); }
    if d :| d in e.deletions && Hits(WhiteoutPathFor(d), p) { HitsDown(WhiteoutPathFor(d), p, q); }
  }

  lemma BelowDown(p: Path, q: Path, roots: set<Path>)
    requires AtOrBelow(p, roots) && (p == q || Above(p, q))
    ensures AtOrBelow(q, roots)
  {
    var d :| d in roots && (d == p || Above(d, p));
    if d != p && p != q { AboveTransitive(d, p, q); }
  }

  /** Same entries at every untouched path. */
  ghost predicate Agree(e: Edit, m: Merged<File>, n: Merged<File>) {
    forall p :: Untouched(e, p) ==> (p in m <==> p in n) && (p in m ==> m[p].item == n[p].item)
  }

  lemma ApplyAgree(e: Edit, m: Merged<File>, n: Merged<File>, i: nat, j: nat, x: Item<File>)
    requires Agree(e, m, n)
    ensures Agree(e, Apply(m, i, x), Apply(n, j, x))
  {
    hide WhiteoutTarget, Above, Untouched;
    forall p | Untouched(e, p) && Above(x.path, p) ensures Untouched(e, x.path) { UntouchedUp(e, x.path, p); }
  }

  lemma {:induction false} LayerAgree(e: Edit, m: Merged<File>, n: Merged<File>, i: nat, j: nat, es: seq<Item<File>>)
    requires Agree(e, m, n)
    ensures Agree(e, ApplyLayer(m, i, es), ApplyLayer(n, j, es))
    decreases |es|
  {
    hide Agree, Apply;
    if es != [] {
      LayerAgree(e, m, n, i, j, es[..|es| - 1]);
      ApplyAgree(e, ApplyLayer(m, i, es[..|es| - 1]), ApplyLayer(n, j, es[..|es| - 1]), i, j, es[|es| - 1]);
    }
  }

  /** An entry that touches only superseded files and what the deletions cover. */
  ghost predicate Harmless(e: Edit, x: Item<File>) {
    match WhiteoutTarget(x.path)
    case Opaque(_) => false
    case Delete(target) => AtOrBelow(target, e.deletions.Keys)
    case NoWhiteout => Superseded(e, x.path)
  }

  lemma HarmlessAgree(e: Edit, m: Merged<File>, n: Merged<File>, i: nat, x: Item<File>)
    requires Agree(e, m, n) && Harmless(e, x)
    ensures Agree(e, Apply(m, i, x), n)
  {
    hide WhiteoutTarget, Above;
    match WhiteoutTarget(x.path)
    case Delete(target) =>
      forall p | p == target || Above(target, p) ensures !Untouched(e, p) {
        BelowDown(target, p, e.deletions.Keys);
        TouchedIf(e, p);
      }
      hide AtOrBelow, Untouched;
    case NoWhiteout =>
      assert AtOrBelow(x.path, e.deletions.Keys) || AtOrBelow(x.path, e.upper.Keys);
      forall p | p == x.path || Above(x.path, p) ensures !Untouched(e, p) {
        if AtOrBelow(x.path, e.deletions.Keys) { BelowDown(x.path, p, e.deletions.Keys); } else { BelowDown(x.path, p, e.upper.Keys); }
        TouchedIf(e, p);
      }
      hide AtOrBelow, Untouched;
  }

  lemma TouchedIf(e: Edit, p: Path)
    requires AtOrBelow(p, e.deletions.Keys) || AtOrBelow(p, e.upper.Keys)
    ensures !Untouched(e, p)
  {
    hide AtOrBelow, UpperHits, Struck;
  }

  lemma {:induction false} HarmlessLayer(e: Edit, m: Merged<File>, n: Merged<File>, i: nat, es: seq<Item<File>>)
    requires Agree(e, m, n) && forall x :: x in es ==> Harmless(e, x)
    ensures Agree(e, ApplyLayer(m, i, es), n)
    decreases |es|
  {
    hide Agree, Apply, Harmless;
    if es != [] {
      assert forall x :: x in es[..|es| - 1] ==> x in es;
      HarmlessLayer(e, m, n, i, es[..|es| - 1]);
      HarmlessAgree(e, ApplyLayer(m, i, es[..|es| - 1]), n, i, es[|es| - 1]);
    }
  }

  /** Own superseded layers hold only superseded files, and whiteouts that the current deletions cover. */
  ghost predicate CleanHead(e: Edit, s: seq<Slot>) {
    forall x, y :: x in s && Dropped(e, x.layer) && y in x.layer.items ==> Harmless(e, y)
  }

  lemma {:induction false} CleanAgree(e: Edit, s: seq<Slot>)
    requires CleanHead(e, s)
    ensures Agree(e, Shown(s), Shown(Kept(e, s)))
  {
    hide Agree, Dropped, Harmless, Shown;
    if s == [] {
      AgreeSelf(e, Shown(s));
    } else {
      var n := |s| - 1;
      assert s == s[..n] + [s[n]];
      CleanAgree(e, s[..n]);
      ShownNext(s[..n], s[n]);
      if Dropped(e, s[n].layer) {
        assert s[n] in s && Kept(e, s) == Kept(e, s[..n]);
        HarmlessLayer(e, Shown(s[..n]), Shown(Kept(e, s[..n])), n, s[n].layer.items);
      } else {
        ShownNext(Kept(e, s[..n]), s[n]);
        LayerAgree(e, Shown(s[..n]), Shown(Kept(e, s[..n])), n, |Kept(e, s[..n])|, s[n].layer.items);
      }
    }
  }

  lemma AgreeSelf(e: Edit, m: Merged<File>)
    ensures Agree(e, m, m)
  {
  }

  // --- the slots that stay -------------------------------------------------------------------------------

  /** The positions of the slots this push drops. */
  function DroppedAt(e: Edit, s: seq<Slot>): set<nat> {
    set i | 0 <= i < |s| && Dropped(e, s[i].layer)
  }

  function StackOf(s: seq<Slot>): seq<Placed<File>> {
    Flattened(ItemsIn(LayersIn(s)))
  }

  /** Some entry in the head's slots is what makes a difference at `p` between keeping and dropping the superseded slots. */
  ghost predicate Decided(e: Edit, s: seq<Slot>, p: Path) {
    exists k :: 0 <= k < |StackOf(s)| && Decides(StackOf(s), DroppedAt(e, s), k, p)
  }

  lemma StackNext(s: seq<Slot>, x: Slot)
    ensures StackOf(s + [x]) == StackOf(s) + Tagged(|s|, x.layer.items)
  {
    assert ItemsIn(LayersIn(s + [x])) == ItemsIn(LayersIn(s)) + [x.layer.items];
    var layers := ItemsIn(LayersIn(s));
    assert (layers + [x.layer.items])[..|layers|] == layers;
  }

  /** Dropping slots is leaving their items out of the stack. */
  lemma {:induction false} KeptStack(e: Edit, s: seq<Slot>)
    ensures SameItems(Without(StackOf(s), DroppedAt(e, s)), StackOf(Kept(e, s)))
  {
    hide Dropped;
    if s != [] {
      var n := |s| - 1;
      var gone, before := DroppedAt(e, s), DroppedAt(e, s[..n]);
      assert s == s[..n] + [s[n]];
      KeptStack(e, s[..n]);
      StackNext(s[..n], s[n]);
      FlattenedHas(ItemsIn(LayersIn(s[..n])));
      hide StackOf;
      WithoutMore(StackOf(s[..n]), before, gone) by { LayersBelow(s[..n]); }
      WithoutConcat(StackOf(s[..n]), Tagged(n, s[n].layer.items), gone);
      WithoutTagged(n, s[n].layer.items, gone);
      assert n in gone <==> Dropped(e, s[n].layer);
      if Dropped(e, s[n].layer) {
        assert Kept(e, s) == Kept(e, s[..n]);
      } else {
        StackNext(Kept(e, s[..n]), s[n]);
        SameMore(Without(StackOf(s[..n]), before), StackOf(Kept(e, s[..n])), n, |Kept(e, s[..n])|, s[n].layer.items);
      }
    }
  }

  lemma SameMore(xs: seq<Placed<File>>, ys: seq<Placed<File>>, i: nat, j: nat, es: seq<Item<File>>)
    requires SameItems(xs, ys)
    ensures SameItems(xs + Tagged(i, es), ys + Tagged(j, es))
  {
  }

  lemma LayersBelow(s: seq<Slot>)
    ensures forall x :: x in StackOf(s) ==> x.layer < |s|
  {
    FlattenedHas(ItemsIn(LayersIn(s)));
  }

  /** Dropping the superseded slots leaves a path as it was if and only if no entry decides it. */
  lemma KeptAgree(e: Edit, s: seq<Slot>, p: Path)
    ensures EntryAt(Shown(s), p) == EntryAt(Shown(Kept(e, s)), p) <==> !Decided(e, s, p)
  {
    RunIsMerge(ItemsIn(LayersIn(s)));
    RunIsMerge(ItemsIn(LayersIn(Kept(e, s))));
    KeptStack(e, s);
    SameWithoutIff(StackOf(s), DroppedAt(e, s), p);
    Renumbered(Without(StackOf(s), DroppedAt(e, s)), StackOf(Kept(e, s)), p);
    hide Run, Decides, Without, MergeLayers, Flattened;
  }

  /** On a head whose superseded slots are clean, no untouched path is decided. */
  lemma CleanUndecided(e: Edit, s: seq<Slot>, p: Path)
    requires CleanHead(e, s) && Untouched(e, p)
    ensures !Decided(e, s, p)
  {
    hide *;
    CleanAgree(e, s);
    KeptAgree(e, s, p);
    AgreeEntries(e, Shown(s), Shown(Kept(e, s)), p);
  }

  lemma AgreeEntries(e: Edit, m: Merged<File>, n: Merged<File>, p: Path)
    requires Agree(e, m, n) && Untouched(e, p)
    ensures EntryAt(m, p) == EntryAt(n, p)
  {
  }

  // --- the appended layers -------------------------------------------------------------------------------

  /** The upper are files of one tree: none lies below another. */
  ghost predicate OneTree(e: Edit) {
    forall u, v :: u in e.upper && v in e.upper ==> !Above(u, v)
  }

  function UpperItem(e: Edit, p: Path): Item<File>
    requires p in e.upper
  {
    FileLayer(e, p, e.upper[p]).items[0]
  }

  predicate IsPlain(u: Path) {
    WhiteoutTarget(u) == NoWhiteout
  }

  /** A directory is shown there. */
  predicate ShowsDir(x: Option<Item<File>>) {
    x.Some? && x.value.dir
  }

  /** What `p` shows when the upper files of `q` are laid over `m` one by one. */
  function Laid(e: Edit, m: Merged<File>, q: seq<Path>, p: Path): Option<Item<File>>
    requires forall u :: u in q ==> u in e.upper
  {
    if q == [] then EntryAt(m, p)
    else
      var n, u := |q| - 1, q[|q| - 1];
      assert u in q;
      if Hits(u, p) then None
      else if IsPlain(u) && u == p then Some(UpperItem(e, u))
      else if IsPlain(u) && Above(u, p) && ShowsDir(Laid(e, m, q[..n], u)) then None
      else Laid(e, m, q[..n], p)
  }

  lemma {:induction false} FilesLaid(t: Tools, e: Edit, s: seq<Slot>, q: seq<Path>, p: Path)
    requires forall u :: u in q ==> u in e.upper
    ensures EntryAt(Shown(s + FileSlots(t, e, q)), p) == Laid(e, Shown(s), q, p)
  {
    hide Shown;
    if q == [] {
      assert s + FileSlots(t, e, q) == s;
    } else {
      var n, u := |q| - 1, q[|q| - 1];
      assert u in q && q == q[..n] + [u];
      FilesLaid(t, e, s, q[..n], p);
      FilesLaid(t, e, s, q[..n], u);
      var before := s + FileSlots(t, e, q[..n]);
      var slot := Built(t, FileLayer(e, u, e.upper[u]));
      assert s + FileSlots(t, e, q) == before + [slot];
      ShownNext(before, slot);
      FileOnTop(e, Shown(before), |before|, u, p);
    }
  }

  lemma FileOnTop(e: Edit, m: Merged<File>, i: nat, u: Path, p: Path)
    requires u in e.upper
    ensures EntryAt(ApplyLayer(m, i, FileLayer(e, u, e.upper[u]).items), p) ==
      if Hits(u, p) then None
      else if IsPlain(u) && u == p then Some(UpperItem(e, u))
      else if IsPlain(u) && Above(u, p) && ShowsDir(EntryAt(m, u)) then None
      else EntryAt(m, p)
  {
    var es := FileLayer(e, u, e.upper[u]).items;
    assert es[..0] == [] && ApplyLayer(m, i, es) == Apply(ApplyLayer(m, i, []), i, es[0]) == Apply(m, i, es[0]);
    ApplyAt(m, i, es[0], p);
    hide Apply, WhiteoutTarget, Above;
  }

  // --- the upper files all at once ---------------------------------------------------------------------------

  /** A name of `q` deletes `p`. */
  ghost predicate HitBy(q: seq<Path>, p: Path) {
    exists u :: u in q && Hits(u, p)
  }

  /** One that comes after `p` in string order does. */
  ghost predicate HitLater(q: seq<Path>, p: Path) {
    exists u :: u in q && PathLess(p, u) && Hits(u, p)
  }

  /** A plain file of `q` replaces a directory of `m` above `p`. */
  ghost predicate Covered(m: Merged<File>, q: seq<Path>, p: Path) {
    exists u :: u in q && IsPlain(u) && Above(u, p) && ShowsDir(EntryAt(m, u))
  }

  /** What `p` shows when the upper files of `q`, in string order, are laid over `m`. */
  ghost function Under(e: Edit, m: Merged<File>, q: seq<Path>, p: Path): Option<Item<File>>
    requires forall u :: u in q ==> u in e.upper
  {
    if p in q && IsPlain(p) then (if HitLater(q, p) then None else Some(UpperItem(e, p)))
    else if HitBy(q, p) || Covered(m, q, p) then None
    else EntryAt(m, p)
  }

  /** One more name at the end of the list. */
  lemma OneMore(m: Merged<File>, q: seq<Path>, u: Path, p: Path)
    ensures HitBy(q + [u], p) <==> HitBy(q, p) || Hits(u, p)
    ensures HitLater(q + [u], p) <==> HitLater(q, p) || (PathLess(p, u) && Hits(u, p))
    ensures Covered(m, q + [u], p) <==> Covered(m, q, p) || (IsPlain(u) && Above(u, p) && ShowsDir(EntryAt(m, u)))
  {
    hide Hits, PathLess, IsPlain, ShowsDir, Above;
    var r := q + [u];
    assert u in r && forall x :: x in r <==> x in q || x == u;
  }

  lemma {:induction false} LaidIs(e: Edit, m: Merged<File>, q: seq<Path>, p: Path)
    requires OneTree(e) && Sorted(q) && forall u :: u in q ==> u in e.upper && NoSlash(u)
    ensures Laid(e, m, q, p) == Under(e, m, q, p)
    decreases |q|
  {
    hide Hits, PathLess, NoSlash, Under;
    if q == [] {
      NothingLaid(e, m, p);
    } else {
      var n, u := |q| - 1, q[|q| - 1];
      assert u in q && q == q[..n] + [u];
      forall x | x in q[..n] ensures PathLess(x, u) { var i :| 0 <= i < n && q[i] == x; }
      LaidIs(e, m, q[..n], p);
      LaidIs(e, m, q[..n], u);
      LastLaid(e, m, q[..n], u, p);
      assert Laid(e, m, q, p) ==
        if Hits(u, p) then None
        else if IsPlain(u) && u == p then Some(UpperItem(e, u))
        else if IsPlain(u) && Above(u, p) && ShowsDir(Laid(e, m, q[..n], u)) then None
        else Laid(e, m, q[..n], p);
    }
  }

  lemma NothingLaid(e: Edit, m: Merged<File>, p: Path)
    ensures Under(e, m, [], p) == EntryAt(m, p)
  {
  }

  /** The last file of the list, after the ones before it. */
  lemma LastLaid(e: Edit, m: Merged<File>, q: seq<Path>, u: Path, p: Path)
    requires OneTree(e) && u in e.upper && NoSlash(u) && forall x :: x in q ==> x in e.upper && NoSlash(x) && PathLess(x, u)
    ensures forall x :: x in q + [u] ==> x in e.upper
    ensures Under(e, m, q + [u], p) ==
      if Hits(u, p) then None
      else if IsPlain(u) && u == p then Some(UpperItem(e, u))
      else if IsPlain(u) && Above(u, p) && ShowsDir(Under(e, m, q, u)) then None
      else Under(e, m, q, p)
  {
    OneMore(m, q, u, p);
    PathLessTotal(u, u);
    forall x | x in q ensures !PathLess(u, x) && x != u { PathLessTotal(x, u); }
    PlainHitsNone(u, p);
    if p in q { assert !Above(u, p) && PathLess(p, u); }
    if HitBy(q, u) && Above(u, p) {
      var w :| w in q && Hits(w, u);
      HitsDown(w, u, p);
    }
    if p == u { NotLater(q, u); }
    assert forall x :: x in q ==> !Above(x, u);
    hide Hits, PathLess, NoSlash, HitLater, IsPlain, Above;
    assert !Covered(m, q, u);
    hide OneTree;
    assert p in q + [u] <==> p in q || p == u;
  }

  lemma NotLater(q: seq<Path>, u: Path)
    requires forall x :: x in q ==> !PathLess(u, x)
    ensures !HitLater(q, u)
  {
    hide PathLess, Hits;
  }

  lemma PlainHitsNone(u: Path, p: Path)
    ensures IsPlain(u) ==> !Hits(u, p)
  {
  }

  // --- the markers ---------------------------------------------------------------------------------------------

  ghost predicate Marked(q: seq<Path>, p: Path) {
    exists d :: d in q && Hits(WhiteoutPathFor(d), p)
  }

  lemma MarkedMore(q: seq<Path>, d: Path, p: Path)
    ensures Marked(q + [d], p) <==> Marked(q, p) || Hits(WhiteoutPathFor(d), p)
  {
    hide Hits, WhiteoutPathFor;
    var r := q + [d];
    assert d in r && forall x :: x in r <==> x in q || x == d;
  }

  lemma {:induction false} MarkersApplied(e: Edit, m: Merged<File>, i: nat, q: seq<Path>, p: Path)
    requires forall d :: d in q ==> d in e.deletions
    ensures EntryAt(ApplyLayer(m, i, MarkerItems(e, q)), p) == if Marked(q, p) then None else EntryAt(m, p)
    decreases |q|
  {
    hide Marker, Apply, Hits, WhiteoutPathFor;
    if q != [] {
      var k, d := |q| - 1, q[|q| - 1];
      assert d in q && q == q[..k] + [d];
      MarkersApplied(e, m, i, q[..k], p);
      var before := ApplyLayer(m, i, MarkerItems(e, q[..k]));
      MarkersLast(e, q, d);
      LastEntry(m, i, MarkerItems(e, q[..k]), Marker(d, e.deletions[d]));
      MarkerOnTop(e, before, i, d, p);
      MarkedMore(q[..k], d, p);
    }
  }

  lemma MarkersLast(e: Edit, q: seq<Path>, d: Path)
    requires q != [] && d == q[|q| - 1] && forall p :: p in q ==> p in e.deletions
    ensures MarkerItems(e, q) == MarkerItems(e, q[..|q| - 1]) + [Marker(d, e.deletions[d])]
  {
  }

  lemma LastEntry(m: Merged<File>, i: nat, es: seq<Item<File>>, x: Item<File>)
    ensures ApplyLayer(m, i, es + [x]) == Apply(ApplyLayer(m, i, es), i, x)
  {
    hide Apply;
    assert (es + [x])[..|es|] == es;
  }

  lemma MarkerOnTop(e: Edit, m: Merged<File>, i: nat, d: Path, p: Path)
    requires d in e.deletions
    ensures EntryAt(Apply(m, i, Marker(d, e.deletions[d])), p) == if Hits(WhiteoutPathFor(d), p) then None else EntryAt(m, p)
  {
    MarkerHits(d);
    var x := Marker(d, e.deletions[d]);
    hide WhiteoutTarget, WhiteoutPathFor;
    ApplyAt(m, i, x, p);
    hide Apply;
  }

  /** A marker is a whiteout of some kind. */
  lemma MarkerHits(d: Path)
    ensures WhiteoutTarget(WhiteoutPathFor(d)) != NoWhiteout
  {
    var w := WhiteoutPathFor(d);
    var base := if d == [] then Workspace.WHITEOUT_PREFIX else Workspace.WHITEOUT_PREFIX + Base(d);
    assert Base(w) == base && base[..4] == Workspace.WHITEOUT_PREFIX;
  }

  /** What `p` shows after the push, from what the slots that stay show. */
  ghost function Overlaid(e: Edit, kept: Merged<File>, p: Path): Option<Item<File>> {
    if Struck(e, p) then None
    else if p in e.upper && IsPlain(p) then
      (if exists u :: u in e.upper && PathLess(p, u) && Hits(u, p) then None else Some(UpperItem(e, p)))
    else if UpperHits(e, p) then None
    else if exists u :: u in e.upper && IsPlain(u) && Above(u, p) && ShowsDir(EntryAt(kept, u)) then None
    else EntryAt(kept, p)
  }

  lemma AppendedView(t: Tools, e: Edit, s: seq<Slot>, p: Path)
    requires Sortable(e) && OneTree(e)
    ensures EntryAt(Shown(s + Appended(t, e)), p) == Overlaid(e, Shown(s), p)
  {
    hide *;
    SortableMeans(e);
    var u, q := InOrder(e.upper.Keys), InOrder(e.deletions.Keys);
    ListsMembers(u, e.upper.Keys);
    ListsMembers(q, e.deletions.Keys);
    FilesLaid(t, e, s, u, p);
    LaidIs(e, Shown(s), u, p);
    var files := FileSlots(t, e, u);
    AppendedIs(t, e);
    OverlaidIs(e, Shown(s), u, q, p);
    if e.deletions == map[] {
      assert s + (files + []) == s + files;
    } else {
      var slot := Built(t, MarkerLayer(e, q));
      assert s + (files + [slot]) == s + files + [slot];
      ShownNext(s + files, slot);
      MarkersApplied(e, Shown(s + files), |s + files|, q, p);
      MarkerItemsAre(t, e, q);
    }
  }

  lemma OverlaidIs(e: Edit, m: Merged<File>, u: seq<Path>, q: seq<Path>, p: Path)
    requires (forall x :: x in u <==> x in e.upper) && (forall x :: x in q <==> x in e.deletions)
    ensures Overlaid(e, m, p) == if Marked(q, p) then None else Under(e, m, u, p)
    ensures e.deletions == map[] ==> Overlaid(e, m, p) == Under(e, m, u, p)
  {
    hide Above, Hits, PathLess, IsPlain, ShowsDir, WhiteoutPathFor, UpperItem;
    assert Marked(q, p) <==> Struck(e, p);
    assert HitBy(u, p) <==> UpperHits(e, p);
    assert HitLater(u, p) <==> exists x :: x in e.upper && PathLess(p, x) && Hits(x, p);
    assert Covered(m, u, p) <==> exists x :: x in e.upper && IsPlain(x) && Above(x, p) && ShowsDir(EntryAt(m, x));
  }

  lemma SortableMeans(e: Edit)
    requires Sortable(e)
    ensures (forall p :: p in e.upper ==> NoSlash(p)) && forall p :: p in e.deletions ==> NoSlash(p)
  {
  }

  lemma AppendedIs(t: Tools, e: Edit)
    requires Sortable(e)
    ensures forall p :: p in InOrder(e.deletions.Keys) ==> p in e.deletions
    ensures Appended(t, e) == FileSlots(t, e, InOrder(e.upper.Keys)) + if e.deletions == map[] then [] else [Built(t, MarkerLayer(e, InOrder(e.deletions.Keys)))]
  {
    hide InOrder, FileSlots, NoSlash;
  }

  lemma MarkerItemsAre(t: Tools, e: Edit, q: seq<Path>)
    requires forall p :: p in q ==> p in e.deletions
    ensures Built(t, MarkerLayer(e, q)).layer.items == MarkerItems(e, q)
  {
  }

  /**
   * What the head pushed over `m` shows at any path; and a path the edit does not mention stays as it was
   * if and only if no entry in the head's slots decides it.
   */
  lemma PushedView(t: Tools, m: Manifest, e: Edit, p: Path)
    requires Sortable(e) && OneTree(e)
    ensures var s := Slots(m); var before, kept, after := Shown(s), Shown(Kept(e, s)), Shown(NewSlots(t, m, e));
      && EntryAt(after, p) == Overlaid(e, kept, p)
      && (EntryAt(kept, p) == EntryAt(before, p) <==> !Decided(e, s, p))
      && (Untouched(e, p) ==> (EntryAt(after, p) == EntryAt(before, p) <==> !Decided(e, s, p)))
  {
    hide *;
    var s := Slots(m);
    KeptAgree(e, s, p);
    AppendedView(t, e, Kept(e, s), p);
    NewSlotsAre(t, m, e);
    if Untouched(e, p) { UntouchedIs(e, Shown(Kept(e, s)), p); }
  }

  lemma UntouchedIs(e: Edit, kept: Merged<File>, p: Path)
    requires Untouched(e, p)
    ensures Overlaid(e, kept, p) == EntryAt(kept, p)
  {
    hide Above, Hits, PathLess, IsPlain, ShowsDir, WhiteoutPathFor, UpperItem;
  }

  lemma NewSlotsAre(t: Tools, m: Manifest, e: Edit)
    requires Sortable(e)
    ensures NewSlots(t, m, e) == Kept(e, Slots(m)) + Appended(t, e)
  {
  }

  /** An earlier whiteout of this actor that the current deletions do not cover: the file comes back. */
  lemma UncoveredWhiteoutReturns(t: Tools, a: Path, b: Path, actor: Bytes, f: File, layer: Layer, own: Layer)
    requires a != [] && b != [] && a != b && !Above(b, a) && WhiteoutTarget(a) == NoWhiteout && Base(a) != OPAQUE_TAIL && Base(b) != OPAQUE_TAIL
    requires NoSlash(b)
    requires layer.items == [Item(a, false, f)] && layer.overlay == None
    requires own.items == [Marker(a, 0)] && own.overlay == Some(actor) && own.mark == Whiteouts
    ensures var s := [Slot(layer, None), Slot(own, None)]; var e := Edit(map[], map[b := 0], actor, false);
      a !in Shown(s) && Sortable(e) && a in Shown(Kept(e, s) + Appended(t, e))
  {
    var e := Edit(map[], map[b := 0], actor, false);
    var first, second := Slot(layer, None), Slot(own, None);
    var s := [first, second];
    OwnDropsOut(e, first, second);
    OneDeletion(t, e, b);
    assert b in e.deletions;
    hide *;
    FileShown(a, f, first);
    MarkedShown(first, a, 0, second);
    var marks := Built(t, MarkerLayer(e, [b]));
    OneMarker(t, e, b);
    MarkedShown(first, b, 0, marks);
    RemovedOne(a, b, Placed(0, Item(a, false, f)));
    assert [first] + [second] == s && [first] + [marks] == Kept(e, s) + Appended(t, e);
  }

  lemma RemovedOne(a: Path, b: Path, x: Placed<File>)
    requires a != b && !Above(b, a)
    ensures a !in Removed(map[a := x], a) && a in Removed(map[a := x], b)
  {
    hide Above;
  }

  lemma OwnDropsOut(e: Edit, first: Slot, second: Slot)
    requires first.layer.overlay == None && second.layer.overlay == Some(e.actor) && second.layer.mark == Whiteouts && |e.deletions| > 0
    ensures Kept(e, [first, second]) == [first]
  {
    var s := [first, second];
    assert s[..1] == [first] && [first][..0] == [];
    assert Dropped(e, second.layer) && !Dropped(e, first.layer) && Kept(e, [first]) == [first];
  }

  lemma OneMarker(t: Tools, e: Edit, b: Path)
    requires b in e.deletions && e.deletions[b] == 0
    ensures Built(t, MarkerLayer(e, [b])).layer.items == [Marker(b, 0)]
  {
    assert [b][..0] == [];
    assert MarkerItems(e, [b]) == [] + [Marker(b, 0)];
  }

  lemma FileShown(a: Path, f: File, x: Slot)
    requires WhiteoutTarget(a) == NoWhiteout && x.layer.items == [Item(a, false, f)]
    ensures Shown([x]) == map[a := Placed(0, Item(a, false, f))]
  {
    var none: Merged<File> := map[];
    ShownNext([], x);
    LastEntry(none, 0, [], Item(a, false, f));
    assert [] + [Item(a, false, f)] == x.layer.items && [] + [x] == [x];
    hide WhiteoutTarget;
    assert ItemsIn(LayersIn([])) == [];
    assert Shown([]) == none;
  }

  lemma MarkedShown(x: Slot, p: Path, stamp: nat, y: Slot)
    requires p != [] && Base(p) != OPAQUE_TAIL && y.layer.items == [Marker(p, stamp)]
    ensures Shown([x] + [y]) == Removed(Shown([x]), p)
  {
    WhiteoutRoundTrip(p);
    hide WhiteoutTarget, WhiteoutPathFor;
    ShownNext([x], y);
    LastEntry(Shown([x]), 1, [], Marker(p, stamp));
    assert [] + [Marker(p, stamp)] == y.layer.items;
    hide Shown;
  }

  lemma OneDeletion(t: Tools, e: Edit, b: Path)
    requires e.upper == map[] && e.deletions.Keys == {b} && NoSlash(b)
    ensures Sortable(e) && Appended(t, e) == [Built(t, MarkerLayer(e, [b]))]
  {
    var u, q := InOrder(e.upper.Keys), InOrder(e.deletions.Keys);
    ListsEmpty(u, {});
    ListsEmpty(q, {b});
    assert q[0] in {b};
    ListsTail(q, {b});
    assert {b} - {b} == {};
    ListsEmpty(q[1..], {});
    assert q == [q[0]] + q[1..];
  }
}
