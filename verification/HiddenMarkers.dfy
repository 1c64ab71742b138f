/** Excluded paths spelled like whiteout markers, and names read without their mark: exactly when they keep an intact snapshot from being restored. */
module HiddenMarkers {
  import opened Bytes
  import opened Paths
  import opened Filesystem
  import opened Workspace
  import opened RestorePlan
  import opened View
  import opened Numerals
  import opened Tar
  import opened TarRoundTrip
  import opened PathText
  import opened Layers
  import opened Readings
  import opened History
  import opened Snapshots

  const OPEN_DIR: Node := Dir(0x1FF)
  const EMPTY_FILE: Node := File([], 0x1A4)

  const LINKED: Node := Symlink(BOM + [97])    // to U+FEFF, then "a"

  predicate IsLeaf(n: Node) {
    n == OPEN_DIR || n == EMPTY_FILE || n == LINKED
  }

  /** The plainest node of the same kind, directory or not. */
  function LeafLike(n: Node): Node {
    if n.Dir? then OPEN_DIR else EMPTY_FILE
  }

  /** A directory of this name can be captured. */
  predicate RecordsDir(p: Path) {
    AcceptsName(p) && Sized(p, OPEN_DIR)
  }

  /** The captured directories above `p`, and the roots with what is above them, have names a walk accepts. */
  predicate Standing(cfg: Config, p: Path) {
    && (forall k: nat :: k < |p| && cfg.Captures(p[..k]) ==> RecordsDir(p[..k]))
    && (forall r, k: nat :: r in cfg.roots && k <= |r| && cfg.Captures(r[..k]) ==> RecordsDir(r[..k]))
  }

  /** `p` can be captured as `n`. */
  predicate Recordable(cfg: Config, p: Path, n: Node) {
    cfg.Captures(p) && AcceptsName(p) && Sized(p, n) && (cfg.Implicit(p) ==> n.Dir?) && Standing(cfg, p)
  }

  /** `p` can be captured and be gone at the next walk. */
  predicate Deletable(cfg: Config, p: Path) {
    !cfg.Implicit(p) && (Recordable(cfg, p, OPEN_DIR) || Recordable(cfg, p, EMPTY_FILE))
  }

  /** The path that a marker name stands for. */
  function Unmarked(e: Path): Path
    requires e != [] && WhiteoutName(Base(e))
  {
    Parent(e) + [Base(e)[4..]]
  }

  /** An excluded path that is the marker of a path which can be deleted, and is read as that marker. */
  predicate Hides(cfg: Config, e: Path) {
    e != [] && WhiteoutName(Base(e)) && Deletable(cfg, Unmarked(e)) && LegibleMarker(Unmarked(e))
  }

  /** A node that can be captured is read, without its mark, under a path the preflight refuses. */
  predicate MisreadsNode(cfg: Config, p: Path, n: Node) {
    Recordable(cfg, p, n) && !LegibleName(p, n) && BOM <= p[0] && Unmark(p) != [] && !AcceptsPath(cfg, Unmark(p))
  }

  /** So is the marker of a path that can be deleted. */
  predicate MisreadsMarker(cfg: Config, p: Path) {
    var w := WhiteoutPathFor(p);
    Deletable(cfg, p) && !LegibleMarker(p) && w != [] && BOM <= w[0] && Unmark(w) != [] && !AcceptsPath(cfg, Unmark(w))
  }

  predicate Misreads(cfg: Config, p: Path) {
    MisreadsNode(cfg, p, OPEN_DIR) || MisreadsNode(cfg, p, EMPTY_FILE) || MisreadsMarker(cfg, p)
  }

  lemma MarkerUnmarked(p: Path)
    requires p != []
    ensures var e := WhiteoutPathFor(p); e != [] && WhiteoutName(Base(e)) && Unmarked(e) == p
  {
    var base := WHITEOUT_PREFIX + Base(p);
    assert base[..4] == WHITEOUT_PREFIX && base[4..] == Base(p);
    assert p == Parent(p) + [Base(p)];
  }

  lemma UnmarkedMarker(e: Path)
    requires e != [] && WhiteoutName(Base(e))
    ensures WhiteoutPathFor(Unmarked(e)) == e
  {
    assert Base(e) == WHITEOUT_PREFIX + Base(e)[4..];
    assert e == Parent(e) + [Base(e)];
    assert Parent(Unmarked(e)) == Parent(e);
  }

  // --- what a capture holds can be recorded ----------------------------------------------------------------

  lemma PackedSized(p: Path, n: Node)
    requires Packable(p, n)
    ensures AcceptsName(p) && Sized(p, n)
    ensures n.Dir? ==> Sized(p, OPEN_DIR)
    ensures !n.Dir? ==> Sized(p, EMPTY_FILE)
  {
    hide Numerals.Pow, PaxRecord;
  }

  lemma ShapeRecords(cfg: Config, now: Tree, p: Path)
    requires Shape(cfg, now) && p in now
    ensures Recordable(cfg, p, LeafLike(now[p]))
  {
    hide Packable, Readable, Sized, AcceptsName;
    PackedSized(p, now[p]);
    assert cfg.Captures(p);
    hide Config.Captures;
    forall k: nat | k < |p| && cfg.Captures(p[..k]) ensures RecordsDir(p[..k]) {
      assert Above(p[..k], p);
      PackedSized(p[..k], now[p[..k]]);
    }
    forall r, k: nat | r in cfg.roots && k <= |r| && cfg.Captures(r[..k]) ensures RecordsDir(r[..k]) {
      assert r[..k] == r || Above(r[..k], r);
      assert cfg.Implicit(r[..k]);
      PackedSized(r[..k], now[r[..k]]);
    }
  }

  lemma ShapeDeletes(cfg: Config, before: Tree, now: Tree, p: Path)
    requires Shape(cfg, before) && Shape(cfg, now) && p in before && p !in now
    ensures Deletable(cfg, p)
  {
    ShapeRecords(cfg, before, p);
    hide Packable, Readable, Sized, AcceptsName, Standing;
  }

  // --- a path that can be recorded, recorded -----------------------------------------------------------

  /** The directories that must be there: above `p`, and the roots with what is above them. */
  function Trunk(cfg: Config, p: Path): set<Path> {
    {[]} + (set r, k | r in cfg.roots && 0 <= k <= |r| :: r[..k]) + (set k | 0 <= k < |p| :: p[..k])
  }

  lemma InTrunk(cfg: Config, p: Path, x: Path)
    ensures x in Trunk(cfg, p) <==> x == [] || cfg.Implicit(x) || Above(x, p)
  {
    if cfg.Implicit(x) {
      var r :| r in cfg.roots && (x == r || Above(x, r));
      assert r[..|x|] == x;
    }
    if Above(x, p) { assert p[..|x|] == x; }
    if r, k :| r in cfg.roots && 0 <= k <= |r| && x == r[..k] {
      assert x == r || Above(x, r);
    }
  }

  /** What a capture can be taken of. */
  ghost predicate Capturable(cfg: Config, t: Tree) {
    && WellFormed(t) && Walkable(t, cfg, false)
    && forall p :: p in t && cfg.Captures(p) ==> Sized(p, t[p])
  }

  function Bare(cfg: Config, p: Path): Tree {
    map x | x in Trunk(cfg, p) :: OPEN_DIR
  }

  function Grown(cfg: Config, p: Path, n: Node): Tree {
    Bare(cfg, p)[p := n]
  }

  lemma TrunkClosed(cfg: Config, p: Path)
    requires cfg.Captures(p)
    ensures p != [] && (p in Trunk(cfg, p) <==> cfg.Implicit(p)) && forall x, a :: x in Trunk(cfg, p) && Above(a, x) ==> a in Trunk(cfg, p)
    ensures forall a :: Above(a, p) ==> a in Trunk(cfg, p)
  {
    ParentKinds(cfg, p);
    hide Config.Captures, Trunk;
    forall x ensures x in Trunk(cfg, p) <==> x == [] || cfg.Implicit(x) || Above(x, p) { InTrunk(cfg, p, x); }
    forall x, a | x in Trunk(cfg, p) && Above(a, x) ensures a in Trunk(cfg, p) {
      if cfg.Implicit(x) {
        var r :| r in cfg.roots && (x == r || Above(x, r));
        if x != r { AboveTransitive(a, x, r); }
        assert cfg.Implicit(a);
      } else {
        AboveTransitive(a, x, p);
      }
    }
  }

  /** A directory of the trunk that is captured has a name to be recorded under. */
  lemma TrunkRecords(cfg: Config, p: Path, x: Path)
    requires Standing(cfg, p) && x in Trunk(cfg, p) && cfg.Captures(x)
    ensures RecordsDir(x)
  {
    hide Sized, RecordsDir, Trunk;
    ParentKinds(cfg, x);
    hide Config.Captures;
    InTrunk(cfg, p, x);
    if cfg.Implicit(x) {
      var r :| r in cfg.roots && (x == r || Above(x, r));
      assert r[..|x|] == x;
    } else {
      assert p[..|x|] == x;
    }
  }

  lemma RecordsIs(x: Path)
    requires RecordsDir(x)
    ensures AcceptsName(x) && Sized(x, OPEN_DIR)
  {
  }

  lemma OpenBits()
    ensures OwnerR(0x1FF) && OwnerX(0x1FF) && OwnerR(0x1A4)
  {
  }

  /** With `p` as `n`, or not there at all unless it must be. */
  predicate Example(cfg: Config, p: Path, n: Node, t: Tree) {
    IsLeaf(n) && Recordable(cfg, p, n) && t in {Bare(cfg, p), Grown(cfg, p, n)}
  }

  lemma ExampleIs(cfg: Config, p: Path, n: Node, t: Tree)
    requires Example(cfg, p, n, t)
    ensures p != [] && Standing(cfg, p) && AcceptsName(p) && Sized(p, n) && IsLeaf(n)
    ensures forall x :: x in t <==> x in Trunk(cfg, p) || (x == p && p in t)
    ensures forall x :: x in Trunk(cfg, p) ==> t[x] == OPEN_DIR
    ensures p in t ==> t[p] == n
    ensures WellFormed(t)
  {
    TrunkClosed(cfg, p);
    assert [] in Trunk(cfg, p);
    hide Sized, Trunk, Standing, AcceptsName, Config.Captures, Config.Implicit;
  }

  lemma OneMore(cfg: Config, p: Path, n: Node)
    requires p !in Trunk(cfg, p)
    ensures Bare(cfg, p) == Grown(cfg, p, n) - {p} && p in Grown(cfg, p, n) && p !in Bare(cfg, p)
  {
    hide Trunk;
  }

  lemma TreeReaches(cfg: Config, p: Path, n: Node, t: Tree, x: Path)
    requires Example(cfg, p, n, t) && x in t
    ensures Resolves(t, x)
  {
    OpenBits();
    assert cfg.Captures(p);
    TrunkClosed(cfg, p);
    ExampleIs(cfg, p, n, t);
    hide Sized, Example, Standing, Trunk, OwnerX, Bare, Grown, WellFormed;
    forall a | Above(a, x) ensures Passable(t, a) { }
  }

  lemma TreeEntry(cfg: Config, p: Path, n: Node, t: Tree, x: Path)
    requires Example(cfg, p, n, t) && x in t && cfg.Captures(x)
    ensures AcceptsEntry(t, x, false) && Sized(x, t[x])
  {
    hide *;
    ExampleIs(cfg, p, n, t);
    TreeReaches(cfg, p, n, t, x);
    if x == p {
      LeafReadable(n);
    } else {
      TrunkRecords(cfg, p, x);
      RecordsIs(x);
      LeafReadable(OPEN_DIR) by { OpenIsLeaf(); }
    }
    EntryIs(t, x);
  }

  lemma OpenIsLeaf()
    ensures IsLeaf(OPEN_DIR)
  {
  }

  lemma EntryIs(t: Tree, x: Path)
    requires x in t && AcceptsName(x) && Resolves(t, x) && Readable(t[x], false)
    ensures AcceptsEntry(t, x, false)
  {
    hide AcceptsName, Resolves, Readable;
  }

  lemma TreeRoot(cfg: Config, p: Path, n: Node, t: Tree, r: Path)
    requires Example(cfg, p, n, t) && r in cfg.roots
    ensures RealRoot(t, r) && t[r] == OPEN_DIR
  {
    InTrunk(cfg, p, r);
    assert cfg.Implicit(r);
    ExampleIs(cfg, p, n, t);
    TreeReaches(cfg, p, n, t, r);
    hide Example, Trunk, Bare, Grown, Standing, WellFormed, Resolves, AcceptsName, Sized;
  }

  lemma ExampleCapturable(cfg: Config, p: Path, n: Node, t: Tree)
    requires Example(cfg, p, n, t)
    ensures Capturable(cfg, t)
  {
    OpenBits();
    ExampleIs(cfg, p, n, t);
    hide *;
    forall r | r in cfg.roots ensures RealRoot(t, r) && r in t && t[r] == OPEN_DIR { TreeRoot(cfg, p, n, t, r); RootIn(t, r); }
    forall x | x in t && cfg.Captures(x) ensures AcceptsEntry(t, x, false) && Sized(x, t[x]) { TreeEntry(cfg, p, n, t, x); }
    IsCapturable(cfg, t);
  }

  lemma RootIn(t: Tree, r: Path)
    requires RealRoot(t, r)
    ensures r in t
  {
  }

  lemma IsCapturable(cfg: Config, t: Tree)
    requires WellFormed(t) && OwnerR(0x1FF) && forall r :: r in cfg.roots ==> RealRoot(t, r) && r in t && t[r] == OPEN_DIR
    requires forall x :: x in t && cfg.Captures(x) ==> AcceptsEntry(t, x, false) && Sized(x, t[x])
    ensures Capturable(cfg, t)
  {
    hide Sized, AcceptsEntry, RealRoot, WellFormed, Config.Captures, OwnerR;
  }

  // --- what the path check does to one entry ---------------------------------------------------------------

  /** The path check does not see the entry, or accepts the path it is read under. */
  predicate EntryPasses(cfg: Config, e: TarEntry) {
    Reported(e) ==> AcceptsPath(cfg, Split(ReadPath(e)))
  }

  /** The check passes a layer exactly when it passes every entry written to it. */
  lemma LayerPasses(cfg: Config, es: seq<TarEntry>)
    requires AllStorable(es)
    ensures LayerAccepted(cfg, WriteTar(es)) <==> forall i :: 0 <= i < |es| ==> EntryPasses(cfg, es[i])
  {
    hide *;
    var b, r := WriteTar(es), ReadBackAll(es, 0);
    IndexOfWritten(es);
    ReadBackPaths(es, 0);
    ItemPaths(b, r);
    AcceptedIsAll(cfg, b);
    if LayerAccepted(cfg, b) {
      forall i | 0 <= i < |es| ensures EntryPasses(cfg, es[i]) {
        if Reported(es[i]) {
          var x: LayerEntry :| x in r && x.path == ReadPath(es[i]);
          var k := ItemFor(b, r, x);
        }
        PassesIf(cfg, es[i]);
      }
    }
    if forall i :: 0 <= i < |es| ==> EntryPasses(cfg, es[i]) {
      forall k | 0 <= k < |ItemsOf(b)| ensures AcceptsPath(cfg, ItemsOf(b)[k].path) {
        assert r[k] in r;
        var i :| 0 <= i < |es| && Reported(es[i]) && r[k].path == ReadPath(es[i]);
        PassesIf(cfg, es[i]);
      }
    }
  }

  lemma PassesIf(cfg: Config, e: TarEntry)
    ensures EntryPasses(cfg, e) <==> (Reported(e) ==> AcceptsPath(cfg, Split(ReadPath(e))))
  {
    hide Reported, AcceptsPath, Split, ReadPath;
  }

  lemma AcceptedIsAll(cfg: Config, b: Bytes)
    requires IndexTar(b).Indexed?
    ensures LayerAccepted(cfg, b) <==> forall k :: 0 <= k < |ItemsOf(b)| ==> AcceptsPath(cfg, ItemsOf(b)[k].path)
  {
    hide IndexTar, ItemsOf, AcceptsPath;
  }

  lemma ItemPaths(b: Bytes, es: seq<LayerEntry>)
    requires IndexTar(b) == Indexed(es)
    ensures |ItemsOf(b)| == |es| && forall k :: 0 <= k < |es| ==> ItemsOf(b)[k].path == Split(es[k].path)
  {
    hide IndexTar, Split;
  }

  lemma ItemFor(b: Bytes, es: seq<LayerEntry>, x: LayerEntry) returns (k: nat)
    requires |ItemsOf(b)| == |es| && (forall k :: 0 <= k < |es| ==> ItemsOf(b)[k].path == Split(es[k].path)) && x in es
    ensures k < |ItemsOf(b)| && ItemsOf(b)[k].path == Split(x.path)
  {
    hide ItemsOf, Split;
    k :| 0 <= k < |es| && es[k] == x;
  }

  /** A recorded node passes unless it is misread. */
  lemma NodePasses(cfg: Config, p: Path, n: Node)
    requires cfg.Captures(p) && ValidPath(p) && p != [] && Rests(p, n)
    ensures !LegibleName(p, n) ==> BOM <= p[0]
    ensures EntryPasses(cfg, ToTar(p, n)) <==> LegibleName(p, n) || Unmark(p) == [] || AcceptsPath(cfg, Unmark(p))
  {
    ReadsAt(p, n);
    ReadAtIs(p, n);
    hide Split, ReadPath, Reported, Render, Rests, ToTar, MarkedName, Unmark, ReadAt, Config.Captures;
  }

  /** Nodes of one kind are written under one name. */
  lemma KindPasses(cfg: Config, p: Path, n: Node)
    ensures EntryPasses(cfg, ToTar(p, n)) <==> EntryPasses(cfg, ToTar(p, LeafLike(n)))
    ensures LegibleName(p, n) <==> LegibleName(p, LeafLike(n))
  {
    hide Split, Render, AcceptsPath, NormalizeTarPath;
  }

  /** A marker passes unless it is excluded where it is read as itself, and unless it is misread. */
  lemma MarkerPasses(cfg: Config, p: Path)
    requires cfg.Captures(p) && ValidPath(p) && p != [] && Rests(WhiteoutPathFor(p), MARKER_FILE)
    ensures var w := WhiteoutPathFor(p);
      && w != [] && (!LegibleMarker(p) ==> BOM <= w[0])
      && (EntryPasses(cfg, MarkerTar(p)) <==>
            if LegibleMarker(p) then w !in cfg.exclude else Unmark(w) == [] || AcceptsPath(cfg, Unmark(w)))
  {
    MarkerIs(p);
    MarkerCaptured(cfg, p);
    var w := WhiteoutPathFor(p);
    ReadsAt(w, MARKER_FILE);
    ReadAtIs(w, MARKER_FILE);
    hide Split, ReadPath, Reported, Render, Rests, ToTar, MarkedName, Unmark, ReadAt, Config.Captures, MarkerTar, WhiteoutPathFor, AcceptsPath;
  }

  lemma RecordableRests(cfg: Config, p: Path, n: Node)
    requires Recordable(cfg, p, n) && IsLeaf(n)
    ensures cfg.Captures(p) && ValidPath(p) && p != [] && Rests(p, n) && Rests(WhiteoutPathFor(p), MARKER_FILE)
  {
    RecordableParts(cfg, p, n);
    LeafReadable(n);
    hide *;
    NodeStorable(p, n);
    MarkerStorable(p);
    IsPackable(p, n);
    PackableRests(p, n);
  }

  lemma RecordableParts(cfg: Config, p: Path, n: Node)
    requires Recordable(cfg, p, n)
    ensures cfg.Captures(p) && ValidPath(p) && p != [] && Sized(p, n) && !WhiteoutName(Base(p)) && |Overrides(MarkerTar(p))| < Pow(8, 11)
  {
    hide Config.Captures, Standing, ToTar, MarkerTar, Overrides, Pow;
  }

  lemma LeafReadable(n: Node)
    requires IsLeaf(n)
    ensures Readable(n, false) && Readable(WithReadable(n), false)
  {
    OpenBits();
    OwnerAllBits(OWNER_RWX);
  }

  lemma IsPackable(p: Path, n: Node)
    requires ValidPath(p) && p != [] && !WhiteoutName(Base(p)) && Storable(ToTar(p, n)) && Storable(MarkerTar(p))
    ensures Packable(p, n)
  {
    hide Storable, ToTar, MarkerTar;
  }

  // --- what it does to a diff ---------------------------------------------------------------------------------

  /** An earlier capture, or nothing before the first snapshot. */
  ghost predicate Earlier(cfg: Config, before: Tree) {
    before == map[] || exists t :: Capturable(cfg, t) && before == cfg.Captured(t)
  }

  /** The diff from an earlier capture to one of `u`, as `create` lists it. */
  ghost predicate Follows(cfg: Config, before: Tree, u: Tree, plain: seq<Path>, gone: seq<Path>) {
    Earlier(cfg, before) && Capturable(cfg, u) && ListsDiff(before, cfg.Captured(u), plain, gone)
  }

  ghost function LayerOf(cfg: Config, u: Tree, plain: seq<Path>, gone: seq<Path>): Bytes
    requires forall p :: p in plain ==> p in cfg.Captured(u)
  {
    WriteTar(DiffTar(cfg.Captured(u), plain, gone))
  }

  /** Every changed node and every marker passes. */
  ghost predicate DiffPasses(cfg: Config, before: Tree, now: Tree) {
    && (forall p :: p in now && (p !in before || before[p] != now[p]) ==> EntryPasses(cfg, ToTar(p, now[p])))
    && (forall p :: p in before && p !in now ==> EntryPasses(cfg, MarkerTar(p)))
  }

  lemma ListedPasses(cfg: Config, before: Tree, now: Tree, plain: seq<Path>, gone: seq<Path>)
    requires Carries(cfg, before) && Carries(cfg, now) && ListsDiff(before, now, plain, gone)
    ensures forall p :: p in plain ==> p in now
    ensures LayerAccepted(cfg, WriteTar(DiffTar(now, plain, gone))) <==> DiffPasses(cfg, before, now)
  {
    PlainListed(before, now, plain, gone);
    var es := DiffTar(now, plain, gone);
    hide *;
    ListedStorable(cfg, before, now, plain, gone);
    LayerPasses(cfg, es);
    EntriesPass(cfg, before, now, plain, gone);
  }

  lemma ListedStorable(cfg: Config, before: Tree, now: Tree, plain: seq<Path>, gone: seq<Path>)
    requires Carries(cfg, before) && Carries(cfg, now) && ListsDiff(before, now, plain, gone) && forall p :: p in plain ==> p in now
    ensures AllStorable(DiffTar(now, plain, gone))
  {
    hide Packable, Storable, ValidPath, Config.Captures, DiffTar;
    forall p | p in gone ensures p != [] && ValidPath(p) && Storable(MarkerTar(p)) { ShapeAt(cfg, before, p); }
    AllPacked(now, plain, gone);
  }

  lemma EntriesPass(cfg: Config, before: Tree, now: Tree, plain: seq<Path>, gone: seq<Path>)
    requires ListsDiff(before, now, plain, gone) && forall p :: p in plain ==> p in now
    ensures var es := DiffTar(now, plain, gone);
      (forall i :: 0 <= i < |es| ==> EntryPasses(cfg, es[i])) <==> DiffPasses(cfg, before, now)
  {
    hide EntryPasses, ToTar, MarkerTar;
    var es := DiffTar(now, plain, gone);
    if forall i :: 0 <= i < |es| ==> EntryPasses(cfg, es[i]) {
      forall p | p in plain ensures EntryPasses(cfg, ToTar(p, now[p])) {
        var i :| 0 <= i < |plain| && plain[i] == p;
        assert es[i] == ToTar(p, now[p]);
      }
      forall p | p in gone ensures EntryPasses(cfg, MarkerTar(p)) {
        var i :| 0 <= i < |gone| && gone[i] == p;
        assert es[|plain| + i] == MarkerTar(p);
      }
    }
    if DiffPasses(cfg, before, now) {
      forall i | 0 <= i < |es| ensures EntryPasses(cfg, es[i]) {
        if i < |plain| { assert plain[i] in plain; } else { assert gone[i - |plain|] in gone; }
      }
    }
  }

  lemma EarlierShape(cfg: Config, before: Tree)
    requires Earlier(cfg, before)
    ensures Carries(cfg, before) && (before != map[] ==> Shape(cfg, before))
  {
    hide Capturable, Packable, Config.Captures, Laid;
    if before != map[] {
      var t :| Capturable(cfg, t) && before == cfg.Captured(t);
      CaptureShape(cfg, t);
      ShapeIs(cfg, before);
    }
  }

  lemma CaptureShape(cfg: Config, t: Tree)
    requires Capturable(cfg, t)
    ensures Shape(cfg, cfg.Captured(t))
  {
    hide Shape, Walkable, WellFormed, Sized, Config.Captures;
    WalkShape(cfg, t);
  }

  lemma FollowsListed(cfg: Config, before: Tree, u: Tree, plain: seq<Path>, gone: seq<Path>)
    requires Follows(cfg, before, u, plain, gone)
    ensures forall p :: p in plain ==> p in cfg.Captured(u)
    ensures (before != map[] ==> Shape(cfg, before)) && Shape(cfg, cfg.Captured(u))
    ensures LayerAccepted(cfg, LayerOf(cfg, u, plain, gone)) <==> DiffPasses(cfg, before, cfg.Captured(u))
  {
    hide Earlier, Capturable, ListsDiff, Shape, Carries, LayerAccepted, DiffPasses, WriteTar, DiffTar, Config.Captures;
    EarlierShape(cfg, before);
    CaptureShape(cfg, u);
    ShapeIs(cfg, cfg.Captured(u));
    ListedPasses(cfg, before, cfg.Captured(u), plain, gone);
  }

  /** Nothing hidden and nothing misread: the diff passes. */
  lemma NoneFails(cfg: Config, before: Tree, now: Tree)
    requires (before != map[] ==> Shape(cfg, before)) && Shape(cfg, now)
    requires (forall e :: e in cfg.exclude ==> !Hides(cfg, e)) && forall p :: !Misreads(cfg, p)
    ensures DiffPasses(cfg, before, now)
  {
    hide Shape, Recordable, Deletable, EntryPasses, LegibleName, LegibleMarker, Unmark, AcceptsPath, WhiteoutPathFor, ValidPath, Config.Captures, Rests, MarkerTar, ToTar, LeafLike;
    forall p | p in now ensures EntryPasses(cfg, ToTar(p, now[p])) {
      var n := LeafLike(now[p]);
      ShapeRecords(cfg, now, p);
      LeafIs(now[p]);
      RecordableRests(cfg, p, n);
      KindPasses(cfg, p, now[p]);
      NodePasses(cfg, p, n);
      assert !Misreads(cfg, p);
    }
    forall p | p in before && p !in now ensures EntryPasses(cfg, MarkerTar(p)) {
      ShapeDeletes(cfg, before, now, p);
      DeletableRests(cfg, p);
      MarkerPasses(cfg, p);
      MarkerUnmarked(p);
      assert !Misreads(cfg, p);
    }
  }

  lemma LeafIs(n: Node)
    ensures IsLeaf(LeafLike(n)) && (LeafLike(n) == OPEN_DIR || LeafLike(n) == EMPTY_FILE)
  {
  }

  lemma DeletableRests(cfg: Config, p: Path)
    requires Deletable(cfg, p)
    ensures cfg.Captures(p) && ValidPath(p) && p != [] && Rests(WhiteoutPathFor(p), MARKER_FILE)
  {
    hide Recordable, ValidPath, Config.Captures, Rests, WhiteoutPathFor, Config.Implicit;
    RecordableRests(cfg, p, if Recordable(cfg, p, OPEN_DIR) then OPEN_DIR else EMPTY_FILE);
  }

  // --- examples that fail --------------------------------------------------------------------------------------

  /** The diff of a first snapshot with `p` in it fails when `p` is misread as `n`. */
  lemma FirstFails(cfg: Config, p: Path, n: Node)
    requires MisreadsNode(cfg, p, n) && IsLeaf(n)
    ensures Capturable(cfg, Grown(cfg, p, n)) && !DiffPasses(cfg, map[], cfg.Captured(Grown(cfg, p, n)))
  {
    assert Recordable(cfg, p, n);
    var t := Grown(cfg, p, n);
    assert Example(cfg, p, n, t);
    ExampleCapturable(cfg, p, n, t);
    RecordableRests(cfg, p, n);
    NodePasses(cfg, p, n);
    GrownHas(cfg, p, n);
    hide *;
    HasFailing(cfg, cfg.Captured(t), p);
  }

  lemma GrownHas(cfg: Config, p: Path, n: Node)
    requires cfg.Captures(p)
    ensures p in cfg.Captured(Grown(cfg, p, n)) && cfg.Captured(Grown(cfg, p, n))[p] == n
  {
    hide Config.Captures, Trunk;
  }

  lemma HasFailing(cfg: Config, now: Tree, p: Path)
    requires p in now && !EntryPasses(cfg, ToTar(p, now[p]))
    ensures !DiffPasses(cfg, map[], now)
  {
    hide EntryPasses, ToTar;
  }

  /** A node `p` can be recorded as before it goes. */
  function LeafOf(cfg: Config, p: Path): Node {
    if Recordable(cfg, p, OPEN_DIR) then OPEN_DIR else EMPTY_FILE
  }

  /** The diff that deletes just `p` fails when its marker does. */
  lemma SecondFails(cfg: Config, p: Path)
    requires Deletable(cfg, p) && !EntryPasses(cfg, MarkerTar(p))
    ensures var t, u := Grown(cfg, p, LeafOf(cfg, p)), Bare(cfg, p);
      Capturable(cfg, t) && Capturable(cfg, u) && !DiffPasses(cfg, cfg.Captured(t), cfg.Captured(u))
  {
    var n := LeafOf(cfg, p);
    var t, u := Grown(cfg, p, n), Bare(cfg, p);
    LeafRecords(cfg, p);
    assert Example(cfg, p, n, t) && Example(cfg, p, n, u);
    ExampleCapturable(cfg, p, n, t);
    ExampleCapturable(cfg, p, n, u);
    TrunkClosed(cfg, p);
    GrownHas(cfg, p, n);
    OneMore(cfg, p, n);
    hide *;
    NotCaptured(cfg, u, p);
    LosesFailing(cfg, cfg.Captured(t), cfg.Captured(u), p);
  }

  lemma LeafRecords(cfg: Config, p: Path)
    requires Deletable(cfg, p)
    ensures IsLeaf(LeafOf(cfg, p)) && Recordable(cfg, p, LeafOf(cfg, p)) && cfg.Captures(p) && !cfg.Implicit(p)
  {
    hide Config.Captures, Config.Implicit, Standing, Sized, AcceptsName;
  }

  lemma NotCaptured(cfg: Config, t: Tree, p: Path)
    requires p !in t
    ensures p !in cfg.Captured(t)
  {
    hide Config.Captures;
  }

  lemma LosesFailing(cfg: Config, before: Tree, now: Tree, p: Path)
    requires p in before && p !in now && !EntryPasses(cfg, MarkerTar(p))
    ensures !DiffPasses(cfg, before, now)
  {
    hide EntryPasses, MarkerTar;
  }

  /** An excluded marker or a misread marker fails. */
  lemma MarkerFails(cfg: Config, p: Path)
    requires Deletable(cfg, p) && (MisreadsMarker(cfg, p) || (LegibleMarker(p) && WhiteoutPathFor(p) in cfg.exclude))
    ensures !EntryPasses(cfg, MarkerTar(p))
  {
    hide Recordable, EntryPasses, LegibleMarker, Unmark, AcceptsPath, WhiteoutPathFor, ValidPath, Config.Captures, Rests, MarkerTar;
    DeletableRests(cfg, p);
    MarkerPasses(cfg, p);
  }

  // --- every diff is accepted, or some is not --------------------------------------------------------------

  ghost predicate AllAccepted(cfg: Config) {
    forall before, u, plain, gone :: Follows(cfg, before, u, plain, gone) ==>
      (forall p :: p in plain ==> p in cfg.Captured(u)) && LayerAccepted(cfg, LayerOf(cfg, u, plain, gone))
  }

  lemma {:induction false} ListSet(s: set<Path>) returns (q: seq<Path>)
    ensures Lists(q, s)
    decreases s
  {
    if s == {} {
      q := [];
    } else {
      var p :| p in s;
      var rest := ListSet(s - {p});
      q := rest + [p];
    }
  }

  /** Some listing of the diff between two trees. */
  lemma DiffListing(before: Tree, now: Tree) returns (plain: seq<Path>, gone: seq<Path>)
    ensures ListsDiff(before, now, plain, gone)
  {
    plain := ListSet(set p | p in now && (p !in before || before[p] != now[p]));
    gone := ListSet(set p | p in before && p !in now);
  }

  lemma SomeRefused(cfg: Config, before: Tree, u: Tree)
    requires Earlier(cfg, before) && Capturable(cfg, u) && !DiffPasses(cfg, before, cfg.Captured(u))
    ensures !AllAccepted(cfg)
  {
    hide Earlier, Capturable, DiffPasses, LayerAccepted, LayerOf, ListsDiff, Config.Captures;
    var plain, gone := DiffListing(before, cfg.Captured(u));
    assert Follows(cfg, before, u, plain, gone);
    FollowsListed(cfg, before, u, plain, gone);
  }

  lemma EarlierIs(cfg: Config, t: Tree)
    ensures Earlier(cfg, map[]) && (Capturable(cfg, t) ==> Earlier(cfg, cfg.Captured(t)))
  {
    hide Capturable, Config.Captures;
  }

  /**
   * The preflight accepts the layer of every diff between captures if and only if no excluded path hides a
   * marker and no path is misread as a refused one.
   */
  lemma AcceptedIff(cfg: Config)
    ensures AllAccepted(cfg) <==> (forall e :: e in cfg.exclude ==> !Hides(cfg, e)) && forall p :: !Misreads(cfg, p)
  {
    hide *;
    if e :| e in cfg.exclude && Hides(cfg, e) {
      HidesDeletable(cfg, e);
      MarkerFails(cfg, Unmarked(e));
      DeletionRefused(cfg, Unmarked(e));
    } else if p :| Misreads(cfg, p) {
      MisreadRefused(cfg, p);
    } else {
      forall before, u, plain, gone | Follows(cfg, before, u, plain, gone)
        ensures (forall p :: p in plain ==> p in cfg.Captured(u)) && LayerAccepted(cfg, LayerOf(cfg, u, plain, gone))
      {
        FollowsListed(cfg, before, u, plain, gone);
        NoneFails(cfg, before, cfg.Captured(u));
      }
      AcceptedIs(cfg);
    }
  }

  lemma AcceptedIs(cfg: Config)
    requires forall before, u, plain, gone :: Follows(cfg, before, u, plain, gone) ==>
      (forall p :: p in plain ==> p in cfg.Captured(u)) && LayerAccepted(cfg, LayerOf(cfg, u, plain, gone))
    ensures AllAccepted(cfg)
  {
    hide Follows, LayerAccepted, LayerOf, Config.Captures;
  }

  lemma DeletionRefused(cfg: Config, p: Path)
    requires Deletable(cfg, p) && !EntryPasses(cfg, MarkerTar(p))
    ensures !AllAccepted(cfg)
  {
    hide *;
    var t := Grown(cfg, p, LeafOf(cfg, p));
    SecondFails(cfg, p);
    EarlierIs(cfg, t);
    SomeRefused(cfg, cfg.Captured(t), Bare(cfg, p));
  }

  lemma MisreadRefused(cfg: Config, p: Path)
    requires Misreads(cfg, p)
    ensures !AllAccepted(cfg)
  {
    hide MisreadsNode, AllAccepted, Deletable, Capturable, DiffPasses, EntryPasses;
    EarlierIs(cfg, map[]);
    if MisreadsMarker(cfg, p) {
      MarkerFails(cfg, p);
      DeletionRefused(cfg, p);
    } else {
      var n := if MisreadsNode(cfg, p, OPEN_DIR) then OPEN_DIR else EMPTY_FILE;
      FirstFails(cfg, p, n);
      SomeRefused(cfg, map[], Grown(cfg, p, n));
    }
  }

  lemma HidesDeletable(cfg: Config, e: Path)
    requires e in cfg.exclude && Hides(cfg, e)
    ensures e != [] && WhiteoutName(Base(e)) && Deletable(cfg, Unmarked(e)) && LegibleMarker(Unmarked(e)) && WhiteoutPathFor(Unmarked(e)) in cfg.exclude
  {
    UnmarkedMarker(e);
  }

  /** Where no root is "/" or starts with a mark nothing is misread. */
  lemma NothingMisread(cfg: Config, p: Path)
    requires PlainRoots(cfg)
    ensures !Misreads(cfg, p)
  {
    hide Unmark, AcceptsPath, LegibleName, LegibleMarker, Standing, Sized, AcceptsName, Config.Excluded, Config.Implicit;
    if cfg.Captures(p) {
      var r :| r in cfg.roots && Above(r, p);
      assert p[..|r|][0] == p[0];
      var w := WhiteoutPathFor(p);
      assert |p| > |r| > 0 && w[0] == p[0];
    }
  }

  // --- what opens -----------------------------------------------------------------------------------------

  lemma NoneHidden(cfg: Config, before: Tree, now: Tree)
    requires Shape(cfg, before) && Shape(cfg, now) && NamesLegible(before) && forall e :: e in cfg.exclude ==> !Hides(cfg, e)
    ensures Markable(cfg, before, now)
  {
    hide Deletable, Shape, LegibleName, LegibleMarker;
    forall p | p in before && p !in now ensures WhiteoutPathFor(p) !in cfg.exclude {
      ShapeDeletes(cfg, before, now, p);
      assert p != [] && ValidPath(p) by { DeletableRests(cfg, p); }
      LegibleIs(p, before[p]);
      MarkerUnmarked(p);
    }
  }

  /** Without hidden markers, and with legible names on the way, a snapshot opens if and only if its links are legible. */
  lemma IntactOpens(s: State, id: Id)
    requires Kept(s) && Intact(s.manifests, id) && id in s.shown && forall e :: e in s.cfg.exclude ==> !Hides(s.cfg, e)
    ensures id in s.walked && (Opens(s, id) <==> LinksLegible(s.walked[id]))
  {
    hide *;
    var c := ChainOf(s.manifests, id);
    InManifests(s.manifests, c);
    KeptParts(s);
    forall i | 0 <= i < |c| ensures StepOpens(s, c[i]) {
      if i > 0 { ShownBelow(s, c, i - 1); }
      StepMarkable(s, c, i);
    }
    MarkersOpenIs(s, c);
    FiledParts(s, id);
    OpensIs(s, id);
  }

  ghost function ChainOf(ms: Manifests, id: Id): (c: seq<Id>)
    requires Intact(ms, id)
    ensures IsChain(ms, c) && c != [] && Last(c) == id
  {
    var c :| IsChain(ms, c) && Last(c) == id; c
  }

  lemma StepMarkable(s: State, c: seq<Id>, i: nat)
    requires (forall id :: id in s.manifests ==> Filed(s, id)) && IsChain(s.manifests, c) && i < |c|
    requires i > 0 ==> c[i - 1] in s.shown
    requires forall e :: e in s.cfg.exclude ==> !Hides(s.cfg, e)
    ensures StepOpens(s, c[i])
  {
    hide Hides, Shape, Markable, Filed, NamesLegible, Fades, LayerAccepted;
    FiledParts(s, c[i]);
    if i == 0 {
      NothingGone(s.cfg, s.walked[c[0]], s.walked[c[0]]);
    } else {
      FiledParts(s, c[i - 1]);
      NoneHidden(s.cfg, s.walked[c[i - 1]], s.walked[c[i]]);
    }
  }

  /** With plain roots this decides every intact snapshot. */
  lemma PlainOpens(s: State, id: Id)
    requires Kept(s) && Intact(s.manifests, id) && PlainRoots(s.cfg) && forall e :: e in s.cfg.exclude ==> !Hides(s.cfg, e)
    ensures id in s.walked && (Opens(s, id) <==> LinksLegible(s.walked[id]))
  {
    hide *;
    KeptParts(s);
    var c := ChainOf(s.manifests, id);
    InManifests(s.manifests, c);
    IntactOpens(s, id);
  }

  // --- what does not -----------------------------------------------------------------------------------------

  lemma RefusedLayer(s: State, id: Id, before: Tree, now: Tree)
    requires Kept(s) && Intact(s.manifests, id) && id in s.manifests && HoldsDiff(s.manifests[id], before, now)
    requires Carries(s.cfg, before) && Carries(s.cfg, now) && !DiffPasses(s.cfg, before, now)
    ensures !Opens(s, id)
  {
    hide *;
    var c := ChainOf(s.manifests, id);
    DiffRefused(s.cfg, s.manifests[id], before, now);
    IntactIsAcceptable(s, c);
    if Opens(s, id) { LastAccepted(s, c); }
  }

  lemma DiffRefused(cfg: Config, m: Manifest, before: Tree, now: Tree)
    requires HoldsDiff(m, before, now) && Carries(cfg, before) && Carries(cfg, now) && !DiffPasses(cfg, before, now)
    ensures !LayerAccepted(cfg, m.diffId.content)
  {
    hide Carries, DiffPasses, LayerAccepted, ListsDiff, WriteTar, DiffTar;
    var plain, gone :| ListsDiff(before, now, plain, gone) && (forall p :: p in plain ==> p in now) && m.diffId == Sha256(WriteTar(DiffTar(now, plain, gone)));
    ListedPasses(cfg, before, now, plain, gone);
  }

  lemma LastAccepted(s: State, c: seq<Id>)
    requires IsChain(s.manifests, c) && Last(c) in s.manifests && Last(c) in s.indexes && Last(c) in s.walked
    requires Acceptable(s.cfg, ChainBytes(s.manifests, c), s.manifests[Last(c)], s.indexes[Last(c)], s.walked[Last(c)])
    ensures LayerAccepted(s.cfg, s.manifests[Last(c)].diffId.content)
  {
    hide LayerAccepted, Holds, ValidSaved, LinksValid, IndexOfTree, AcceptsPath;
    var bs := ChainBytes(s.manifests, c);
    assert bs[|c| - 1] == s.manifests[Last(c)].diffId.content;
  }

  /** Two captures whose diff fails make an intact snapshot that no restore can open; the first may be none. */
  method Closed(cfg: Config, t: Option<Tree>, u: Tree) returns (m: SnapshotManager)
    requires (t.Some? ==> Capturable(cfg, t.value)) && Capturable(cfg, u)
    requires !DiffPasses(cfg, if t.Some? then cfg.Captured(t.value) else map[], cfg.Captured(u))
    ensures fresh(m) && m.cfg == cfg && m.Valid() && m.head == Some(1) && Intact(m.manifests, 1) && !Opens(m.Now(), 1)
  {
    hide *;
    m := new SnapshotManager(cfg);
    ghost var before: Tree := map[];
    NothingCarried(cfg);
    if t.Some? {
      CapturableIs(cfg, t.value);
      var first := m.Create(t.value, 0, false);
      before := cfg.Captured(t.value);
      CaptureShape(cfg, t.value);
      ShapeIs(cfg, before);
    }
    ParentIs(m.walked, 0);
    NoParent(m.walked);
    CapturableIs(cfg, u);
    CaptureShape(cfg, u);
    ShapeIs(cfg, cfg.Captured(u));
    var second := m.Create(u, 1, false);
    m.NowIs();
    RefusedLayer(m.Now(), 1, before, cfg.Captured(u));
  }

  lemma NoParent(walked: map<Id, Tree>)
    ensures ParentTree(None, walked) == map[]
  {
  }

  lemma CapturableIs(cfg: Config, t: Tree)
    requires Capturable(cfg, t)
    ensures WellFormed(t) && Walkable(t, cfg, false) && forall p :: p in t && cfg.Captures(p) ==> Sized(p, t[p])
  {
  }

  lemma ParentIs(walked: map<Id, Tree>, id: Id)
    ensures id in walked ==> ParentTree(Some(id), walked) == walked[id]
  {
  }

  /** Wherever a link to U+FEFF and more can be captured there is a tree with an illegible link. */
  lemma LinkUnread(cfg: Config, p: Path)
    requires Recordable(cfg, p, LINKED)
    ensures Capturable(cfg, Grown(cfg, p, LINKED)) && !LinksLegible(cfg.Captured(Grown(cfg, p, LINKED)))
  {
    var t := Grown(cfg, p, LINKED);
    assert Example(cfg, p, LINKED, t);
    ExampleCapturable(cfg, p, LINKED, t);
    GrownHas(cfg, p, LINKED);
    LinkLoses();
    hide *;
    Illegible(cfg.Captured(t), p);
  }

  lemma LinkLoses()
    ensures LosesTarget(LINKED)
  {
    LeadIs(BOM + [97]);
  }

  lemma Illegible(t: Tree, p: Path)
    requires p in t && LosesTarget(t[p])
    ensures !LinksLegible(t)
  {
    hide LosesTarget;
  }

  /** A captured tree with an illegible name or link makes a first snapshot that is intact and never opens. */
  method Unread(cfg: Config, t: Tree) returns (m: SnapshotManager)
    requires Capturable(cfg, t) && !(NamesLegible(cfg.Captured(t)) && LinksLegible(cfg.Captured(t)))
    ensures fresh(m) && m.cfg == cfg && m.Valid() && m.head == Some(0) && Intact(m.manifests, 0) && !Opens(m.Now(), 0)
  {
    hide *;
    CapturableIs(cfg, t);
    m := new SnapshotManager(cfg);
    var first := m.Create(t, 0, false);
  }

  // --- such configurations and trees --------------------------------------------------------------------

  const WORK: Path := [[119]]                                // "/w"
  const WORK_X: Path := [[119], [120]]                       // "/w/x"
  const MARKER_X: Path := [[119], [46, 119, 104, 46, 120]]   // "/w/.wh.x"

  /** Excluding the marker of a captured name hides it. */
  lemma MarkerExcluded()
    ensures Hides(Config([WORK], {MARKER_X}), MARKER_X)
  {
    var cfg := Config([WORK], {MARKER_X});
    assert Unmarked(MARKER_X) == WORK_X;
    assert WORK_X[..1] == WORK;
    assert |Lower([119])| == 1 && |META_ROOT| == 8 && |PROC_ROOT| == 4;
    assert cfg.roots[0] == WORK && Above(WORK, WORK_X);
    assert !Above(MARKER_X, WORK_X);
    MarkerMarked(WORK_X);
    LeadIs([119]);
  }

  const DOTS: Name := BOM + [46, 46]           // U+FEFF, then ".."
  /** Under root "/" a file of that name is read as "/..", which the preflight refuses. */
  lemma DotsMisread()
    ensures Misreads(Config([[]], {}), [DOTS])
  {
    DotsRecordable();
    DotsRead();
    hide Recordable, LegibleName, Unmark, AcceptsPath;
  }

  lemma DotsRecordable()
    ensures Recordable(Config([[]], {}), [DOTS], EMPTY_FILE)
  {
    DotsSized();
    DotsNamed();
    DotsCaptured();
    hide Sized, AcceptsName, Config.Captures, RecordsDir;
    RootNotCaptured();
    forall k: nat | k < 1 ensures [DOTS][..k] == [] { }
    forall r: Path, k: nat | r in [[]] && k <= |r| ensures r[..k] == [] { }
  }

  lemma RootNotCaptured()
    ensures !Config([[]], {}).Captures([])
  {
    hide Config.Excluded;
  }

  lemma DotsNamed()
    ensures AcceptsName([DOTS])
  {
    assert DOTS == [0xEF, 0xBB, 0xBF, 46, 46] && DOTS[..4][0] == 0xEF;
  }

  lemma DotsCaptured()
    ensures var cfg := Config([[]], {}); cfg.Captures([DOTS]) && !cfg.Implicit([DOTS])
  {
    var cfg := Config([[]], {});
    assert cfg.roots[0] == [] && Above([], [DOTS]);
    assert |Lower(DOTS)| == 5 && |META_ROOT| == 8 && |PROC_ROOT| == 4;
  }

  lemma DotsSized()
    ensures Sized([DOTS], EMPTY_FILE)
  {
    var p: Path := [DOTS];
    assert Render(p) == [SLASH] + DOTS by { RenderFirst(p); NoRest(); }
    RenderMarker(p);
    assert Pow(8, 11) > 0;
    hide Render, Pow;
  }

  lemma DotsRead()
    ensures var p: Path := [DOTS]; BOM <= p[0] && Unmark(p) == [[46, 46]] && !LegibleName(p, EMPTY_FILE) && !AcceptsPath(Config([[]], {}), Unmark(p))
  {
    var p: Path := [DOTS];
    assert DOTS[3..] == [46, 46] && p[1..] == [];
    assert ValidName(DOTS);
    LegibleIs(p, EMPTY_FILE);
    assert Render(p) == [SLASH] + DOTS by { RenderFirst(p); NoRest(); }
    hide LegibleName, Render;
  }
}
