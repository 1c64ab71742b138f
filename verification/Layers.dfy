/** Tree nodes as tar entries and back: what a layer's bytes say about each path. */
module Layers {
  import opened Bytes
  import opened Numerals
  import opened Paths
  import opened Filesystem
  import opened Workspace
  import opened View
  import opened Diff
  import opened Tar
  import opened TarRoundTrip
  import opened PathText

  function ToTar(p: Path, n: Node): TarEntry {
    match n
    case File(bytes, mode) => TarEntry(Render(p), FileEntry, bytes, mode as nat, 0, None)
    case Dir(mode) => TarEntry(Render(p), DirEntry, [], mode as nat, 0, None)
    case Symlink(target) => TarEntry(Render(p), SymlinkEntry, [], 0x1FF, 0, Some(target))
  }

  /** The empty file that marks a deletion. */
  function MarkerTar(p: Path): TarEntry {
    TarEntry(Render(WhiteoutPathFor(p)), FileEntry, [], 0x1A4, 0, None)
  }

  function ModeOf(n: nat): Mode {
    (n % 512) as Mode
  }

  /** The node an index entry stands for, sliced out of its layer; nothing for truncated or foreign entries. */
  function NodeAt(bytes: Bytes, e: LayerEntry): Option<Node> {
    if e.mode.NaN? || e.mode.v < 0 || e.mode.v > 0xFFF || e.size.NaN? || e.size.v < 0 then None
    else match e.kind
      case FileEntry =>
        if e.offset + e.size.v <= |bytes| then Some(File(bytes[e.offset..e.offset + e.size.v], ModeOf(e.mode.v))) else None
      case DirEntry => Some(Dir(ModeOf(e.mode.v)))
      case SymlinkEntry => if e.link.Some? then Some(Symlink(e.link.value)) else None
      case HardlinkEntry => None
  }

  function ToItem(e: LayerEntry): Item<LayerEntry> {
    Item(Split(e.path), e.kind.DirEntry?, e)
  }

  function ToItems(es: seq<LayerEntry>): seq<Item<LayerEntry>> {
    seq(|es|, i requires 0 <= i < |es| => ToItem(es[i]))
  }

  /** The replayable items of a layer's bytes; none if the tar cannot be indexed. */
  function ItemsOf(bytes: Bytes): seq<Item<LayerEntry>> {
    var r := IndexTar(bytes);
    if r.NoProgress? then [] else ToItems(r.entries)
  }

  /** What a node reads back as: a link target that fits the header loses a leading mark. */
  function Blur(n: Node): Node {
    match n
    case Symlink(target) => Symlink(if |target| > 100 then target else SkipMark(target))
    case _ => n
  }

  /** The name under which a node is written keeps a leading mark, or has none. */
  predicate LegibleName(p: Path, n: Node) {
    !MarkedName(ToTar(p, n))
  }

  predicate LegibleMarker(p: Path) {
    !MarkedName(MarkerTar(p))
  }

  /** Sizes within the tar format, and names a walk accepts. */
  predicate Packable(p: Path, n: Node) {
    p != [] && ValidPath(p) && Storable(ToTar(p, n)) && Storable(MarkerTar(p)) && !WhiteoutName(Base(p))
  }

  lemma NodeReads(bytes: Bytes, p: Path, n: Node, data: nat)
    requires Packable(p, n) && At(bytes, data, Body(ToTar(p, n)))
    ensures var e := ReadBack(ToTar(p, n), data);
      NodeAt(bytes, e) == Some(Blur(n)) && (e.kind.DirEntry? <==> n.Dir?) && (LegibleName(p, n) ==> Split(e.path) == p)
  {
    hide Storable, Render, Split, ReadPath, MarkedName, NormalPath;
    SplitRender(p);
    StorablePath(ToTar(p, n));
    if LegibleName(p, n) { UnmarkedPath(ToTar(p, n)); }
    match n
    case File(b, m) => ModeRoundTrip(m);
    case Dir(m) => ModeRoundTrip(m);
    case Symlink(t) =>
  }

  lemma StorablePath(e: TarEntry)
    requires Storable(e)
    ensures NormalPath(e.path)
  {
    hide NormalPath, Overrides;
  }

  lemma ModeRoundTrip(m: Mode)
    ensures (m as nat) < 512 && ModeOf((m as nat) % 4096) == m
  {
    ModeBits(m);
    var k := m as nat;
    assert k % 4096 == k && k % 512 == k;
  }

  lemma ModeBits(m: Mode)
    ensures (m as nat) < 512 && (m as nat) as Mode == m
  {
  }

  lemma MarkerReads(p: Path, data: nat)
    requires p != [] && ValidPath(p)
    ensures var e := ReadBack(MarkerTar(p), data);
      !e.kind.DirEntry? && (LegibleMarker(p) ==> Split(e.path) == WhiteoutPathFor(p))
  {
    var w := WhiteoutPathFor(p);
    MarkerIsValid(p);
    SplitRender(w);
    RenderIsNormal(w);
    if LegibleMarker(p) { UnmarkedPath(MarkerTar(p)); }
    hide Render, Split, ReadPath, MarkedName, WhiteoutPathFor, NormalPath;
  }

  lemma MarkerIsValid(p: Path)
    requires p != [] && ValidPath(p)
    ensures ValidPath(WhiteoutPathFor(p)) && WhiteoutPathFor(p) != []
  {
    var w := WhiteoutPathFor(p);
    var base := WHITEOUT_PREFIX + Base(p);
    assert ValidName(Base(p));
    forall b | b in base ensures b in WHITEOUT_PREFIX || b in Base(p) { }
    assert ValidName(base);
    forall i | 0 <= i < |w| ensures ValidName(w[i]) { if i < |w| - 1 { assert w[i] == p[i]; } }
  }

  // --- the tar of a diff ------------------------------------------------------------------------

  function PlainTars(current: Tree, plain: seq<Path>): seq<TarEntry>
    requires forall p :: p in plain ==> p in current
  {
    seq(|plain|, i requires 0 <= i < |plain| => assert plain[i] in plain; ToTar(plain[i], current[plain[i]]))
  }

  function MarkerTars(gone: seq<Path>): seq<TarEntry> {
    seq(|gone|, i requires 0 <= i < |gone| => MarkerTar(gone[i]))
  }

  function DiffTar(current: Tree, plain: seq<Path>, gone: seq<Path>): seq<TarEntry>
    requires forall p :: p in plain ==> p in current
  {
    PlainTars(current, plain) + MarkerTars(gone)
  }

  /** The items of a written diff: nodes for `plain`, markers for `gone`. */
  ghost predicate DecodesTo(bytes: Bytes, items: seq<Item<LayerEntry>>, current: Tree, plain: seq<Path>, gone: seq<Path>)
    requires forall p :: p in plain ==> p in current
  {
    && |items| == |plain| + |gone|
    && (forall i :: 0 <= i < |plain| ==>
          items[i].path == plain[i] && (items[i].dir <==> current[plain[i]].Dir?)
          && NodeAt(bytes, items[i].payload) == Some(Blur(current[plain[i]])))
    && (forall j :: |plain| <= j < |items| ==> items[j].path == WhiteoutPathFor(gone[j - |plain|]) && !items[j].dir)
  }

  lemma DiffDecodes(current: Tree, plain: seq<Path>, gone: seq<Path>)
    requires forall p :: p in plain ==> p in current && Packable(p, current[p]) && LegibleName(p, current[p])
    requires forall p :: p in gone ==> p != [] && ValidPath(p) && Storable(MarkerTar(p)) && LegibleMarker(p)
    ensures var bytes := WriteTar(DiffTar(current, plain, gone));
      && IndexTar(bytes).Indexed?
      && DecodesTo(bytes, ItemsOf(bytes), current, plain, gone)
  {
    hide Storable, WriteTar, IndexTar, NodeAt, ReadBack, ReadBackAll, Split, Packable, MarkerTar, ToTar, WhiteoutPathFor, Reported, LegibleName, LegibleMarker, Blur;
    var tars := DiffTar(current, plain, gone);
    var bytes := WriteTar(tars);
    AllPacked(current, plain, gone);
    AllLegible(current, plain, gone);
    IndexOfWritten(tars);
    ReadBackCount(tars, 0);
    var items := ItemsOf(bytes);
    assert |items| == |tars| == |plain| + |gone|;
    assert bytes[0..|bytes|] == bytes;
    forall i | 0 <= i < |plain|
      ensures items[i].path == plain[i] && (items[i].dir <==> current[plain[i]].Dir?)
      ensures NodeAt(bytes, items[i].payload) == Some(Blur(current[plain[i]]))
    {
      assert plain[i] in plain;
      ContentsOfWritten(bytes, 0, tars, i);
      NodeReads(bytes, plain[i], current[plain[i]], ReadBackAll(tars, 0)[i].offset);
    }
    forall j | |plain| <= j < |items|
      ensures items[j].path == WhiteoutPathFor(gone[j - |plain|]) && !items[j].dir
    {
      assert gone[j - |plain|] in gone;
      ContentsOfWritten(bytes, 0, tars, j);
      MarkerReads(gone[j - |plain|], ReadBackAll(tars, 0)[j].offset);
    }
  }

  lemma AllPacked(current: Tree, plain: seq<Path>, gone: seq<Path>)
    requires forall p :: p in plain ==> p in current && Packable(p, current[p])
    requires forall p :: p in gone ==> p != [] && ValidPath(p) && Storable(MarkerTar(p))
    ensures AllStorable(DiffTar(current, plain, gone))
  {
    hide Storable, MarkerTar, ToTar, ValidPath;
    var tars := DiffTar(current, plain, gone);
    forall i | 0 <= i < |tars|
      ensures Storable(tars[i])
    {
      if i < |plain| {
        assert plain[i] in plain;
      } else {
        assert gone[i - |plain|] in gone;
      }
    }
  }

  lemma AllLegible(current: Tree, plain: seq<Path>, gone: seq<Path>)
    requires forall p :: p in plain ==> p in current && Packable(p, current[p]) && LegibleName(p, current[p])
    requires forall p :: p in gone ==> p != [] && ValidPath(p) && Storable(MarkerTar(p)) && LegibleMarker(p)
    ensures AllReported(DiffTar(current, plain, gone))
  {
    hide Storable, ValidPath, ReadPath, MarkedName, MarkerTar, ToTar, Reported;
    var tars := DiffTar(current, plain, gone);
    forall i | 0 <= i < |tars| ensures Reported(tars[i]) {
      if i < |plain| {
        assert plain[i] in plain;
      } else {
        assert gone[i - |plain|] in gone;
      }
      StorablePath(tars[i]);
      UnmarkedPath(tars[i]);
    }
  }

  // --- where a mark can be ----------------------------------------------------------------------------

  lemma LeadIs(s: Bytes)
    ensures BOM <= s <==> |s| >= 3 && s[0] == 0xEF && s[1] == 0xBB && s[2] == 0xBF
  {
  }

  /** A rendered path starts with a mark when its first component does. */
  lemma MarkLeads(p: Path)
    requires ValidPath(p) && p != []
    ensures |Render(p)| >= 1 && (BOM <= Render(p)[1..] <==> BOM <= p[0])
  {
    RenderHead(p);
    var r, n := Render(p), |p[0]|;
    hide *;
    LeadIs(r[1..]);
    LeadIs(p[0]);
    forall k: nat | k < n ensures r[1..][k] == p[0][k] { assert r[..1 + n][1 + k] == ([SLASH] + p[0])[1 + k]; }
    assert |r| > 1 + n ==> r[1..][n] == SLASH;
  }

  /** Nodes of one kind at one path are legible alike, and a marker is legible where the node is. */
  lemma LegibleIs(p: Path, n: Node)
    requires ValidPath(p) && p != []
    ensures LegibleName(p, n) <==> !(BOM <= p[0] && |Render(p)| <= (if n.Dir? then 100 else 101))
    ensures LegibleName(p, n) ==> LegibleMarker(p)
  {
    RenderHead(p);
    MarkLeads(p);
    NameMarked(p, n);
    MarkerMarked(p);
    hide *;
  }

  lemma NameMarked(p: Path, n: Node)
    requires |Render(p)| >= 1 && Render(p)[0] == SLASH
    ensures LegibleName(p, n) <==> !(BOM <= Render(p)[1..] && |Render(p)| <= (if n.Dir? then 100 else 101))
  {
    var name := Render(p)[1..];
    LeadSlash(name);
    assert name + [] == name;
    hide Render;
  }

  lemma LeadSlash(name: Bytes)
    ensures BOM <= name + [SLASH] <==> BOM <= name
  {
    LeadIs(name);
    LeadIs(name + [SLASH]);
  }

  /** A marker stays unread only where the first component is marked and the whole is short. */
  lemma MarkerMarked(p: Path)
    requires ValidPath(p) && p != []
    ensures LegibleMarker(p) <==> !(|p| > 1 && BOM <= p[0] && |Render(p)| <= 97)
  {
    var w := WhiteoutPathFor(p);
    MarkerIsValid(p);
    MarkLeads(w);
    RenderHead(w);
    RenderMarker(p);
    MarkerName(p);
    hide Render, MarkerTar, WhiteoutPathFor;
    LeadIs(w[0]);
    assert if |p| == 1 then w[0] == WHITEOUT_PREFIX + p[0] && w[0][0] == DOT else w[0] == p[0] by { MarkerHead(p); }
  }

  lemma MarkerHead(p: Path)
    requires p != []
    ensures var w := WhiteoutPathFor(p); w != [] && if |p| == 1 then w[0] == WHITEOUT_PREFIX + p[0] else w[0] == p[0]
  {
  }

  lemma MarkerName(p: Path)
    requires |Render(WhiteoutPathFor(p))| >= 1 && Render(WhiteoutPathFor(p))[0] == SLASH
    ensures LegibleMarker(p) <==> !(BOM <= Render(WhiteoutPathFor(p))[1..] && |Render(WhiteoutPathFor(p))| <= 101)
  {
    var name := Render(WhiteoutPathFor(p))[1..];
    assert name + [] == name;
    hide Render, WhiteoutPathFor;
  }

  lemma RenderMarker(p: Path)
    requires p != []
    ensures |Render(WhiteoutPathFor(p))| == |Render(p)| + 4
  {
    var w := WhiteoutPathFor(p);
    assert w[..|w| - 1] == p[..|p| - 1];
  }
}
