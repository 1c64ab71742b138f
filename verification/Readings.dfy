/** What a written node reads back as when its name starts with a mark, and why a layer can always be read and rewritten. */
module Readings {
  import opened Bytes
  import opened Numerals
  import opened Paths
  import opened Filesystem
  import opened Workspace
  import opened View
  import opened Diff
  import opened Tar
  import opened TarRoundTrip
  import opened PathText
  import opened Layers

  /** A component that the indexer neither splits nor drops. */
  predicate TameName(n: Name) {
    n != [] && n != [DOT] && SLASH !in n && 0 !in n
  }

  predicate Tame(p: Path) {
    p != [] && forall i :: 0 <= i < |p| ==> TameName(p[i])
  }

  lemma ValidIsTame(p: Path)
    requires p != [] && ValidPath(p)
    ensures Tame(p)
  {
  }

  lemma {:induction false} RenderFirst(p: Path)
    requires p != []
    ensures Render(p) == [SLASH] + p[0] + Render(p[1..])
    decreases |p|
  {
    if |p| > 1 {
      var pre, name := p[..|p| - 1], p[|p| - 1];
      RenderFirst(pre);
      assert pre[1..] == p[1..][..|p| - 2];
      var head, r := [SLASH] + p[0], Render(pre[1..]);
      assert head + r + [SLASH] + name == head + (r + [SLASH] + name);
    } else {
      assert Render(p) == [SLASH] + p[0] == [SLASH] + p[0] + Render([]);
    }
  }

  lemma {:induction false} RenderTame(p: Path)
    requires Tame(p)
    ensures var r := Render(p);
      |r| >= 2 && r[0] == SLASH && r[1] == p[0][0] != SLASH && r[|r| - 1] != SLASH && 0 !in r
    ensures Render(p)[1] == DOT ==> |Render(p)| > 2 && Render(p)[2] == p[0][1] != SLASH
  {
    var pre, name := p[..|p| - 1], p[|p| - 1];
    assert TameName(name) && TameName(p[0]);
    assert name[|name| - 1] in name && p[0][0] in p[0];
    if pre == [] {
      assert Render(p) == [SLASH] + name;
      if |name| >= 2 { assert name[1] in name; }
      assert |name| == 1 ==> name == [name[0]];
    } else {
      RenderTame(pre);
    }
  }

  lemma TameIsNormal(p: Path)
    requires Tame(p)
    ensures NormalPath(Render(p))
  {
    RenderTame(p);
    hide Render;
  }

  // --- where a marked name is read --------------------------------------------------------------------

  /** The path under which a marked one is read: the mark goes, and with it a component that was nothing else or only a dot. */
  function Unmark(p: Path): Path
    requires p != [] && BOM <= p[0]
  {
    if p[0][3..] in {[], [DOT]} then p[1..] else [p[0][3..]] + p[1..]
  }

  lemma UnmarkTame(p: Path)
    requires Tame(p) && BOM <= p[0]
    ensures Unmark(p) != [] ==> Tame(Unmark(p))
  {
    var q := p[0][3..];
    assert TameName(p[0]);
    forall b | b in q ensures b in p[0] { }
    forall i | 0 <= i < |p[1..]| ensures TameName(p[1..][i]) { assert p[1..][i] == p[i + 1]; }
  }

  /** Stripping slashes from a name that ends without one, or with one. */
  lemma StripName(s: Bytes)
    requires s == [] || s[|s| - 1] != SLASH
    ensures StripSlashes(s) == s && StripSlashes(s + [SLASH]) == s
  {
    assert (s + [SLASH])[..|s|] == s;
  }

  lemma TailNotSlash(q: Name, rest: Path)
    requires SLASH !in q && (rest == [] || Tame(rest))
    ensures var s := q + Render(rest); s == [] || s[|s| - 1] != SLASH
  {
    if rest != [] {
      RenderTame(rest);
    } else if q != [] {
      assert q[|q| - 1] in q;
    }
    hide Render;
  }

  /** Normalising once trailing slashes are gone. */
  lemma NormalCore(s: Bytes, t: Bytes)
    requires StripSlashes(t) == s
    ensures NormalizeTarPath(t) ==
      var q := if |s| >= 2 && s[0] == DOT && s[1] == SLASH then s[2..] else s;
      if q == [DOT] || q == [] then [SLASH] else if q[0] == SLASH then q else [SLASH] + q
  {
    hide StripSlashes;
  }

  /** Normalising `q` followed by a rendered rest. */
  lemma NormalOf(q: Name, rest: Path, t: Bytes)
    requires SLASH !in q && (rest == [] || Tame(rest))
    requires t == q + Render(rest) || t == q + Render(rest) + [SLASH]
    ensures NormalizeTarPath(t) ==
      if q !in {[], [DOT]} then [SLASH] + q + Render(rest) else if rest == [] then [SLASH] else Render(rest)
  {
    TailNotSlash(q, rest);
    var r := Render(rest);
    StripName(q + r);
    NormalCore(q + r, t);
    if rest == [] { NoRest(); } else { RenderTame(rest); }
    hide *;
    assert rest == [] ==> q + r == q;
    if q == [] {
      assert q + r == r;
    } else if q == [DOT] {
      if rest != [] {
        assert (q + r)[2..] == r[1..] && [SLASH] + r[1..] == r;
        assert r[1..][0] == r[1];
        assert r[1..] != [DOT];
      }
    } else {
      NameStays(q, r);
      assert [SLASH] + (q + r) == [SLASH] + q + r;
    }
  }

  lemma NameStays(q: Name, r: Bytes)
    requires SLASH !in q && q !in {[], [DOT]} && (r == [] || r[0] == SLASH)
    ensures var s := q + r; s[0] != SLASH && s != [DOT] && s != [] && !(|s| >= 2 && s[0] == DOT && s[1] == SLASH)
  {
    assert q[0] in q;
    if |q| >= 2 { assert q[1] in q; } else { assert q == [q[0]]; }
  }

  lemma NoRest()
    ensures Render([]) == []
  {
  }

  /** A short marked name is read under the unmarked path, or not reported when nothing is left of it. */
  lemma MarkedReads(p: Path, n: Node)
    requires Tame(p) && MarkedName(ToTar(p, n))
    ensures BOM <= p[0]
    ensures ReadPath(ToTar(p, n)) == if Unmark(p) == [] then [SLASH] else Render(Unmark(p))
    ensures Reported(ToTar(p, n)) <==> Unmark(p) != []
  {
    MarkInFirst(p, n);
    var q, rest := p[0][3..], p[1..];
    MarkedParts(p, n);
    if rest != [] { RestTame(p); }
    NormalOf(q, rest, ReadName(ToTar(p, n)));
    RenderUnmark(p);
    if Unmark(p) != [] { UnmarkTame(p); RenderTame(Unmark(p)); }
    hide Render, NormalizeTarPath, ToTar, StoredName, Tame, MarkedName;
  }

  /** What is left of a marked name. */
  lemma MarkedParts(p: Path, n: Node)
    requires Tame(p) && MarkedName(ToTar(p, n)) && BOM <= p[0]
    ensures SLASH !in p[0][3..]
    ensures ReadName(ToTar(p, n)) == p[0][3..] + Render(p[1..]) + (if n.Dir? then [SLASH] else [])
  {
    assert TameName(p[0]);
    forall b | b in p[0][3..] ensures b in p[0] { }
    StoredIs(p, n);
    hide Render, ToTar, StoredName, Tame;
    var r, tail := Render(p[1..]), if n.Dir? then [SLASH] else [];
    SkipIs(p[0], r + tail);
    assert p[0] + r + tail == p[0] + (r + tail);
    assert p[0][3..] + r + tail == p[0][3..] + (r + tail);
  }

  lemma RestTame(p: Path)
    requires Tame(p) && p[1..] != []
    ensures Tame(p[1..])
  {
    forall i | 0 <= i < |p[1..]| ensures TameName(p[1..][i]) { assert p[1..][i] == p[i + 1]; }
  }

  lemma StoredIs(p: Path, n: Node)
    requires p != []
    ensures StoredName(ToTar(p, n)) == p[0] + Render(p[1..]) + (if n.Dir? then [SLASH] else [])
  {
    RenderFirst(p);
    var r := Render(p);
    hide Render;
    assert r[1..] == p[0] + Render(p[1..]);
  }

  lemma SkipIs(first: Name, tail: Bytes)
    requires BOM <= first
    ensures SkipMark(first + tail) == first[3..] + tail
  {
    assert (first + tail)[..3] == first[..3];
  }

  /** The mark lies within the first component. */
  lemma MarkInFirst(p: Path, n: Node)
    requires Tame(p) && MarkedName(ToTar(p, n))
    ensures BOM <= p[0]
  {
    StoredIs(p, n);
    var s := StoredName(ToTar(p, n));
    var tail := Render(p[1..]) + (if n.Dir? then [SLASH] else []);
    assert s == p[0] + tail;
    if tail != [] && p[1..] != [] { RestTame(p); RenderTame(p[1..]); }
    hide Render, ToTar, StoredName, Tame;
    LeadIs(s);
    LeadIs(p[0]);
    assert tail != [] ==> tail[0] == SLASH by { if p[1..] == [] { NoRest(); } }
    assert forall k :: 0 <= k < |p[0]| ==> s[k] == p[0][k];
    assert |s| > |p[0]| ==> s[|p[0]|] == tail[0];
  }

  lemma RenderUnmark(p: Path)
    requires p != [] && BOM <= p[0]
    ensures Unmark(p) == [] ==> p[0][3..] in {[], [DOT]} && p[1..] == []
    ensures var q := p[0][3..]; Render(Unmark(p)) == if q in {[], [DOT]} then Render(p[1..]) else [SLASH] + q + Render(p[1..])
  {
    var q := p[0][3..];
    if q !in {[], [DOT]} {
      RenderFirst(Unmark(p));
      assert Unmark(p)[1..] == p[1..];
    }
    hide Render;
  }

  // --- rendering and splitting -------------------------------------------------------------------------

  lemma {:induction false} SplitTame(p: Path)
    requires p == [] || Tame(p)
    ensures Split(Render(p)) == p
  {
    if p != [] {
      var pre, name := p[..|p| - 1], p[|p| - 1];
      assert TameName(name);
      LastSlashIs(Render(pre), name);
      var s := Render(p);
      assert s[..|Render(pre)|] == Render(pre) && s[|Render(pre)| + 1..] == name;
      SplitTame(pre);
      assert p == pre + [name];
    }
  }

  // --- layers that can be read and rewritten --------------------------------------------------------------

  /** A node that a layer can hold at `p`. */
  predicate Rests(p: Path, n: Node) {
    Tame(p) && Storable(ToTar(p, n))
  }

  /** Where a resting node is read. */
  function ReadAt(p: Path, n: Node): Path {
    if p != [] && BOM <= p[0] && !LegibleName(p, n) then Unmark(p) else p
  }

  lemma ReadsAt(p: Path, n: Node)
    requires Rests(p, n)
    ensures var e := ToTar(p, n);
      && (Reported(e) <==> ReadAt(p, n) != [])
      && (Reported(e) ==> Tame(ReadAt(p, n)) && ReadPath(e) == Render(ReadAt(p, n)) && Split(ReadPath(e)) == ReadAt(p, n))
  {
    var e := ToTar(p, n);
    hide ReadPath, Render, Split, Unmark, Storable, Tame;
    assert e.path == Render(p);
    TameNotEmpty(p);
    if MarkedName(e) {
      MarkInFirst(p, n);
      MarkedReads(p, n);
      if Reported(e) { UnmarkTame(p); SplitTame(Unmark(p)); }
    } else {
      TameIsNormal(p);
      UnmarkedPath(e);
      SplitTame(p);
    }
  }

  lemma TameNotEmpty(p: Path)
    requires Tame(p)
    ensures p != []
  {
  }

  /** What is read back can be stored again. */
  lemma ReadRests(p: Path, n: Node)
    requires Rests(p, n) && Reported(ToTar(p, n))
    ensures Rests(ReadAt(p, n), Blur(n))
  {
    ReadsAt(p, n);
    var q := ReadAt(p, n);
    TameIsNormal(q);
    OverridesShrink(p, n);
    BodyBlur(p, q, n);
    StorableIs(ToTar(p, n));
    StorableIs(ToTar(q, Blur(n)));
    LinkBlur(p, q, n);
    hide *;
    assert ToTar(q, Blur(n)).path == Render(q) by { ToTarPath(q, Blur(n)); }
  }

  lemma ToTarPath(p: Path, n: Node)
    ensures ToTar(p, n).path == Render(p) && ToTar(p, n).mtimeMs == 0
  {
  }

  lemma StorableIs(e: TarEntry)
    ensures Storable(e) <==>
      NormalPath(e.path) && |Body(e)| < Pow(8, 11) && |Overrides(e)| < Pow(8, 11) && FloorSeconds(e.mtimeMs) < Pow(8, 11) && 0 !in LinkName(e)
  {
  }

  lemma BodyBlur(p: Path, q: Path, n: Node)
    ensures Body(ToTar(q, Blur(n))) == Body(ToTar(p, n)) && ToTar(q, Blur(n)).mtimeMs == ToTar(p, n).mtimeMs
  {
  }

  lemma LinkBlur(p: Path, q: Path, n: Node)
    ensures 0 !in LinkName(ToTar(p, n)) ==> 0 !in LinkName(ToTar(q, Blur(n)))
  {
  }

  lemma FewerOverrides(e: TarEntry, f: TarEntry)
    requires |StoredName(f)| <= 100 || StoredName(f) == StoredName(e)
    requires f.link == None || |f.link.value| <= 100 || f.link == e.link
    ensures |Overrides(f)| <= |Overrides(e)|
  {
    hide PaxRecord, StoredName;
  }

  lemma OverridesShrink(p: Path, n: Node)
    requires Rests(p, n) && Reported(ToTar(p, n))
    ensures |Overrides(ToTar(ReadAt(p, n), Blur(n)))| <= |Overrides(ToTar(p, n))|
  {
    var q := ReadAt(p, n);
    StoredAlike(p, n);
    BlurLink(p, q, n);
    hide *;
    FewerOverrides(ToTar(p, n), ToTar(q, Blur(n)));
  }

  lemma BlurLink(p: Path, q: Path, n: Node)
    ensures var l := ToTar(q, Blur(n)).link; l == None || |l.value| <= 100 || l == ToTar(p, n).link
  {
    hide Render;
  }

  lemma StoredAlike(p: Path, n: Node)
    requires Rests(p, n) && Reported(ToTar(p, n))
    ensures var s, t := StoredName(ToTar(p, n)), StoredName(ToTar(ReadAt(p, n), Blur(n))); |t| <= 100 || t == s
  {
    var q := ReadAt(p, n);
    ReadsAt(p, n);
    StoredIs(p, n);
    assert Blur(n).Dir? == n.Dir?;
    if q != p {
      assert MarkedName(ToTar(p, n)) && q == Unmark(p);
      UnmarkShort(p);
    }
    hide Render, ToTar, StoredName, Tame, Unmark, Rests, Reported, ReadAt;
    StoredIs(q, Blur(n));
  }

  lemma UnmarkShort(p: Path)
    requires p != [] && BOM <= p[0] && Unmark(p) != []
    ensures var q := Unmark(p); |q[0] + Render(q[1..])| < |p[0] + Render(p[1..])|
  {
    if p[0][3..] in {[], [DOT]} {
      RenderFirst(p[1..]);
    } else {
      assert Unmark(p)[1..] == p[1..];
    }
  }

  lemma UnmarkShorter(p: Path)
    requires p != [] && BOM <= p[0] && Unmark(p) != []
    ensures |Render(Unmark(p))| < |Render(p)|
  {
    RenderFirst(p);
    RenderFirst(Unmark(p));
    UnmarkShort(p);
    hide Render, Unmark;
  }

  /** A layer written from nodes that rest at their paths. */
  ghost predicate Rewritable(b: Bytes) {
    exists es :: AllRest(es) && b == WriteTar(es)
  }

  ghost predicate AllRest(es: seq<TarEntry>) {
    forall i :: 0 <= i < |es| ==> FromNode(es[i])
  }

  ghost predicate FromNode(e: TarEntry) {
    exists p, n :: Rests(p, n) && e == ToTar(p, n)
  }

  /** A written layer can be indexed; every entry is a node that could be written again at the path it is read under. */
  lemma WrittenReads(b: Bytes)
    requires Rewritable(b)
    ensures IndexTar(b).Indexed?
    ensures forall x :: x in ItemsOf(b) ==> x.path == Split(x.payload.path) && NodeAt(b, x.payload).Some? && Rests(x.path, NodeAt(b, x.payload).value)
  {
    hide *;
    var es := WrittenFrom(b);
    RestStorable(es);
    IndexOfWritten(es);
    WholeAt(b);
    ReportsKnown(b, 0, es);
    ItemsIndexed(b, ReadBackAll(es, 0));
    forall x: LayerEntry | x in ReadBackAll(es, 0)
      ensures NodeAt(b, x).Some? && Rests(Split(x.path), NodeAt(b, x).value)
    {
      var e: TarEntry :| e in es && Reported(e) && x == ReadBack(e, x.offset) && At(b, x.offset, Body(e));
      var p, n := NodeOf(es, e);
      NodeBack(b, p, n, x.offset);
    }
  }

  ghost function WrittenFrom(b: Bytes): (es: seq<TarEntry>)
    requires Rewritable(b)
    ensures AllRest(es) && b == WriteTar(es)
  {
    var es :| AllRest(es) && b == WriteTar(es);
    es
  }

  lemma RestStorable(es: seq<TarEntry>)
    requires AllRest(es)
    ensures AllStorable(es)
  {
    hide Storable, Tame, ToTar;
    forall i | 0 <= i < |es| ensures Storable(es[i]) { assert FromNode(es[i]); }
  }

  lemma WholeAt(b: Bytes)
    ensures At(b, 0, b)
  {
    assert b[0..|b|] == b;
  }

  lemma ItemsIndexed(b: Bytes, es: seq<LayerEntry>)
    requires IndexTar(b) == Indexed(es)
    ensures forall x :: x in ItemsOf(b) ==> x.payload in es && x.path == Split(x.payload.path)
  {
    hide IndexTar, Split;
  }

  lemma NodeOf(es: seq<TarEntry>, e: TarEntry) returns (p: Path, n: Node)
    requires AllRest(es) && e in es
    ensures Rests(p, n) && e == ToTar(p, n)
  {
    hide Rests, ToTar;
    var i :| 0 <= i < |es| && es[i] == e;
    assert FromNode(es[i]);
    p, n :| Rests(p, n) && e == ToTar(p, n);
  }

  lemma NodeBack(b: Bytes, p: Path, n: Node, data: nat)
    requires Rests(p, n) && Reported(ToTar(p, n)) && At(b, data, Body(ToTar(p, n)))
    ensures var x := ReadBack(ToTar(p, n), data);
      NodeAt(b, x) == Some(Blur(n)) && Split(x.path) == ReadAt(p, n) && Rests(ReadAt(p, n), Blur(n))
  {
    ReadsAt(p, n);
    ReadRests(p, n);
    BackNode(b, p, n, data);
    hide *;
    ReadBackPath(ToTar(p, n), data);
  }

  lemma ReadBackPath(e: TarEntry, data: nat)
    ensures ReadBack(e, data).path == ReadPath(e)
  {
    hide ReadPath;
  }

  lemma BackNode(b: Bytes, p: Path, n: Node, data: nat)
    requires At(b, data, Body(ToTar(p, n)))
    ensures NodeAt(b, ReadBack(ToTar(p, n), data)) == Some(Blur(n))
  {
    hide Render, ReadPath;
    match n
    case File(c, m) => ModeRoundTrip(m);
    case Dir(m) => ModeRoundTrip(m);
    case Symlink(t) =>
  }

  /** The layer of a diff is written from nodes, its markers being empty files. */
  lemma DiffWritten(current: Tree, plain: seq<Path>, gone: seq<Path>)
    requires forall p :: p in plain ==> p in current && Rests(p, current[p])
    requires forall p :: p in gone ==> Rests(WhiteoutPathFor(p), MARKER_FILE)
    ensures Rewritable(WriteTar(DiffTar(current, plain, gone)))
  {
    hide Rests, WriteTar, WhiteoutPathFor, Render;
    var es := DiffTar(current, plain, gone);
    forall i | 0 <= i < |es| ensures FromNode(es[i]) {
      if i < |plain| {
        assert plain[i] in plain;
        assert es[i] == ToTar(plain[i], current[plain[i]]);
      } else {
        assert gone[i - |plain|] in gone;
        MarkerIs(gone[i - |plain|]);
        assert es[i] == ToTar(WhiteoutPathFor(gone[i - |plain|]), MARKER_FILE);
      }
    }
  }

  const MARKER_FILE: Node := File([], 0x1A4)

  lemma MarkerIs(p: Path)
    ensures MarkerTar(p) == ToTar(WhiteoutPathFor(p), MARKER_FILE)
  {
    assert (0x1A4 as Mode) as nat == 0x1A4;
  }

  lemma PackableRests(p: Path, n: Node)
    requires Packable(p, n)
    ensures Rests(p, n) && Rests(WhiteoutPathFor(p), MARKER_FILE)
  {
    MarkerIsValid(p);
    MarkerIs(p);
    ValidIsTame(p);
    ValidIsTame(WhiteoutPathFor(p));
    hide Storable, ToTar, Tame, WhiteoutPathFor, MarkerTar;
  }
}
