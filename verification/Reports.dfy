/** What a merge reports, read off the two views: every path changed apart, once, in order, and no other. */
module Reports {
  import opened Bytes
  import opened Paths
  import opened View
  import opened Ancestry
  import opened Order
  import opened PathText
  import opened MergeHeads
  import opened MergedView
  import opened Deletions
  import Ties

  /** Another blob, or another slice of the same one. */
  predicate Differ(a: Register, b: Register) {
    a.descriptor.digest != b.descriptor.digest || a.entry.offset != b.entry.offset || a.entry.size != b.entry.size
  }

  /** A path that both heads hold is reported exactly when they differ, and on the list its merger decides. */
  ghost predicate BothReported(t: Tools, v: Sides, lww: seq<Path>, content: seq<Path>) {
    forall p :: p in v.a.files && p in v.b.files ==>
      && (p in lww <==> Differ(v.a.files[p], v.b.files[p]) && t.merger(p).None?)
      && (p in content <==> Differ(v.a.files[p], v.b.files[p]) && t.merger(p).Some?)
  }

  /** A path that one head lacks is reported when it was in the base and its deletion is clocked, or won over an edit. */
  ghost predicate LoneReported(s: Store, v: Sides, p: Path, present: Register, lacking: Digest, lww: seq<Path>, content: seq<Path>)
    requires Loadable(s, lacking)
  {
    && p !in content
    && (p in lww <==> p in v.base && (Clocked(s, lacking, p) || (Differ(present, v.base[p]) && !Outlives(s, lacking, p, present))))
  }

  ghost predicate OneReported(s: Store, a: Digest, b: Digest, v: Sides, lww: seq<Path>, content: seq<Path>)
    requires Loadable(s, a) && Loadable(s, b)
  {
    && (forall p :: p in v.a.files && p !in v.b.files ==> LoneReported(s, v, p, v.a.files[p], b, lww, content))
    && (forall p :: p in v.b.files && p !in v.a.files ==> LoneReported(s, v, p, v.b.files[p], a, lww, content))
  }

  /** Both lists in string order, so no path twice, and only paths of the heads. */
  ghost predicate Listed(v: Sides, lww: seq<Path>, content: seq<Path>) {
    && Sorted(lww) && Sorted(content) && Distinct(lww) && Distinct(content)
    && forall p :: p in lww || p in content ==> p in v.a.files || p in v.b.files
  }

  // --- the lists -------------------------------------------------------------------------------

  lemma {:induction false} ContentMembers(t: Tools, s: Store, v: Sides, q: seq<Path>)
    requires forall p :: p in q ==> p in v.Paths()
    ensures forall p :: p in ContentPaths(t, s, v, q) <==> p in q && IsContent(t, s, v, p)
  {
    hide Decide;
    if q != [] {
      var n := |q| - 1;
      ContentMembers(t, s, v, q[..n]);
      assert q == q[..n] + [q[n]];
    }
  }

  lemma SortedMore(l: seq<Path>, q: seq<Path>)
    requires q != [] && Sorted(q) && Sorted(l) && forall p :: p in l ==> p in q[..|q| - 1]
    ensures Sorted(l + [q[|q| - 1]])
  {
    hide PathLess;
    forall i | 0 <= i < |l| ensures PathLess(l[i], q[|q| - 1]) {
      assert l[i] in l;
      var j :| 0 <= j < |q| - 1 && q[..|q| - 1][j] == l[i];
      assert q[j] == l[i];
    }
  }

  lemma {:induction false} ListsSorted(t: Tools, s: Store, v: Sides, q: seq<Path>)
    requires Sorted(q) && forall p :: p in q ==> p in v.Paths()
    ensures Sorted(LwwPaths(t, s, v, q)) && Sorted(ContentPaths(t, s, v, q))
  {
    hide Decide, PathLess, IsLww, IsContent;
    if q != [] {
      var rest := q[..|q| - 1];
      ListsSorted(t, s, v, rest);
      Ties.LwwMembers(t, s, v, rest);
      ContentMembers(t, s, v, rest);
      SortedMore(LwwPaths(t, s, v, rest), q);
      SortedMore(ContentPaths(t, s, v, rest), q);
    }
  }

  lemma SortedDistinct(q: seq<Path>)
    requires Sorted(q)
    ensures Distinct(q)
  {
    forall i, j | 0 <= i < j < |q| ensures q[i] != q[j] {
      LessTotal(Render(q[i]), Render(q[j]));
    }
  }

  // --- one path --------------------------------------------------------------------------------

  lemma BothVerdict(t: Tools, s: Store, v: Sides, p: Path)
    requires p in v.a.files && p in v.b.files && !Decide(t, s, v, p).Unreadable?
    ensures p in v.Paths()
    ensures IsLww(t, s, v, p) <==> Differ(v.a.files[p], v.b.files[p]) && t.merger(p).None?
    ensures IsContent(t, s, v, p) <==> Differ(v.a.files[p], v.b.files[p]) && t.merger(p).Some?
  {
    hide NewerOf, FileBytes, JoinActors, Max2;
  }

  lemma LoneVerdict(t: Tools, s: Store, v: Sides, p: Path, present: Register, lacking: Digest)
    requires Loadable(s, lacking) && p in v.Paths()
    requires p in v.a.files ==> p !in v.b.files && present == v.a.files[p] && v.b == ViewOf(s, lacking)
    requires p !in v.a.files ==> p in v.b.files && present == v.b.files[p] && v.a == ViewOf(s, lacking)
    ensures !IsContent(t, s, v, p)
    ensures IsLww(t, s, v, p) <==> p in v.base && (Clocked(s, lacking, p) || (Differ(present, v.base[p]) && !Outlives(s, lacking, p, present)))
  {
    ClockedIff(s, lacking, p);
    OutlivesIff(s, lacking, p, present);
    hide ViewOf, Clocked, Outlives, Stamp, Loadable, BothSides;
  }

  // --- the reports of a merge --------------------------------------------------------------------

  lemma {:induction false} JoinReports(t: Tools, s: Store, a: Digest, b: Digest, v: Sides)
    requires Sortable(v) && Join(t, s, a, b, v).Joined?
    ensures var o := Join(t, s, a, b, v); var q := InOrder(v.Paths());
      && Listed(v, o.lwwPaths, o.contentMergedPaths)
      && (forall p :: p in v.Paths() ==> !Decide(t, s, v, p).Unreadable?)
      && (forall p :: p in v.Paths() ==> (p in o.lwwPaths <==> IsLww(t, s, v, p)))
      && (forall p :: p in v.Paths() ==> (p in o.contentMergedPaths <==> IsContent(t, s, v, p)))
  {
    var q := InOrder(v.Paths());
    var o := Join(t, s, a, b, v);
    ListsMembers(q, v.Paths());
    hide InOrder, NoSlash, Decide, IsLww, IsContent, PathLess, AddWinners, Winners, SortTwo, Sortable, Sorted, Distinct, LwwPaths, ContentPaths, Lists;
    assert o.lwwPaths == LwwPaths(t, s, v, q) && o.contentMergedPaths == ContentPaths(t, s, v, q);
    ListsSorted(t, s, v, q);
    Ties.LwwMembers(t, s, v, q);
    ContentMembers(t, s, v, q);
    SortedDistinct(o.lwwPaths);
    SortedDistinct(o.contentMergedPaths);
  }

  /**
   * Whatever is changed on both sides is reported, as merged by content or as settled by the clocks, and a
   * deletion as it was decided; a path comes once, and nothing else is reported.
   */
  lemma ConflictsReported(t: Tools, s: Store, a: Digest, b: Digest, base: Option<Digest>)
    requires Componentwise(s) && JoinFrom(t, s, a, b, base).Joined?
    ensures Loadable(s, a) && Loadable(s, b) && (base.Some? ==> Loadable(s, base.value))
    ensures var o, v := JoinFrom(t, s, a, b, base), SidesOf(s, a, b, base);
      && Listed(v, o.lwwPaths, o.contentMergedPaths)
      && BothReported(t, v, o.lwwPaths, o.contentMergedPaths)
      && OneReported(s, a, b, v, o.lwwPaths, o.contentMergedPaths)
  {
    JoinedFrom(t, s, a, b, base);
    var o, v := JoinFrom(t, s, a, b, base), SidesOf(s, a, b, base);
    assert v.a == ViewOf(s, a) && v.b == ViewOf(s, b);
    hide *;
    JoinReports(t, s, a, b, v);
    BothFrom(t, s, v, o.lwwPaths, o.contentMergedPaths);
    OneFrom(t, s, a, b, v, o.lwwPaths, o.contentMergedPaths);
  }

  lemma BothFrom(t: Tools, s: Store, v: Sides, lww: seq<Path>, content: seq<Path>)
    requires forall p :: p in v.Paths() ==> !Decide(t, s, v, p).Unreadable?
    requires forall p :: p in v.Paths() ==> (p in lww <==> IsLww(t, s, v, p))
    requires forall p :: p in v.Paths() ==> (p in content <==> IsContent(t, s, v, p))
    ensures BothReported(t, v, lww, content)
  {
    hide Decide, IsLww, IsContent, Differ;
    forall p | p in v.a.files && p in v.b.files
      ensures p in lww <==> Differ(v.a.files[p], v.b.files[p]) && t.merger(p).None?
      ensures p in content <==> Differ(v.a.files[p], v.b.files[p]) && t.merger(p).Some?
    {
      assert p in v.Paths();
      BothVerdict(t, s, v, p);
    }
  }

  lemma OneFrom(t: Tools, s: Store, a: Digest, b: Digest, v: Sides, lww: seq<Path>, content: seq<Path>)
    requires Loadable(s, a) && Loadable(s, b) && v.a == ViewOf(s, a) && v.b == ViewOf(s, b)
    requires forall p :: p in v.Paths() ==> (p in lww <==> IsLww(t, s, v, p))
    requires forall p :: p in v.Paths() ==> (p in content <==> IsContent(t, s, v, p))
    ensures OneReported(s, a, b, v, lww, content)
  {
    hide Decide, IsLww, IsContent, Differ, ViewOf, Loadable, Clocked, Outlives;
    forall p | p in v.a.files && p !in v.b.files ensures LoneReported(s, v, p, v.a.files[p], b, lww, content) {
      assert p in v.Paths();
      LoneVerdict(t, s, v, p, v.a.files[p], b);
    }
    forall p | p in v.b.files && p !in v.a.files ensures LoneReported(s, v, p, v.b.files[p], a, lww, content) {
      assert p in v.Paths();
      LoneVerdict(t, s, v, p, v.b.files[p], a);
    }
  }

  // --- what survives -------------------------------------------------------------------------------

  /** The two names in order, joined by a plus sign. */
  ghost predicate NamesBoth(n: Bytes, x: Bytes, y: Bytes) {
    (n == x + [PLUS] + y && !Less(y, x)) || (n == y + [PLUS] + x && !Less(x, y))
  }

  /** The merger's output on the older and then the newer bytes, with the newer register's clock and mode. */
  ghost predicate Blended(t: Tools, s: Store, p: Path, older: Register, newer: Register, w: Winner)
    requires t.merger(p).Some?
  {
    && w.Fresh? && FileBytes(s, older).Some? && FileBytes(s, newer).Some?
    && w.bytes == t.merger(p).value(FileBytes(s, older).value, FileBytes(s, newer).value)
    && w.mtimeMs == newer.mtimeMs && w.mode == newer.entry.mode && NamesBoth(w.actor, older.actor, newer.actor)
  }

  ghost predicate NotOlder(newer: Register, older: Register) {
    !KeyLess(KeyOf(newer), KeyOf(older))
  }

  /** Of two registers the newer stays, or their blend where they differ and a merger is registered. */
  ghost predicate BothSettled(t: Tools, s: Store, p: Path, a: Register, b: Register, w: Winner) {
    if Differ(a, b) && t.merger(p).Some? then
      (NotOlder(a, b) && Blended(t, s, p, b, a, w)) || (NotOlder(b, a) && Blended(t, s, p, a, b, w))
    else
      (NotOlder(a, b) && w == Keep(a)) || (NotOlder(b, a) && w == Keep(b))
  }

  /** A file of one head stays as it is if it is new there, or was edited after every deletion. */
  ghost predicate LoneSettled(s: Store, v: Sides, p: Path, present: Register, lacking: Digest, winners: map<Path, Winner>)
    requires Loadable(s, lacking)
  {
    && (p in winners <==> p !in v.base || (Differ(present, v.base[p]) && Outlives(s, lacking, p, present)))
    && (p in winners ==> winners[p] == Keep(present))
  }

  ghost predicate Settled(t: Tools, s: Store, a: Digest, b: Digest, v: Sides, winners: map<Path, Winner>)
    requires Loadable(s, a) && Loadable(s, b)
  {
    && (forall p :: p in v.a.files && p in v.b.files ==> p in winners && BothSettled(t, s, p, v.a.files[p], v.b.files[p], winners[p]))
    && (forall p :: p in v.a.files && p !in v.b.files ==> LoneSettled(s, v, p, v.a.files[p], b, winners))
    && (forall p :: p in v.b.files && p !in v.a.files ==> LoneSettled(s, v, p, v.b.files[p], a, winners))
    && (forall p :: p in winners ==> p in v.a.files || p in v.b.files)
  }

  lemma BothWinner(t: Tools, s: Store, p: Path, a: Register, b: Register)
    requires !BothSides(t, s, p, a, b).Unreadable?
    ensures BothSides(t, s, p, a, b).Won? && BothSettled(t, s, p, a, b, BothSides(t, s, p, a, b).winner)
  {
    NewerIsGreater(a, b);
    KeyTotal(KeyOf(a), KeyOf(b));
    LessTotal(a.actor, b.actor);
    hide NewerOf, FileBytes, KeyLess, Less;
    if NewerOf(a, b) == a { NewerClock(a, b); } else { NewerClock(b, a); }
  }

  lemma NewerClock(a: Register, b: Register)
    requires NotOlder(a, b)
    ensures Max2(a.mtimeMs, b.mtimeMs) == a.mtimeMs == Max2(b.mtimeMs, a.mtimeMs)
  {
  }

  lemma LoneWinner(t: Tools, s: Store, v: Sides, p: Path, present: Register, lacking: Digest)
    requires Loadable(s, lacking) && p in v.Paths()
    requires p in v.a.files ==> p !in v.b.files && present == v.a.files[p] && v.b == ViewOf(s, lacking)
    requires p !in v.a.files ==> p in v.b.files && present == v.b.files[p] && v.a == ViewOf(s, lacking)
    ensures LoneSettled(s, v, p, present, lacking, Winners(t, s, v))
  {
    OutlivesIff(s, lacking, p, present);
    hide ViewOf, Outlives, Stamp, Loadable, BothSides;
    assert p in Winners(t, s, v) <==> Decide(t, s, v, p).Won?;
  }

  /** What a merge that succeeds keeps: stated on the two views, their deletions and the base. */
  lemma WinnersSettled(t: Tools, s: Store, a: Digest, b: Digest, base: Option<Digest>)
    requires Componentwise(s) && JoinFrom(t, s, a, b, base).Joined?
    ensures Loadable(s, a) && Loadable(s, b) && (base.Some? ==> Loadable(s, base.value))
    ensures var v := SidesOf(s, a, b, base); Settled(t, s, a, b, v, Winners(t, s, v))
  {
    JoinedFrom(t, s, a, b, base);
    var v := SidesOf(s, a, b, base);
    assert v.a == ViewOf(s, a) && v.b == ViewOf(s, b);
    hide *;
    JoinReports(t, s, a, b, v);
    SettledFrom(t, s, a, b, v);
  }

  lemma SettledFrom(t: Tools, s: Store, a: Digest, b: Digest, v: Sides)
    requires Loadable(s, a) && Loadable(s, b) && v.a == ViewOf(s, a) && v.b == ViewOf(s, b)
    requires forall p :: p in v.Paths() ==> !Decide(t, s, v, p).Unreadable?
    ensures Settled(t, s, a, b, v, Winners(t, s, v))
  {
    hide BothSides, OneSide, BothSettled, LoneSettled, ViewOf, Loadable;
    var winners := Winners(t, s, v);
    forall p | p in v.a.files && p in v.b.files ensures p in winners && BothSettled(t, s, p, v.a.files[p], v.b.files[p], winners[p]) {
      assert p in v.Paths();
      BothWinner(t, s, p, v.a.files[p], v.b.files[p]);
    }
    forall p | p in v.a.files && p !in v.b.files ensures LoneSettled(s, v, p, v.a.files[p], b, winners) {
      assert p in v.Paths();
      LoneWinner(t, s, v, p, v.a.files[p], b);
    }
    forall p | p in v.b.files && p !in v.a.files ensures LoneSettled(s, v, p, v.b.files[p], a, winners) {
      assert p in v.Paths();
      LoneWinner(t, s, v, p, v.b.files[p], a);
    }
  }
}
