/** When the two orders of a merge start from different ancestors: exactly which merges still agree. */
module Ties {
  import opened Bytes
  import opened Paths
  import opened View
  import opened Ancestry
  import opened Order
  import opened MergeHeads
  import opened MergedView
  import opened Symmetry

  // --- what a winner puts into the manifest ----------------------------------------------------------------

  ghost function ContentIn(ar: Archive, w: Winner): Bytes {
    if w.Keep? then Sub(ar.tar(w.reg.descriptor.digest), w.reg.entry.offset, w.reg.entry.offset + w.reg.entry.size) else w.bytes
  }

  /** The layer descriptor and the diff id of a winner. */
  datatype Part = Part(descriptor: Descriptor, diffId: Bytes)

  ghost function PartOf(t: Tools, ar: Archive, p: Path, w: Winner): Part {
    if Reusable(w) then Part(w.reg.descriptor, w.reg.diffId)
    else
      var b := BuildFor(t, p, w, ContentIn(ar, w));
      Part(b.descriptor, b.diffId)
  }

  /** Two registers of one file in one place contribute different parts exactly when they differ. */
  lemma PartsTell(t: Tools, ar: Archive, s: Store, p: Path, a: Register, b: Register)
    requires WhiteoutTarget(p) == NoWhiteout && Native(s, p, a) && Native(s, p, b) && Reusable(Keep(a)) && Reusable(Keep(b))
    ensures PartOf(t, ar, p, Keep(a)) == PartOf(t, ar, p, Keep(b)) <==> a == b
  {
    if a.descriptor == b.descriptor {
      var es := s.layers[a.descriptor.digest];
      hide FileCount, WhiteoutTarget;
      var i :| 0 <= i < |es| && es[i] == Item(p, false, a.entry);
      var j :| 0 <= j < |es| && es[j] == Item(p, false, b.entry);
      CountOne(es, i, j);
    }
  }

  lemma ContentIs(ar: Archive, s: Store, w: Winner)
    requires Archived(ar, s) && ContentOf(s, w).Some?
    ensures ContentOf(s, w).value == ContentIn(ar, w)
  {
    hide Sub;
  }

  /** A draft lists its winners' parts in order. */
  ghost predicate Lined(t: Tools, ar: Archive, winners: map<Path, Winner>, q: seq<Path>, d: Draft) {
    && Archived(ar, d.store) && |d.layers| == |d.diffIds| == |q|
    && forall i :: 0 <= i < |q| ==> q[i] in winners && Part(d.layers[i], d.diffIds[i]) == PartOf(t, ar, q[i], winners[q[i]])
  }

  lemma {:induction false} DraftLined(t: Tools, ar: Archive, s: Store, winners: map<Path, Winner>, q: seq<Path>)
    requires Archived(ar, s) && Builds(t, ar)
    requires forall p :: p in q ==> p in winners && Ready(s, p, winners[p])
    ensures var d := AddWinners(t, s, winners, q); d.Some? ==> Lined(t, ar, winners, q, d.value)
  {
    hide Ready, AddWinner, PartOf, Archived, Builds;
    if q != [] {
      var n := |q| - 1;
      DraftLined(t, ar, s, winners, q[..n]);
      DraftCarries(t, ar, s, winners, q[..n]);
      var before := AddWinners(t, s, winners, q[..n]);
      assert q[n] in q && q == q[..n] + [q[n]];
      if before.Some? && AddWinner(t, before.value, q[n], winners[q[n]]).Some? {
        DraftedStore(t, ar, s, winners, q[..n], before.value);
        StepStore(t, ar, s, before.value, q[n], winners[q[n]]);
        StepPart(t, ar, before.value, q[n], winners[q[n]]);
      }
    }
  }

  lemma DraftedStore(t: Tools, ar: Archive, s: Store, winners: map<Path, Winner>, q: seq<Path>, d: Draft)
    requires (forall p :: p in q ==> p in winners) && Drafted(t, ar, s, winners, q, d)
    ensures MergedView.Grown(s, d.store) && Archived(ar, d.store)
  {
  }

  lemma StepPart(t: Tools, ar: Archive, d: Draft, p: Path, w: Winner)
    requires Archived(ar, d.store) && AddWinner(t, d, p, w).Some?
    ensures var d', x := AddWinner(t, d, p, w).value, PartOf(t, ar, p, w); d'.layers == d.layers + [x.descriptor] && d'.diffIds == d.diffIds + [x.diffId]
  {
    if !Reusable(w) { ContentIs(ar, d.store, w); }
    hide PutLayer, BuildFor, ContentOf;
  }

  // --- equal parts, equal drafts -----------------------------------------------------------------------------

  /** Registers with one key, or both merged content. */
  predicate Tied(x: Winner, y: Winner) {
    (x.Keep? && y.Keep? && KeyOf(x.reg) == KeyOf(y.reg)) || (x.Fresh? && y.Fresh?)
  }

  lemma {:induction false} SameDraft(t: Tools, ar: Archive, s: Store, w: map<Path, Winner>, w': map<Path, Winner>, q: seq<Path>)
    requires Archived(ar, s) && Builds(t, ar)
    requires forall p :: p in q ==> p in w && p in w' && Ready(s, p, w[p]) && Ready(s, p, w'[p]) && Tied(w[p], w'[p])
    requires forall p :: p in q ==> PartOf(t, ar, p, w[p]) == PartOf(t, ar, p, w'[p])
    requires AddWinners(t, s, w, q).Some? && AddWinners(t, s, w', q).Some?
    ensures AddWinners(t, s, w, q) == AddWinners(t, s, w', q)
  {
    hide Ready, AddWinner, PartOf, Archived, Builds, Tied;
    if q != [] {
      var n := |q| - 1;
      assert q[n] in q;
      SameDraft(t, ar, s, w, w', q[..n]);
      DraftCarries(t, ar, s, w, q[..n]);
      var d := AddWinners(t, s, w, q[..n]).value;
      DraftedStore(t, ar, s, w, q[..n], d);
      SameStep(t, ar, s, d, q[n], w[q[n]], w'[q[n]]);
    }
  }

  lemma SameStep(t: Tools, ar: Archive, s: Store, d: Draft, p: Path, x: Winner, y: Winner)
    requires MergedView.Grown(s, d.store) && Archived(ar, d.store) && Builds(t, ar) && Ready(s, p, x) && Ready(s, p, y) && Tied(x, y)
    requires PartOf(t, ar, p, x) == PartOf(t, ar, p, y)
    requires AddWinner(t, d, p, x).Some? && AddWinner(t, d, p, y).Some?
    ensures AddWinner(t, d, p, x) == AddWinner(t, d, p, y)
  {
    if !Reusable(x) { ContentIs(ar, d.store, x); BuiltKnown(t, ar, p, x); }
    if !Reusable(y) { ContentIs(ar, d.store, y); BuiltKnown(t, ar, p, y); }
    StepPart(t, ar, d, p, x);
    StepPart(t, ar, d, p, y);
    hide WhiteoutTarget, FileCount, Builds, Sub, BuildFor, Archived;
  }

  /** What the builder stores is determined by the digest. */
  lemma BuiltKnown(t: Tools, ar: Archive, p: Path, w: Winner)
    requires Builds(t, ar) && WhiteoutTarget(p) == NoWhiteout
    ensures var b := BuildFor(t, p, w, ContentIn(ar, w)); b.items == ar.items(b.descriptor.digest) && b.tar == ar.tar(b.descriptor.digest)
  {
    hide SoleFile, WhiteoutTarget, Sub;
  }

  // --- equal manifests, equal winners ------------------------------------------------------------------------

  /** The layers of a manifest tell which paths it was made for. */
  lemma SameOrder(t: Tools, ar: Archive, s: Store, w: map<Path, Winner>, w': map<Path, Winner>, q: seq<Path>, q': seq<Path>)
    requires Archived(ar, s) && Builds(t, ar)
    requires (forall p :: p in q ==> p in w && Ready(s, p, w[p])) && (forall p :: p in q' ==> p in w' && Ready(s, p, w'[p]))
    requires AddWinners(t, s, w, q).Some? && AddWinners(t, s, w', q').Some?
    requires AddWinners(t, s, w, q).value.layers == AddWinners(t, s, w', q').value.layers
    ensures q == q'
  {
    hide Ready, Builds, AddWinners;
    var d, d' := AddWinners(t, s, w, q).value, AddWinners(t, s, w', q').value;
    LayerPaths(t, ar, s, w, q, d);
    LayerPaths(t, ar, s, w', q', d');
    hide Archived, OneFile;
    forall i | 0 <= i < |q| ensures q[i] == q'[i] { OnePath(ar.items(d.layers[i].digest), q[i], q'[i]); }
  }

  lemma OnePath(es: seq<Item<Entry>>, p: Path, p': Path)
    requires OneFile(es, p) && OneFile(es, p')
    ensures p == p'
  {
    var e :| e in es && IsFile(e) && e.path == p;
    var i :| 0 <= i < |es| && es[i] == e;
    OneFilePath(es, p', i);
  }

  lemma LayerPaths(t: Tools, ar: Archive, s: Store, w: map<Path, Winner>, q: seq<Path>, d: Draft)
    requires Archived(ar, s) && Builds(t, ar) && (forall p :: p in q ==> p in w && Ready(s, p, w[p]))
    requires AddWinners(t, s, w, q) == Some(d)
    ensures |d.layers| == |q| && forall i :: 0 <= i < |q| ==> OneFile(ar.items(d.layers[i].digest), q[i])
  {
    hide Ready, Builds, AddWinners, OneFile, Carries;
    DraftCarries(t, ar, s, w, q);
    forall i | 0 <= i < |q| ensures OneFile(ar.items(d.layers[i].digest), q[i]) {
      assert q[i] in q;
      CarriedLayer(t, ar, s, d, i, q[i], w[q[i]]);
    }
  }

  // --- reports -------------------------------------------------------------------------------------------------

  lemma {:induction false} LwwMembers(t: Tools, s: Store, v: Sides, q: seq<Path>)
    requires forall p :: p in q ==> p in v.Paths()
    ensures forall p :: p in LwwPaths(t, s, v, q) <==> p in q && IsLww(t, s, v, p)
  {
    hide Decide;
    if q != [] {
      var n := |q| - 1;
      LwwMembers(t, s, v, q[..n]);
      assert q == q[..n] + [q[n]];
    }
  }

  lemma {:induction false} LwwSame(t: Tools, s: Store, v: Sides, w: Sides, q: seq<Path>)
    requires forall p :: p in q ==> p in v.Paths() && p in w.Paths() && (IsLww(t, s, v, p) <==> IsLww(t, s, w, p))
    ensures LwwPaths(t, s, v, q) == LwwPaths(t, s, w, q)
  {
    hide IsLww;
    if q != [] {
      assert q[|q| - 1] in q;
      LwwSame(t, s, v, w, q[..|q| - 1]);
    }
  }

  lemma {:induction false} ContentSame(t: Tools, s: Store, v: Sides, w: Sides, q: seq<Path>)
    requires forall p :: p in q ==> p in v.Paths() && p in w.Paths() && (IsContent(t, s, v, p) <==> IsContent(t, s, w, p))
    ensures ContentPaths(t, s, v, q) == ContentPaths(t, s, w, q)
  {
    hide IsContent;
    if q != [] {
      assert q[|q| - 1] in q;
      ContentSame(t, s, v, w, q[..|q| - 1]);
    }
  }

  // --- two joins of the same paths -----------------------------------------------------------------------------

  /** Two verdicts that leave the same trace in the manifest and in the report. */
  ghost predicate SameTrace(t: Tools, ar: Archive, p: Path, d: Verdict, e: Verdict) {
    match (d, e)
    case (Won(x, l), Won(y, m)) => l == m && PartOf(t, ar, p, x) == PartOf(t, ar, p, y)
    case (Gone(l), Gone(m)) => l == m
    case _ => false
  }

  /** Joins of the same paths, with the same content merges, where a path that is kept in both is kept under one key. */
  ghost predicate Comparable(t: Tools, s: Store, v: Sides, w: Sides) {
    && Sortable(v) && Sortable(w) && v.Paths() == w.Paths()
    && (forall p :: p in v.Paths() ==> (IsContent(t, s, v, p) <==> IsContent(t, s, w, p)))
    && (forall p :: p in Winners(t, s, v) ==> Ready(s, p, Winners(t, s, v)[p]))
    && (forall p :: p in Winners(t, s, w) ==> Ready(s, p, Winners(t, s, w)[p]))
    && (forall p :: p in Winners(t, s, v) && p in Winners(t, s, w) ==> Tied(Winners(t, s, v)[p], Winners(t, s, w)[p]))
  }

  ghost predicate SameTraces(t: Tools, ar: Archive, s: Store, v: Sides, w: Sides)
    requires v.Paths() == w.Paths()
  {
    forall p :: p in v.Paths() ==> SameTrace(t, ar, p, Decide(t, s, v, p), Decide(t, s, w, p))
  }

  lemma JoinsIff(t: Tools, ar: Archive, s: Store, a: Digest, b: Digest, v: Sides, w: Sides)
    requires Archived(ar, s) && Builds(t, ar) && Injective(t) && Comparable(t, s, v, w)
    requires Join(t, s, a, b, v).Joined? && Join(t, s, b, a, w).Joined?
    ensures Join(t, s, a, b, v) == Join(t, s, b, a, w) <==> SameTraces(t, ar, s, v, w)
  {
    ComparableMeans(t, s, v, w);
    hide *;
    WinnersSort(t, s, v);
    WinnersSort(t, s, w);
    var q, wv, ww := InOrder(v.Paths()), Winners(t, s, v), Winners(t, s, w);
    ListsMembers(q, v.Paths());
    ListsMembers(InOrder(wv.Keys), wv.Keys);
    ListsMembers(InOrder(ww.Keys), ww.Keys);
    JoinParts(t, s, a, b, v);
    JoinParts(t, s, b, a, w);
    ContentSame(t, s, v, w, q);
    SortTwoSymmetric(a, b);
    var d, d' := AddWinners(t, s, wv, InOrder(wv.Keys)).value, AddWinners(t, s, ww, InOrder(ww.Keys)).value;
    if SameTraces(t, ar, s, v, w) {
      TracesAgree(t, ar, s, v, w);
      SameDraft(t, ar, s, wv, ww, InOrder(wv.Keys));
      LwwSame(t, s, v, w, q);
    }
    if Join(t, s, a, b, v) == Join(t, s, b, a, w) {
      PublishTells(t, d, d', a, b, LwwPaths(t, s, v, q), ContentPaths(t, s, v, q), LwwPaths(t, s, w, q), ContentPaths(t, s, w, q));
      SameOrder(t, ar, s, wv, ww, InOrder(wv.Keys), InOrder(ww.Keys));
      assert wv.Keys == ww.Keys;
      DraftLined(t, ar, s, wv, InOrder(wv.Keys));
      DraftLined(t, ar, s, ww, InOrder(wv.Keys));
      LinedSame(t, ar, wv, ww, InOrder(wv.Keys), d, d');
      LwwMembers(t, s, v, q);
      LwwMembers(t, s, w, q);
      JoinReadable(t, s, a, b, v);
      JoinReadable(t, s, b, a, w);
      AgreeTraces(t, ar, s, v, w);
    }
  }

  lemma ComparableMeans(t: Tools, s: Store, v: Sides, w: Sides)
    requires Comparable(t, s, v, w)
    ensures Sortable(v) && Sortable(w) && v.Paths() == w.Paths()
    ensures forall p :: p in v.Paths() ==> NoSlash(p) && (IsContent(t, s, v, p) <==> IsContent(t, s, w, p))
    ensures forall p :: p in Winners(t, s, v) ==> Ready(s, p, Winners(t, s, v)[p])
    ensures forall p :: p in Winners(t, s, w) ==> Ready(s, p, Winners(t, s, w)[p])
    ensures forall p :: p in Winners(t, s, v) && p in Winners(t, s, w) ==> Tied(Winners(t, s, v)[p], Winners(t, s, w)[p])
  {
    hide Winners, IsContent, Ready, Tied, NoSlash, Sides.Paths;
  }

  /** A successful join publishes the draft of its winners. */
  lemma JoinParts(t: Tools, s: Store, a: Digest, b: Digest, v: Sides)
    requires Sortable(v) && Join(t, s, a, b, v).Joined? && forall p :: p in v.Paths() ==> NoSlash(p)
    requires forall p :: p in Winners(t, s, v) ==> NoSlash(p)
    requires forall p :: p in InOrder(Winners(t, s, v).Keys) ==> p in Winners(t, s, v)
    requires forall p :: p in InOrder(v.Paths()) ==> p in v.Paths()
    ensures var d := AddWinners(t, s, Winners(t, s, v), InOrder(Winners(t, s, v).Keys)); var q := InOrder(v.Paths());
      d.Some? && Join(t, s, a, b, v) == Publish(t, d.value, a, b, LwwPaths(t, s, v, q), ContentPaths(t, s, v, q))
  {
    hide InOrder, Winners, AddWinners, LwwPaths, ContentPaths, Decide, NoSlash, Sides.Paths, Publish;
  }

  lemma JoinReadable(t: Tools, s: Store, a: Digest, b: Digest, v: Sides)
    requires Sortable(v) && Join(t, s, a, b, v).Joined? && forall p :: p in v.Paths() ==> NoSlash(p)
    requires forall p :: p in InOrder(v.Paths()) <==> p in v.Paths()
    ensures forall p :: p in v.Paths() ==> !Decide(t, s, v, p).Unreadable?
  {
    hide InOrder, Winners, AddWinners, LwwPaths, ContentPaths, Decide, NoSlash, Sides.Paths, Publish;
  }

  lemma PublishTells(t: Tools, d: Draft, d': Draft, a: Digest, b: Digest, lww: seq<Path>, content: seq<Path>, lww': seq<Path>, content': seq<Path>)
    requires Injective(t) && SortTwo(a, b) == SortTwo(b, a)
    requires Publish(t, d, a, b, lww, content) == Publish(t, d', b, a, lww', content')
    ensures d.layers == d'.layers && d.diffIds == d'.diffIds && lww == lww'
  {
    hide SortTwo;
  }

  lemma LinedSame(t: Tools, ar: Archive, w: map<Path, Winner>, w': map<Path, Winner>, q: seq<Path>, d: Draft, d': Draft)
    requires Lined(t, ar, w, q, d) && Lined(t, ar, w', q, d') && d.layers == d'.layers && d.diffIds == d'.diffIds
    ensures forall p :: p in q ==> p in w && p in w' && PartOf(t, ar, p, w[p]) == PartOf(t, ar, p, w'[p])
  {
    hide PartOf, Archived;
  }

  /** Same traces: the same winners, with the same parts, and the same reports. */
  lemma TracesAgree(t: Tools, ar: Archive, s: Store, v: Sides, w: Sides)
    requires v.Paths() == w.Paths() && SameTraces(t, ar, s, v, w)
    ensures Winners(t, s, v).Keys == Winners(t, s, w).Keys
    ensures forall p :: p in Winners(t, s, v) ==> PartOf(t, ar, p, Winners(t, s, v)[p]) == PartOf(t, ar, p, Winners(t, s, w)[p])
    ensures forall p :: p in v.Paths() ==> (IsLww(t, s, v, p) <==> IsLww(t, s, w, p))
  {
    hide Decide, PartOf, Sides.Paths;
    forall p | p in v.Paths()
      ensures p in Winners(t, s, v) <==> p in Winners(t, s, w)
      ensures IsLww(t, s, v, p) <==> IsLww(t, s, w, p)
    {
      assert SameTrace(t, ar, p, Decide(t, s, v, p), Decide(t, s, w, p));
    }
    forall p | p in Winners(t, s, v) ensures PartOf(t, ar, p, Winners(t, s, v)[p]) == PartOf(t, ar, p, Winners(t, s, w)[p]) {
      assert SameTrace(t, ar, p, Decide(t, s, v, p), Decide(t, s, w, p));
    }
  }

  lemma AgreeTraces(t: Tools, ar: Archive, s: Store, v: Sides, w: Sides)
    requires v.Paths() == w.Paths() && Winners(t, s, v).Keys == Winners(t, s, w).Keys
    requires forall p :: p in Winners(t, s, v) ==> PartOf(t, ar, p, Winners(t, s, v)[p]) == PartOf(t, ar, p, Winners(t, s, w)[p])
    requires forall p :: p in v.Paths() ==> (IsLww(t, s, v, p) <==> IsLww(t, s, w, p))
    requires forall p :: p in v.Paths() ==> !Decide(t, s, v, p).Unreadable? && !Decide(t, s, w, p).Unreadable?
    ensures SameTraces(t, ar, s, v, w)
  {
    hide Decide, PartOf, Sides.Paths;
    forall p | p in v.Paths() ensures SameTrace(t, ar, p, Decide(t, s, v, p), Decide(t, s, w, p)) {
      assert p in Winners(t, s, v) <==> Decide(t, s, v, p).Won?;
      assert p in Winners(t, s, w) <==> Decide(t, s, w, p).Won?;
    }
  }

  // --- the two orders of a merge ---------------------------------------------------------------------------------

  /** The content merge of two registers when `a`, named first, is the newer by its place in the call. */
  ghost function MergedFrom(t: Tools, ar: Archive, p: Path, a: Register, b: Register): Winner
    requires t.merger(p).Some?
  {
    Fresh(t.merger(p).value(ContentIn(ar, Keep(b)), ContentIn(ar, Keep(a))), Max2(a.mtimeMs, b.mtimeMs), JoinActors(a.actor, b.actor), a.entry.mode)
  }

  /** Where both heads hold a path, registers that tie contribute the same part, kept or merged in either order. */
  ghost predicate TiesAlike(t: Tools, ar: Archive, p: Path, a: Register, b: Register) {
    KeyOf(a) == KeyOf(b) ==>
      if t.merger(p).None? || SameEntry(a, b) then PartOf(t, ar, p, Keep(a)) == PartOf(t, ar, p, Keep(b))
      else PartOf(t, ar, p, MergedFrom(t, ar, p, a, b)) == PartOf(t, ar, p, MergedFrom(t, ar, p, b, a))
  }

  /** Edited since `base`, and no deletion recorded. */
  predicate EditedUnclocked(r: Register, other: HeadView, base: map<Path, Register>, p: Path) {
    p in base && !SameEntry(r, base[p]) && Stamp(other.whiteouts, p) == 0 < r.mtimeMs
  }

  /**
   * Where one head lacks a path, both bases lack it or both hold it; an edit that only one base sees must be older
   * than a recorded deletion, and an edit of the base that holds it alone must face no recorded deletion.
   */
  predicate BasesAlike(r: Register, other: HeadView, x: map<Path, Register>, y: map<Path, Register>, p: Path) {
    if p in x && p in y then
      (SameEntry(r, x[p]) <==> SameEntry(r, y[p])) || (0 < Stamp(other.whiteouts, p) && r.mtimeMs <= Stamp(other.whiteouts, p))
    else if p in x then EditedUnclocked(r, other, x, p)
    else if p in y then EditedUnclocked(r, other, y, p)
    else true
  }

  lemma OneSideIff(r: Register, other: HeadView, x: map<Path, Register>, y: map<Path, Register>, p: Path)
    ensures OneSide(r, other, x, p) == OneSide(r, other, y, p) <==> BasesAlike(r, other, x, y, p)
  {
    hide SameEntry;
  }

  ghost predicate OrdersAgree(t: Tools, ar: Archive, a: HeadView, b: HeadView, x: map<Path, Register>, y: map<Path, Register>) {
    && (forall p :: p in a.files && p in b.files ==> TiesAlike(t, ar, p, a.files[p], b.files[p]))
    && (forall p :: p in a.files && p !in b.files ==> BasesAlike(a.files[p], b, x, y, p))
    && (forall p :: p in b.files && p !in a.files ==> BasesAlike(b.files[p], a, x, y, p))
  }

  lemma BothTrace(t: Tools, ar: Archive, s: Store, p: Path, a: Register, b: Register)
    requires Archived(ar, s) && !BothSides(t, s, p, a, b).Unreadable?
    ensures SameTrace(t, ar, p, BothSides(t, s, p, a, b), BothSides(t, s, p, b, a)) <==> TiesAlike(t, ar, p, a, b)
    ensures BothSides(t, s, p, a, b).Won? && BothSides(t, s, p, b, a).Won?
    ensures Tied(BothSides(t, s, p, a, b).winner, BothSides(t, s, p, b, a).winner)
  {
    NewerIsGreater(a, b);
    NewerIsGreater(b, a);
    KeyTotal(KeyOf(a), KeyOf(b));
    hide KeyLess, PartOf;
    if KeyOf(a) == KeyOf(b) {
      hide NewerOf, Archived;
      if t.merger(p).Some? && !SameEntry(a, b) {
        MergedIs(t, ar, s, p, a, b);
        MergedIs(t, ar, s, p, b, a);
      }
    } else {
      BothSidesSymmetric(t, s, p, a, b);
      hide BothSides, NewerOf, Archived;
    }
  }

  lemma MergedIs(t: Tools, ar: Archive, s: Store, p: Path, a: Register, b: Register)
    requires Archived(ar, s) && !BothSides(t, s, p, a, b).Unreadable? && t.merger(p).Some? && !SameEntry(a, b) && NewerOf(a, b) == a
    ensures BothSides(t, s, p, a, b) == Won(MergedFrom(t, ar, p, a, b), false)
  {
    ContentIs(ar, s, Keep(a));
    ContentIs(ar, s, Keep(b));
    hide NewerOf, SameEntry, Archived, JoinActors, ContentIn;
  }

  lemma OneTrace(t: Tools, ar: Archive, p: Path, r: Register, other: HeadView, x: map<Path, Register>, y: map<Path, Register>)
    ensures var d, e := OneSide(r, other, x, p), OneSide(r, other, y, p);
      && (SameTrace(t, ar, p, d, e) <==> BasesAlike(r, other, x, y, p))
      && (d.Won? && e.Won? ==> Tied(d.winner, e.winner))
      && (d.Won? ==> d.winner.Keep?) && (e.Won? ==> e.winner.Keep?)
  {
    OneSideIff(r, other, x, y, p);
    hide SameEntry, PartOf, BasesAlike;
  }

  lemma PathTrace(t: Tools, ar: Archive, s: Store, a: HeadView, b: HeadView, x: map<Path, Register>, y: map<Path, Register>, p: Path)
    requires Archived(ar, s) && p in Sides(a, b, x).Paths() && !Decide(t, s, Sides(a, b, x), p).Unreadable?
    ensures p in Sides(b, a, y).Paths()
    ensures var d, e := Decide(t, s, Sides(a, b, x), p), Decide(t, s, Sides(b, a, y), p);
      && (d.Won? && d.winner.Fresh? <==> e.Won? && e.winner.Fresh?) && (d.Won? && e.Won? ==> Tied(d.winner, e.winner))
      && (SameTrace(t, ar, p, d, e) <==>
          if p in a.files && p in b.files then TiesAlike(t, ar, p, a.files[p], b.files[p])
          else if p in a.files then BasesAlike(a.files[p], b, x, y, p)
          else BasesAlike(b.files[p], a, x, y, p))
  {
    if p in a.files && p in b.files {
      BothTrace(t, ar, s, p, a.files[p], b.files[p]);
    } else if p in a.files {
      OneTrace(t, ar, p, a.files[p], b, x, y);
    } else {
      OneTrace(t, ar, p, b.files[p], a, x, y);
    }
    hide BothSides, OneSide, SameTrace, TiesAlike, BasesAlike;
  }

  lemma TracesIff(t: Tools, ar: Archive, s: Store, a: HeadView, b: HeadView, x: map<Path, Register>, y: map<Path, Register>)
    requires Archived(ar, s) && forall p :: p in Sides(a, b, x).Paths() ==> !Decide(t, s, Sides(a, b, x), p).Unreadable?
    ensures Sides(a, b, x).Paths() == Sides(b, a, y).Paths()
    ensures SameTraces(t, ar, s, Sides(a, b, x), Sides(b, a, y)) <==> OrdersAgree(t, ar, a, b, x, y)
    ensures var v, w := Sides(a, b, x), Sides(b, a, y);
      && (forall p :: p in v.Paths() ==> (IsContent(t, s, v, p) <==> IsContent(t, s, w, p)))
      && (forall p :: p in v.Paths() && Decide(t, s, v, p).Won? && Decide(t, s, w, p).Won? ==>
            Tied(Decide(t, s, v, p).winner, Decide(t, s, w, p).winner))
  {
    hide Decide, SameTrace, TiesAlike, BasesAlike, Tied, Archived;
    forall p | p in Sides(a, b, x).Paths()
      ensures p in Sides(b, a, y).Paths()
      ensures var d, e := Decide(t, s, Sides(a, b, x), p), Decide(t, s, Sides(b, a, y), p);
        && (d.Won? && d.winner.Fresh? <==> e.Won? && e.winner.Fresh?) && (d.Won? && e.Won? ==> Tied(d.winner, e.winner))
        && (SameTrace(t, ar, p, d, e) <==>
            if p in a.files && p in b.files then TiesAlike(t, ar, p, a.files[p], b.files[p])
            else if p in a.files then BasesAlike(a.files[p], b, x, y, p)
            else BasesAlike(b.files[p], a, x, y, p))
    {
      PathTrace(t, ar, s, a, b, x, y, p);
    }
  }

  ghost function BaseFiles(s: Store, base: Option<Digest>): map<Path, Register>
    requires base.Some? ==> Loadable(s, base.value)
  {
    if base.Some? then ViewOf(s, base.value).files else map[]
  }

  /** Both calls fail, or both join and the heads and ancestors meet the guards. */
  ghost predicate BothAlike(t: Tools, ar: Archive, s: Store, a: Digest, b: Digest, x: Option<Digest>, y: Option<Digest>, o: Outcome, o': Outcome) {
    || (o.Failed? && o'.Failed?)
    || (o.Joined? && o'.Joined?
        && Loadable(s, a) && Loadable(s, b) && (x.Some? ==> Loadable(s, x.value)) && (y.Some? ==> Loadable(s, y.value))
        && OrdersAgree(t, ar, ViewOf(s, a), ViewOf(s, b), BaseFiles(s, x), BaseFiles(s, y)))
  }

  /** Joining from base `x` in one order and from base `y` in the other agree exactly as the guards say. */
  lemma JoinOrdersIff(t: Tools, ar: Archive, s: Store, a: Digest, b: Digest, x: Option<Digest>, y: Option<Digest>)
    requires Componentwise(s) && Archived(ar, s) && Builds(t, ar) && Injective(t)
    ensures var o, o' := JoinFrom(t, s, a, b, x), JoinFrom(t, s, b, a, y);
      o == o' <==> BothAlike(t, ar, s, a, b, x, y, o, o')
  {
    var o, o' := JoinFrom(t, s, a, b, x), JoinFrom(t, s, b, a, y);
    JoinFailsOrJoins(t, s, a, b, x);
    JoinFailsOrJoins(t, s, b, a, y);
    hide *;
    if o.Joined? && o'.Joined? {
      JoinedFrom(t, s, a, b, x);
      JoinedFrom(t, s, b, a, y);
      WinnersNative(t, s, a, b, x);
      WinnersNative(t, s, b, a, y);
      SidesAre(s, a, b, x);
      SidesAre(s, b, a, y);
      var v, w := SidesOf(s, a, b, x), SidesOf(s, b, a, y);
      SidesReadable(t, s, a, b, v);
      TracesIff(t, ar, s, ViewOf(s, a), ViewOf(s, b), BaseFiles(s, x), BaseFiles(s, y));
      AreComparable(t, s, v, w);
      JoinsIff(t, ar, s, a, b, v, w);
    }
  }

  lemma SidesReadable(t: Tools, s: Store, a: Digest, b: Digest, v: Sides)
    requires Sortable(v) && Join(t, s, a, b, v).Joined?
    ensures forall p :: p in v.Paths() ==> !Decide(t, s, v, p).Unreadable?
  {
    SortableMeans(v);
    ListsMembers(InOrder(v.Paths()), v.Paths());
    hide *;
    JoinReadable(t, s, a, b, v);
  }

  lemma SortableMeans(v: Sides)
    requires Sortable(v)
    ensures forall p :: p in v.Paths() ==> NoSlash(p)
  {
    hide NoSlash, Sides.Paths;
  }

  lemma JoinFailsOrJoins(t: Tools, s: Store, a: Digest, b: Digest, base: Option<Digest>)
    requires Componentwise(s)
    ensures JoinFrom(t, s, a, b, base).Failed? || JoinFrom(t, s, a, b, base).Joined?
  {
    hide Componentwise, Loadable, ViewOf, InOrder, Winners, AddWinners, LwwPaths, ContentPaths, Decide, NoSlash, SidesOf;
  }

  lemma SidesAre(s: Store, a: Digest, b: Digest, base: Option<Digest>)
    requires Loadable(s, a) && Loadable(s, b) && (base.Some? ==> Loadable(s, base.value))
    ensures SidesOf(s, a, b, base) == Sides(ViewOf(s, a), ViewOf(s, b), BaseFiles(s, base))
  {
    hide ViewOf, Loadable;
  }

  lemma AreComparable(t: Tools, s: Store, v: Sides, w: Sides)
    requires Sortable(v) && Sortable(w) && v.Paths() == w.Paths()
    requires forall p :: p in v.Paths() ==> (IsContent(t, s, v, p) <==> IsContent(t, s, w, p))
    requires forall p :: p in v.Paths() && Decide(t, s, v, p).Won? && Decide(t, s, w, p).Won? ==> Tied(Decide(t, s, v, p).winner, Decide(t, s, w, p).winner)
    requires forall p :: p in Winners(t, s, v) ==> Ready(s, p, Winners(t, s, v)[p])
    requires forall p :: p in Winners(t, s, w) ==> Ready(s, p, Winners(t, s, w)[p])
    ensures Comparable(t, s, v, w)
  {
    hide IsContent, Decide, Ready, Tied, Sortable, Sides.Paths;
  }

  /**
   * Two diverged heads merged in either order: the outcomes are equal if and only if, for the ancestors the two calls
   * chose, both fail or registers that tie are alike and the ancestors agree on every path that one head lacks.
   */
  lemma MergeOrdersIff(t: Tools, ar: Archive, s: Store, a: Digest, b: Digest, maxWalk: nat, o: Outcome, o': Outcome)
    returns (x: Option<Digest>, y: Option<Digest>)
    requires Componentwise(s) && Archived(ar, s) && Builds(t, ar) && Injective(t)
    requires Merges(t, s, a, b, maxWalk, o) && Merges(t, s, b, a, maxWalk, o')
    requires var g := ParentsGraph(s);
      Fits(g, a, maxWalk) && Fits(g, b, maxWalk) && a != b && !Reaches(g, a, b) && !Reaches(g, b, a)
    ensures BaseOf(ParentsGraph(s), a, b, maxWalk, x) && BaseOf(ParentsGraph(s), b, a, maxWalk, y)
    ensures o == JoinFrom(t, s, a, b, x) && o' == JoinFrom(t, s, b, a, y)
    ensures o == o' <==> BothAlike(t, ar, s, a, b, x, y, o, o')
  {
    x := Diverged(t, s, a, b, maxWalk, o);
    y := Diverged(t, s, b, a, maxWalk, o');
    hide *;
    JoinOrdersIff(t, ar, s, a, b, x, y);
  }

  /** The ancestor a call on diverged heads started from. */
  lemma Diverged(t: Tools, s: Store, a: Digest, b: Digest, maxWalk: nat, o: Outcome) returns (x: Option<Digest>)
    requires Componentwise(s) && Merges(t, s, a, b, maxWalk, o)
    requires var g := ParentsGraph(s);
      Fits(g, a, maxWalk) && Fits(g, b, maxWalk) && a != b && !Reaches(g, a, b) && !Reaches(g, b, a)
    ensures BaseOf(ParentsGraph(s), a, b, maxWalk, x) && o == JoinFrom(t, s, a, b, x)
  {
    hide Answers, BaseOf, JoinFrom, Fits, Reaches, Componentwise, ParentsGraph;
    var g := ParentsGraph(s);
    var ab, ba, base :| Answers(g, b, a, maxWalk, ab) && Answers(g, a, b, maxWalk, ba) && BaseOf(g, a, b, maxWalk, base)
      && o == if ab then Ahead(a) else if ba then Ahead(b) else JoinFrom(t, s, a, b, base);
    AnswerIs(g, b, a, maxWalk, ab);
    AnswerIs(g, a, b, maxWalk, ba);
    x := base;
  }
}
