/** Three heads joined over one base, deletions included: exactly when the grouping of the joins matters. */
module Grouping {
  import opened Bytes
  import opened Paths
  import opened View
  import opened Ancestry
  import opened Order
  import opened MergeHeads
  import opened MergedView
  import opened Convergence
  import opened CrissCross

  /** What a head has at one path: its register, and the clock of its deletions. */
  datatype Slot = Slot(reg: Option<Register>, stamp: nat)

  function FileAt(files: map<Path, Register>, p: Path): Option<Register> {
    if p in files then Some(files[p]) else None
  }

  function SlotAt(v: HeadView, p: Path): Slot {
    Slot(FileAt(v.files, p), Stamp(v.whiteouts, p))
  }

  /** A register stays where the other side lacks its path: it is new there, or edited after that side's deletions. */
  predicate Survives(base: Option<Register>, r: Register, stamp: nat) {
    base.None? || (!SameEntry(r, base.value) && stamp < r.mtimeMs)
  }

  function Spared(base: Option<Register>, r: Register, stamp: nat): Option<Register> {
    if Survives(base, r, stamp) then Some(r) else None
  }

  /** The slot of the joined head; it has no whiteouts. */
  function Meet(base: Option<Register>, x: Slot, y: Slot): Slot {
    Slot(match (x.reg, y.reg)
         case (Some(a), Some(b)) => Some(NewerOf(a, b))
         case (Some(a), None) => Spared(base, a, y.stamp)
         case (None, Some(b)) => Spared(base, b, x.stamp)
         case (None, None) => None, 0)
  }

  /** No path with a content merger is a file on both sides. */
  ghost predicate Unmerged(t: Tools, v: HeadView, w: HeadView) {
    forall x :: t.merger(x).Some? ==> !(x in v.files && x in w.files)
  }

  // --- one join ------------------------------------------------------------------------------------------------

  /** Without a content merger the join of two views is the meet of their slots. */
  lemma DecideMeets(t: Tools, s: Store, v: Sides, p: Path)
    requires t.merger(p).Some? ==> !(p in v.a.files && p in v.b.files)
    ensures var r := Meet(FileAt(v.base, p), SlotAt(v.a, p), SlotAt(v.b, p)).reg;
      && (p in v.Paths() ==> !Decide(t, s, v, p).Unreadable?)
      && (p in Winners(t, s, v) <==> r.Some?) && (r.Some? ==> Winners(t, s, v)[p] == Keep(r.value))
  {
    hide NewerOf, SameEntry, Stamp;
    assert p in v.Paths() <==> p in v.a.files || p in v.b.files;
    assert p in Winners(t, s, v) <==> p in v.Paths() && Decide(t, s, v, p).Won?;
  }

  lemma NotMerged(t: Tools, v: HeadView, w: HeadView, p: Path)
    requires Unmerged(t, v, w)
    ensures t.merger(p).Some? ==> !(p in v.files && p in w.files)
  {
  }

  lemma MeetGiven(base: Option<Register>, x: Slot, y: Slot)
    ensures var r := Meet(base, x, y).reg; r.Some? ==> r == x.reg || r == y.reg
  {
    if x.reg.Some? && y.reg.Some? { NewerIsGreater(x.reg.value, y.reg.value); }
    hide NewerOf, KeyLess, SameEntry;
  }

  /** Every file of the head comes from a layer that holds it alone. */
  ghost predicate Sole(s: Store, d: Digest) {
    Loadable(s, d) && forall p :: p in ViewOf(s, d).files ==> Alone(s, p, Keep(ViewOf(s, d).files[p]))
  }

  /** A manifest over such layers shows their registers, and no deletions. */
  lemma StackView(s: Store, head: Digest, q: seq<Path>, winners: map<Path, Winner>)
    requires head in s.manifests && Distinct(q) && forall p :: p in winners <==> p in q
    requires forall p :: p in winners ==> Alone(s, p, winners[p]) && Native(s, p, winners[p].reg)
    requires var m := s.manifests[head];
      |m.layers| == |m.diffIds| == |q| && forall i :: 0 <= i < |q| ==>
        winners[q[i]].Keep? && m.layers[i] == winners[q[i]].reg.descriptor && m.diffIds[i] == winners[q[i]].reg.diffId
    ensures Loadable(s, head)
    ensures forall p :: SlotAt(ViewOf(s, head), p) == Slot(if p in winners then Some(winners[p].reg) else None, 0)
  {
    var m := s.manifests[head];
    hide Native, Alone, Stamps, MergeLayers;
    forall l | l in m.layers ensures l.digest in s.layers {
      var i :| 0 <= i < |m.layers| && m.layers[i] == l;
      AloneMeans(s, q[i], winners[q[i]]);
    }
    var layers := LayersOf(s, m);
    forall i | 0 <= i < |q|
      ensures SoleFile(layers[i]) && layers[i][0].path == q[i] && RegisterOf(m, layers, Placed(i, layers[i][0])) == winners[q[i]].reg && !layers[i][0].dir
    {
      assert m.layers[i] in m.layers;
      StackRegister(s, m, layers, i, q[i], winners[q[i]]);
    }
    StackIsFlat(layers, q);
    StackStamps(layers, q);
    hide RegisterOf, SoleFile;
    StackSlots(s, head, q, winners, layers, MergeLayers(layers));
  }

  lemma AloneMeans(s: Store, p: Path, w: Winner)
    requires Alone(s, p, w)
    ensures w.Keep? && w.reg.descriptor.digest in s.layers && s.layers[w.reg.descriptor.digest] == [Item(p, false, w.reg.entry)]
    ensures w.reg.entry.plain && w.reg.sole && w.reg.diffId != [] && WhiteoutTarget(p) == NoWhiteout
  {
  }

  lemma StackRegister(s: Store, m: Manifest, layers: seq<seq<Item<Entry>>>, i: nat, p: Path, w: Winner)
    requires (forall l :: l in m.layers ==> l.digest in s.layers) && layers == LayersOf(s, m) && i < |m.layers| == |m.diffIds|
    requires Alone(s, p, w) && Native(s, p, w.reg) && m.layers[i] == w.reg.descriptor && m.diffIds[i] == w.reg.diffId
    ensures SoleFile(layers[i]) && layers[i][0].path == p && !layers[i][0].dir && RegisterOf(m, layers, Placed(i, layers[i][0])) == w.reg
  {
    hide WhiteoutTarget;
    AloneMeans(s, p, w);
    assert layers[i] == s.layers[m.layers[i].digest] == [Item(p, false, w.reg.entry)];
    Convergence.OneFile(layers[i]);
    hide FileCount;
  }

  lemma {:induction false} StackStamps(layers: seq<seq<Item<Entry>>>, q: seq<Path>)
    requires Stack(layers, q)
    ensures Stamps(layers) == map[]
  {
    hide WhiteoutTarget;
    if layers != [] {
      var n := |q| - 1;
      StackStamps(layers[..n], q[..n]);
      var w: map<Path, nat> := map[];
      assert layers[n][..0] == [] && StampLayer(w, layers[n][..0]) == w;
    }
  }

  lemma StackSlots(s: Store, head: Digest, q: seq<Path>, winners: map<Path, Winner>, layers: seq<seq<Item<Entry>>>, merged: Merged<Entry>)
    requires Loadable(s, head) && layers == LayersOf(s, s.manifests[head]) && merged == MergeLayers(layers) && Stamps(layers) == map[]
    requires Stack(layers, q) && Flat(layers, q, merged) && (forall p :: p in winners <==> p in q) && |s.manifests[head].layers| == |q|
    requires forall i :: 0 <= i < |q| ==>
      winners[q[i]].Keep? && !layers[i][0].dir && RegisterOf(s.manifests[head], layers, Placed(i, layers[i][0])) == winners[q[i]].reg
    ensures forall p :: p in winners ==> winners[p].Keep?
    ensures forall p :: SlotAt(ViewOf(s, head), p) == Slot(if p in winners then Some(winners[p].reg) else None, 0)
  {
    MergedRooted(layers);
    hide RegisterOf, Stamps, MergeLayers, SoleFile;
    forall p | p in winners
      ensures winners[p].Keep? && p in merged && !merged[p].item.dir && RegisterOf(s.manifests[head], layers, merged[p]) == winners[p].reg
    {
      var i :| 0 <= i < |q| && q[i] == p;
    }
  }

  /** Joining two heads of sole layers publishes another one, whose slots are the meets of theirs. */
  lemma JoinMeets(t: Tools, s: Store, a: Digest, b: Digest, base: Option<Digest>)
    requires Componentwise(s) && Told(t, s) && Injective(t)
    requires Sole(s, a) && Sole(s, b) && (base.Some? ==> Loadable(s, base.value)) && Unmerged(t, ViewOf(s, a), ViewOf(s, b))
    ensures var o := JoinFrom(t, s, a, b, base);
      && o.Joined? && HasMore(s, o.store) && Componentwise(o.store) && Told(t, o.store) && Sole(o.store, o.digest)
      && forall p :: SlotAt(ViewOf(o.store, o.digest), p) == Meet(BaseAt(s, base, p), SlotAt(ViewOf(s, a), p), SlotAt(ViewOf(s, b), p))
  {
    hide *;
    SoleLoads(s, a);
    SoleLoads(s, b);
    ViewNoSlash(s, a);
    ViewNoSlash(s, b);
    SidesSort(s, a, b, base);
    JoinFromIs(t, s, a, b, base);
    var v := SidesOf(s, a, b, base);
    var winners := Winners(t, s, v);
    SidesAre(s, a, b, base);
    forall p ensures MeetsAt(t, s, v, p) {
      NotMerged(t, v.a, v.b, p);
      DecideMeets(t, s, v, p);
      IsMet(t, s, v, p);
    }
    WinnersAlone(t, s, a, b, base);
    WinnersSort(t, s, v);
    var q := InOrder(winners.Keys);
    ListsMembers(q, winners.Keys);
    ListsDistinct(q, winners.Keys);
    forall p | p in q ensures p in winners && Reusable(winners[p]) { AloneReused(s, p, winners[p]); }
    ReusedOnly(t, s, winners, q);
    forall p ensures p in v.Paths() ==> !Decide(t, s, v, p).Unreadable? { MetIs(t, s, v, p); }
    JoinSucceeds(t, s, a, b, v);
    Published(t, s, a, b, v);
    var o := Join(t, s, a, b, v);
    AloneStays(s, o.store, winners);
    StackView(o.store, o.digest, q, winners);
    ComponentwiseStays(s, o.store);
    ToldAfter(t, s, o.store, o.digest);
    forall p ensures SlotAt(ViewOf(o.store, o.digest), p) == Meet(BaseAt(s, base, p), SlotAt(ViewOf(s, a), p), SlotAt(ViewOf(s, b), p)) {
      MetIs(t, s, v, p);
      MeetStamp(BaseAt(s, base, p), SlotAt(ViewOf(s, a), p), SlotAt(ViewOf(s, b), p));
    }
    NewSole(o.store, o.digest, winners);
  }

  function BaseAt(s: Store, base: Option<Digest>, p: Path): Option<Register>
    requires base.Some? ==> Loadable(s, base.value)
  {
    if base.Some? then FileAt(ViewOf(s, base.value).files, p) else None
  }

  lemma SoleLoads(s: Store, d: Digest)
    requires Sole(s, d)
    ensures Loadable(s, d) && forall p :: p in ViewOf(s, d).files ==> Alone(s, p, Keep(ViewOf(s, d).files[p]))
  {
    hide Loadable, ViewOf, Alone;
  }

  lemma SidesAre(s: Store, a: Digest, b: Digest, base: Option<Digest>)
    requires Loadable(s, a) && Loadable(s, b) && (base.Some? ==> Loadable(s, base.value))
    ensures var v := SidesOf(s, a, b, base); v.a == ViewOf(s, a) && v.b == ViewOf(s, b) && forall p :: FileAt(v.base, p) == BaseAt(s, base, p)
  {
    hide ViewOf, Loadable;
  }

  /** The winner at `p` is the meet of the two slots. */
  ghost predicate MeetsAt(t: Tools, s: Store, v: Sides, p: Path) {
    var r := Meet(FileAt(v.base, p), SlotAt(v.a, p), SlotAt(v.b, p)).reg;
    && (p in v.Paths() ==> !Decide(t, s, v, p).Unreadable?)
    && (p in Winners(t, s, v) <==> r.Some?) && (r.Some? ==> Winners(t, s, v)[p] == Keep(r.value))
  }

  lemma IsMet(t: Tools, s: Store, v: Sides, p: Path)
    requires var r := Meet(FileAt(v.base, p), SlotAt(v.a, p), SlotAt(v.b, p)).reg;
      && (p in v.Paths() ==> !Decide(t, s, v, p).Unreadable?)
      && (p in Winners(t, s, v) <==> r.Some?) && (r.Some? ==> Winners(t, s, v)[p] == Keep(r.value))
    ensures MeetsAt(t, s, v, p)
  {
    hide Meet, SlotAt, FileAt, Decide, Winners, Sides.Paths;
  }

  lemma MetIs(t: Tools, s: Store, v: Sides, p: Path)
    requires MeetsAt(t, s, v, p)
    ensures var r := Meet(FileAt(v.base, p), SlotAt(v.a, p), SlotAt(v.b, p)).reg;
      && (p in v.Paths() ==> !Decide(t, s, v, p).Unreadable?)
      && (p in Winners(t, s, v) <==> r.Some?) && (r.Some? ==> Winners(t, s, v)[p] == Keep(r.value))
  {
    hide Meet, SlotAt, FileAt, Decide, Winners, Sides.Paths;
  }

  lemma MeetStamp(base: Option<Register>, x: Slot, y: Slot)
    ensures Meet(base, x, y) == Slot(Meet(base, x, y).reg, 0)
  {
    hide NewerOf, Spared;
  }

  lemma WinnersAlone(t: Tools, s: Store, a: Digest, b: Digest, base: Option<Digest>)
    requires Sole(s, a) && Sole(s, b) && (base.Some? ==> Loadable(s, base.value))
    requires Loadable(s, a) && Loadable(s, b) && forall p :: MeetsAt(t, s, SidesOf(s, a, b, base), p)
    ensures var w := Winners(t, s, SidesOf(s, a, b, base)); forall p :: p in w ==> w[p].Keep? && Alone(s, p, w[p]) && Native(s, p, w[p].reg)
  {
    hide *;
    var v := SidesOf(s, a, b, base);
    var w := Winners(t, s, v);
    SoleLoads(s, a);
    SoleLoads(s, b);
    ViewNative(s, a);
    ViewNative(s, b);
    SidesAre(s, a, b, base);
    forall p | p in w ensures w[p].Keep? && Alone(s, p, w[p]) && Native(s, p, w[p].reg) {
      MetIs(t, s, v, p);
      MeetGiven(FileAt(v.base, p), SlotAt(v.a, p), SlotAt(v.b, p));
      SlotIs(v.a, p);
      SlotIs(v.b, p);
    }
  }

  lemma SlotIs(v: HeadView, p: Path)
    ensures SlotAt(v, p).reg == if p in v.files then Some(v.files[p]) else None
  {
  }

  lemma AloneReused(s: Store, p: Path, w: Winner)
    requires Alone(s, p, w)
    ensures Reusable(w) && w.Keep?
  {
    hide WhiteoutTarget, Reusable;
  }

  lemma AloneStays(s: Store, s': Store, winners: map<Path, Winner>)
    requires s'.layers == s.layers && forall p :: p in winners ==> winners[p].Keep? && Alone(s, p, winners[p]) && Native(s, p, winners[p].reg)
    ensures forall p :: p in winners ==> Alone(s', p, winners[p]) && Native(s', p, winners[p].reg)
  {
    hide WhiteoutTarget, Reusable, FileCount;
  }

  lemma ComponentwiseStays(s: Store, s': Store)
    requires Componentwise(s) && s'.layers == s.layers
    ensures Componentwise(s')
  {
    hide NoSlash;
  }

  lemma NewSole(s: Store, d: Digest, winners: map<Path, Winner>)
    requires Loadable(s, d) && forall p :: p in winners ==> Alone(s, p, winners[p]) && winners[p].Keep?
    requires forall p :: SlotAt(ViewOf(s, d), p) == Slot(if p in winners then Some(winners[p].reg) else None, 0)
    ensures Sole(s, d)
  {
    hide ViewOf, Loadable, Alone, Stamp;
    forall p | p in ViewOf(s, d).files ensures Alone(s, p, Keep(ViewOf(s, d).files[p])) {
      assert SlotAt(ViewOf(s, d), p).reg == Some(ViewOf(s, d).files[p]);
      assert p in winners && winners[p] == Keep(winners[p].reg);
    }
  }

  /** What a successful join over reused layers stores. */
  lemma Published(t: Tools, s: Store, headA: Digest, headB: Digest, v: Sides)
    requires Sortable(v) && Join(t, s, headA, headB, v).Joined? && Told(t, s) && (forall p :: p in Winners(t, s, v) ==> NoSlash(p))
    requires forall p :: p in InOrder(Winners(t, s, v).Keys) <==> p in Winners(t, s, v)
    requires var d := AddWinners(t, s, Winners(t, s, v), InOrder(Winners(t, s, v).Keys)); d.Some? && d.value.store == s
    ensures var o, d := Join(t, s, headA, headB, v), AddWinners(t, s, Winners(t, s, v), InOrder(Winners(t, s, v).Keys)).value;
      && o.store.layers == s.layers && HasMore(s, o.store) && o.digest in o.store.manifests && t.hash(o.store.manifests[o.digest]) == o.digest
      && (forall x :: x in o.store.manifests && x !in s.manifests ==> x == o.digest)
      && o.store.manifests[o.digest].layers == d.layers && o.store.manifests[o.digest].diffIds == d.diffIds
  {
    hide InOrder, Winners, AddWinners, LwwPaths, ContentPaths, Decide, NoSlash, Sides.Paths, SortTwo, MERGE_ACTOR;
    var d := AddWinners(t, s, Winners(t, s, v), InOrder(Winners(t, s, v).Keys)).value;
    var m := Manifest(d.layers, d.diffIds, SortTwo(headA, headB), MERGE_ACTOR);
    assert t.hash(m) in s.manifests ==> s.manifests[t.hash(m)] == m;
  }

  lemma ToldAfter(t: Tools, s: Store, s': Store, d: Digest)
    requires Told(t, s) && Injective(t) && d in s'.manifests && t.hash(s'.manifests[d]) == d && HasMore(s, s')
    requires forall x :: x in s'.manifests && x !in s.manifests ==> x == d
    ensures Told(t, s')
  {
    forall m: Manifest | t.hash(m) in s'.manifests ensures s'.manifests[t.hash(m)] == m {
      if t.hash(m) !in s.manifests { assert t.hash(m) == t.hash(s'.manifests[d]); }
    }
  }

  // --- two joins, in two groupings -----------------------------------------------------------------------------

  /** `inner` is dropped by the head that lacks the path before `outer` is joined, or after. */
  predicate PairAlike(base: Option<Register>, outer: Register, inner: Register, newer: Register, stamp: nat) {
    if Survives(base, inner, stamp) then Survives(base, newer, stamp)
    else Survives(base, outer, 0) ==> newer == outer && Survives(base, outer, stamp)
  }

  /** The head in the middle lacks the path, and drops one register or the other, each out of sight of its clock. */
  predicate EndsAlike(base: Option<Register>, x: Register, z: Register, stamp: nat) {
    if Survives(base, x, stamp) then Survives(base, z, stamp) || NewerOf(x, z) == x
    else if Survives(base, z, stamp) then NewerOf(x, z) == z
    else Survives(base, x, 0) || Survives(base, z, 0) ==> x == z
  }

  /** The grouping of three joins does not matter at a path with these slots. */
  predicate GroupsAlike(base: Option<Register>, a: Slot, b: Slot, c: Slot) {
    match (a.reg, b.reg, c.reg)
    case (Some(x), None, None) => Survives(base, x, 0) ==> Survives(base, x, Max2(b.stamp, c.stamp))
    case (None, None, Some(z)) => Survives(base, z, 0) ==> Survives(base, z, Max2(a.stamp, b.stamp))
    case (Some(x), Some(y), None) => PairAlike(base, x, y, NewerOf(x, y), c.stamp)
    case (None, Some(y), Some(z)) => PairAlike(base, z, y, NewerOf(y, z), a.stamp)
    case (Some(x), None, Some(z)) => EndsAlike(base, x, z, b.stamp)
    case _ => true
  }

  /** Taking the newer of three registers does not depend on the grouping. */
  lemma NewerAssociates(x: Register, y: Register, z: Register)
    ensures NewerOf(NewerOf(x, y), z) == NewerOf(x, NewerOf(y, z))
  {
    NewerIsGreater(x, y);
    NewerIsGreater(y, z);
    NewerIsGreater(x, z);
    NewerIsGreater(NewerOf(x, y), z);
    NewerIsGreater(x, NewerOf(y, z));
    var k, l, m := KeyOf(x), KeyOf(y), KeyOf(z);
    KeyTotal(k, l);
    KeyTotal(l, m);
    KeyTotal(k, m);
    hide KeyLess, NewerOf, KeyOf;
    if KeyLess(k, l) && KeyLess(l, m) { KeyTransitive(k, l, m); }
    if KeyLess(m, l) && KeyLess(l, k) { KeyTransitive(m, l, k); }
  }

  lemma NewerFacts(x: Register, y: Register)
    ensures NewerOf(x, y) in {x, y} && NewerOf(x, y).mtimeMs >= x.mtimeMs && NewerOf(x, y).mtimeMs >= y.mtimeMs
    ensures NewerOf(x, x) == x
  {
    hide Less;
  }

  /** Two meets in a row give the same register in both groupings if and only if the guard holds. */
  lemma MeetGroups(base: Option<Register>, a: Slot, b: Slot, c: Slot)
    ensures Meet(base, Meet(base, a, b), c).reg == Meet(base, a, Meet(base, b, c)).reg <==> GroupsAlike(base, a, b, c)
  {
    hide NewerOf, SameEntry;
    match (a.reg, b.reg, c.reg)
    case (Some(x), Some(y), Some(z)) => NewerAssociates(x, y, z);
    case (Some(x), Some(y), None) => NewerFacts(x, y);
    case (None, Some(y), Some(z)) => NewerFacts(y, z);
    case (Some(x), None, Some(z)) => NewerFacts(x, z);
    case _ =>
  }

  /** What `(a + b) + c` shows. */
  ghost function LeftFirst(t: Tools, s: Store, a: Digest, b: Digest, c: Digest, base: Option<Digest>): Outcome
    requires Componentwise(s)
  {
    var o := JoinFrom(t, s, a, b, base);
    if o.Joined? && Componentwise(o.store) then JoinFrom(t, o.store, o.digest, c, base) else Failed
  }

  /** What `a + (b + c)` shows. */
  ghost function RightFirst(t: Tools, s: Store, a: Digest, b: Digest, c: Digest, base: Option<Digest>): Outcome
    requires Componentwise(s)
  {
    var o := JoinFrom(t, s, b, c, base);
    if o.Joined? && Componentwise(o.store) then JoinFrom(t, o.store, a, o.digest, base) else Failed
  }

  ghost function Shown(o: Outcome, p: Path): Option<Register> {
    if o.Joined? && Loadable(o.store, o.digest) then FileAt(ViewOf(o.store, o.digest).files, p) else None
  }

  lemma ShownIs(o: Outcome, p: Path)
    requires o.Joined? && Loadable(o.store, o.digest)
    ensures Shown(o, p) == SlotAt(ViewOf(o.store, o.digest), p).reg
  {
    hide ViewOf, Loadable, Stamp;
  }

  /** Heads that were there are read as before. */
  lemma SlotStays(s: Store, s': Store, d: Digest, p: Path)
    requires HasMore(s, s') && Loadable(s, d)
    ensures Loadable(s', d) && SlotAt(ViewOf(s', d), p) == SlotAt(ViewOf(s, d), p)
  {
    ExtendedView(s, s', d);
    hide ViewOf, Stamp, FileAt;
  }

  lemma SoleStays(s: Store, s': Store, d: Digest)
    requires HasMore(s, s') && Sole(s, d)
    ensures Sole(s', d)
  {
    ExtendedView(s, s', d);
    hide ViewOf, WhiteoutTarget, Reusable;
  }

  /** Both groupings succeed, and what they show at a path is the two meets in a row. */
  lemma LeftMeets(t: Tools, s: Store, a: Digest, b: Digest, c: Digest, base: Option<Digest>, p: Path)
    requires Componentwise(s) && Told(t, s) && Injective(t)
    requires Sole(s, a) && Sole(s, b) && Sole(s, c) && (base.Some? ==> Loadable(s, base.value))
    requires Unmerged(t, ViewOf(s, a), ViewOf(s, b)) && Unmerged(t, ViewOf(s, b), ViewOf(s, c)) && Unmerged(t, ViewOf(s, a), ViewOf(s, c))
    ensures Loadable(s, a) && Loadable(s, b) && Loadable(s, c)
    ensures var o := LeftFirst(t, s, a, b, c, base);
      && o.Joined? && Loadable(o.store, o.digest)
      && Shown(o, p) == Meet(BaseAt(s, base, p), Meet(BaseAt(s, base, p), SlotAt(ViewOf(s, a), p), SlotAt(ViewOf(s, b), p)), SlotAt(ViewOf(s, c), p)).reg
  {
    hide *;
    SoleLoads(s, a);
    SoleLoads(s, b);
    SoleLoads(s, c);
    JoinMeets(t, s, a, b, base);
    var o := JoinFrom(t, s, a, b, base);
    SoleStays(s, o.store, c);
    SlotStays(s, o.store, c, p);
    BaseStays(s, o.store, base, p);
    SoleLoads(o.store, o.digest);
    SoleLoads(o.store, c);
    MeetUnmerged(t, ViewOf(s, a), ViewOf(s, b), ViewOf(s, c), ViewOf(o.store, o.digest), ViewOf(o.store, c), s, o.store, base, c);
    JoinMeets(t, o.store, o.digest, c, base);
    var abc := JoinFrom(t, o.store, o.digest, c, base);
    LeftIs(t, s, a, b, c, base);
    SoleLoads(abc.store, abc.digest);
    ShownIs(abc, p);
  }

  lemma RightMeets(t: Tools, s: Store, a: Digest, b: Digest, c: Digest, base: Option<Digest>, p: Path)
    requires Componentwise(s) && Told(t, s) && Injective(t)
    requires Sole(s, a) && Sole(s, b) && Sole(s, c) && (base.Some? ==> Loadable(s, base.value))
    requires Unmerged(t, ViewOf(s, a), ViewOf(s, b)) && Unmerged(t, ViewOf(s, b), ViewOf(s, c)) && Unmerged(t, ViewOf(s, a), ViewOf(s, c))
    ensures Loadable(s, a) && Loadable(s, b) && Loadable(s, c)
    ensures var o := RightFirst(t, s, a, b, c, base);
      && o.Joined? && Loadable(o.store, o.digest)
      && Shown(o, p) == Meet(BaseAt(s, base, p), SlotAt(ViewOf(s, a), p), Meet(BaseAt(s, base, p), SlotAt(ViewOf(s, b), p), SlotAt(ViewOf(s, c), p))).reg
  {
    hide *;
    SoleLoads(s, a);
    SoleLoads(s, b);
    SoleLoads(s, c);
    JoinMeets(t, s, b, c, base);
    var o := JoinFrom(t, s, b, c, base);
    SoleStays(s, o.store, a);
    SlotStays(s, o.store, a, p);
    BaseStays(s, o.store, base, p);
    SoleLoads(o.store, o.digest);
    SoleLoads(o.store, a);
    UnmergedSwaps(t, ViewOf(s, a), ViewOf(s, b));
    UnmergedSwaps(t, ViewOf(s, a), ViewOf(s, c));
    MeetUnmerged(t, ViewOf(s, b), ViewOf(s, c), ViewOf(s, a), ViewOf(o.store, o.digest), ViewOf(o.store, a), s, o.store, base, a);
    UnmergedSwaps(t, ViewOf(o.store, o.digest), ViewOf(o.store, a));
    JoinMeets(t, o.store, a, o.digest, base);
    var abc := JoinFrom(t, o.store, a, o.digest, base);
    RightIs(t, s, a, b, c, base);
    SoleLoads(abc.store, abc.digest);
    ShownIs(abc, p);
  }

  lemma UnmergedSwaps(t: Tools, v: HeadView, w: HeadView)
    requires Unmerged(t, v, w)
    ensures Unmerged(t, w, v)
  {
  }

  /** A joined head has files only where its two heads had. */
  lemma MeetUnmerged(t: Tools, x: HeadView, y: HeadView, z: HeadView, xy: HeadView, z': HeadView, s: Store, s': Store, base: Option<Digest>, d: Digest)
    requires Unmerged(t, x, z) && Unmerged(t, y, z) && (base.Some? ==> Loadable(s, base.value))
    requires forall p :: SlotAt(xy, p) == Meet(BaseAt(s, base, p), SlotAt(x, p), SlotAt(y, p))
    requires HasMore(s, s') && Loadable(s, d) && Loadable(s', d) && z == ViewOf(s, d) && z' == ViewOf(s', d)
    ensures Unmerged(t, xy, z')
  {
    ExtendedView(s, s', d);
    hide ViewOf, Loadable, BaseAt, Meet, Stamp, HasMore;
    forall p | t.merger(p).Some? ensures !(p in xy.files && p in z'.files) {
      MeetGiven(BaseAt(s, base, p), SlotAt(x, p), SlotAt(y, p));
      assert SlotAt(xy, p).reg.Some? ==> SlotAt(x, p).reg.Some? || SlotAt(y, p).reg.Some?;
    }
  }

  lemma BaseStays(s: Store, s': Store, base: Option<Digest>, p: Path)
    requires HasMore(s, s') && (base.Some? ==> Loadable(s, base.value))
    ensures (base.Some? ==> Loadable(s', base.value)) && BaseAt(s', base, p) == BaseAt(s, base, p)
  {
    if base.Some? { ExtendedView(s, s', base.value); }
    hide ViewOf, Loadable;
  }

  lemma LeftIs(t: Tools, s: Store, a: Digest, b: Digest, c: Digest, base: Option<Digest>)
    requires Componentwise(s) && JoinFrom(t, s, a, b, base).Joined? && Componentwise(JoinFrom(t, s, a, b, base).store)
    ensures var o := JoinFrom(t, s, a, b, base); LeftFirst(t, s, a, b, c, base) == JoinFrom(t, o.store, o.digest, c, base)
  {
    hide JoinFrom, Componentwise;
  }

  lemma RightIs(t: Tools, s: Store, a: Digest, b: Digest, c: Digest, base: Option<Digest>)
    requires Componentwise(s) && JoinFrom(t, s, b, c, base).Joined? && Componentwise(JoinFrom(t, s, b, c, base).store)
    ensures var o := JoinFrom(t, s, b, c, base); RightFirst(t, s, a, b, c, base) == JoinFrom(t, o.store, a, o.digest, base)
  {
    hide JoinFrom, Componentwise;
  }

  /**
   * Three heads joined over one base: both groupings succeed, and they show the same register at a path if and
   * only if the guard holds of the slots that the base and the three heads have there.
   */
  lemma GroupingIff(t: Tools, s: Store, a: Digest, b: Digest, c: Digest, base: Option<Digest>, p: Path)
    requires Componentwise(s) && Told(t, s) && Injective(t)
    requires Sole(s, a) && Sole(s, b) && Sole(s, c) && (base.Some? ==> Loadable(s, base.value))
    requires Unmerged(t, ViewOf(s, a), ViewOf(s, b)) && Unmerged(t, ViewOf(s, b), ViewOf(s, c)) && Unmerged(t, ViewOf(s, a), ViewOf(s, c))
    ensures Loadable(s, a) && Loadable(s, b) && Loadable(s, c)
    ensures LeftFirst(t, s, a, b, c, base).Joined? && RightFirst(t, s, a, b, c, base).Joined?
    ensures Shown(LeftFirst(t, s, a, b, c, base), p) == Shown(RightFirst(t, s, a, b, c, base), p) <==>
      GroupsAlike(BaseAt(s, base, p), SlotAt(ViewOf(s, a), p), SlotAt(ViewOf(s, b), p), SlotAt(ViewOf(s, c), p))
  {
    hide *;
    LeftMeets(t, s, a, b, c, base, p);
    RightMeets(t, s, a, b, c, base, p);
    MeetGroups(BaseAt(s, base, p), SlotAt(ViewOf(s, a), p), SlotAt(ViewOf(s, b), p), SlotAt(ViewOf(s, c), p));
  }
}
