/** Replicas converge: merging one set of heads in any order or grouping shows the same files. */
module Convergence {
  import opened Bytes
  import opened Paths
  import opened View
  import opened Ancestry
  import opened Order
  import opened MergeHeads
  import opened MergedView
  import opened Replay

  type Keys = map<Path, Key>

  /** Per path, the register key a head shows. */
  function KeysAt(s: Store, d: Digest): Keys {
    if Loadable(s, d) then map p | p in ViewOf(s, d).files :: KeyOf(ViewOf(s, d).files[p]) else map[]
  }

  /** Every path of `v` is in `w`, with a key no older. */
  ghost predicate AtMost(v: Keys, w: Keys) {
    forall p :: p in v ==> p in w && !KeyLess(w[p], v[p])
  }

  lemma AtMostSelf(v: Keys)
    ensures AtMost(v, v)
  {
    hide KeyLess;
    forall p | p in v ensures !KeyLess(v[p], v[p]) { KeyTotal(v[p], v[p]); }
  }

  lemma AtMostTransitive(u: Keys, v: Keys, w: Keys)
    requires AtMost(u, v) && AtMost(v, w)
    ensures AtMost(u, w)
  {
    hide KeyLess;
    forall p | p in u ensures !KeyLess(w[p], u[p]) {
      KeyTotal(w[p], v[p]);
      KeyTotal(v[p], u[p]);
      if KeyLess(w[p], u[p]) && KeyLess(u[p], v[p]) { KeyTransitive(w[p], u[p], v[p]); }
    }
  }

  /** `w` is the pointwise maximum of `u` and `v`. */
  ghost predicate IsMax(u: Keys, v: Keys, w: Keys) {
    && AtMost(u, w) && AtMost(v, w)
    && forall p :: p in w ==> (p in u && w[p] == u[p]) || (p in v && w[p] == v[p])
  }

  // --- stores that only ever gain files ---------------------------------------------------------------------

  /** A manifest of per-file layers, each with its diff id. */
  predicate PerFile(s: Store, d: Digest) {
    && Loadable(s, d) && |s.manifests[d].diffIds| == |s.manifests[d].layers|
    && (forall x :: x in s.manifests[d].diffIds ==> x != [])
    && forall l :: l in s.manifests[d].layers ==> SoleFile(s.layers[l.digest])
  }

  ghost predicate Grows(s: Store, d: Digest) {
    d in s.manifests && forall p :: p in s.manifests[d].parents ==> p in s.manifests && AtMost(KeysAt(s, p), KeysAt(s, d))
  }

  /** One file per layer, nothing deleted, and no clock going back along history. */
  ghost predicate Tidy(t: Tools, s: Store) {
    && Componentwise(s) && Hashed(t, s)
    && (forall d :: d in s.manifests ==> PerFile(s, d))
    && (forall d :: d in s.manifests ==> Grows(s, d))
  }

  lemma {:induction false} HistoryGrows(t: Tools, s: Store, h: Digest, d: Digest, n: nat)
    requires Tidy(t, s) && h in s.manifests && Steps(ParentsGraph(s), h, d, n)
    ensures d in s.manifests && AtMost(KeysAt(s, d), KeysAt(s, h))
    decreases n
  {
    hide KeysAt, PerFile, Componentwise, Hashed, KeyLess;
    if n > 0 {
      var u :| Steps(ParentsGraph(s), h, u, n - 1) && d in Parents(ParentsGraph(s), u);
      HistoryGrows(t, s, h, u, n - 1);
      assert Grows(s, u);
      hide AtMost;
      AtMostTransitive(KeysAt(s, d), KeysAt(s, u), KeysAt(s, h));
    } else {
      AtMostSelf(KeysAt(s, h));
    }
  }

  lemma ReachGrows(t: Tools, s: Store, h: Digest, d: Digest)
    requires Tidy(t, s) && h in s.manifests && Reaches(ParentsGraph(s), h, d)
    ensures d in s.manifests && AtMost(KeysAt(s, d), KeysAt(s, h))
  {
    var n: nat :| Steps(ParentsGraph(s), h, d, n);
    HistoryGrows(t, s, h, d, n);
  }

  /** A register whose layer holds its file alone. */
  ghost predicate Alone(s: Store, p: Path, w: Winner) {
    && w.Keep? && Reusable(w) && w.reg.descriptor.digest in s.layers && s.layers[w.reg.descriptor.digest] == [Item(p, false, w.reg.entry)]
    && WhiteoutTarget(p) == NoWhiteout
  }

  /** Every register of a per-file manifest can be reused as it stands. */
  lemma PerFileNative(s: Store, d: Digest)
    requires PerFile(s, d)
    ensures forall p :: p in ViewOf(s, d).files ==> Native(s, p, ViewOf(s, d).files[p]) && Alone(s, p, Keep(ViewOf(s, d).files[p]))
  {
    var m := s.manifests[d];
    var layers := LayersOf(s, m);
    MergedRooted(layers);
    var merged := MergeLayers(layers);
    hide MergeLayers, WhiteoutTarget, Stamps;
    forall p | p in ViewOf(s, d).files
      ensures Native(s, p, ViewOf(s, d).files[p]) && Alone(s, p, Keep(ViewOf(s, d).files[p]))
    {
      var won := merged[p];
      var l := m.layers[won.layer];
      assert l in m.layers && SoleFile(s.layers[l.digest]);
      assert won.item == s.layers[l.digest][0] && won.item == Item(p, false, won.item.payload);
      assert m.diffIds[won.layer] in m.diffIds;
      OneFile(s.layers[l.digest]);
    }
  }

  lemma OneFile(es: seq<Item<Entry>>)
    requires SoleFile(es)
    ensures FileCount(es) == 1 && es == [es[0]]
  {
    assert es[..0] == [];
    assert FileCount(es[..0]) == 0;
  }

  // --- one merge ------------------------------------------------------------------------------------------

  /** A base the merge may use: nothing, or a manifest behind both heads. */
  ghost predicate Behind(s: Store, a: Digest, b: Digest, base: Option<Digest>) {
    base.Some? ==> base.value in s.manifests && AtMost(KeysAt(s, base.value), KeysAt(s, a)) && AtMost(KeysAt(s, base.value), KeysAt(s, b))
  }

  /** No path of the base is missing on either side. */
  ghost predicate Undeleted(v: Sides) {
    forall p :: p in v.base ==> p in v.a.files && p in v.b.files
  }

  lemma KeysAre(s: Store, d: Digest)
    requires Loadable(s, d)
    ensures forall p :: p in KeysAt(s, d) <==> p in ViewOf(s, d).files
    ensures forall p :: p in KeysAt(s, d) ==> KeysAt(s, d)[p] == KeyOf(ViewOf(s, d).files[p])
  {
    hide ViewOf, Loadable, KeyOf;
  }

  lemma SidesUndeleted(s: Store, a: Digest, b: Digest, base: Option<Digest>)
    requires Loadable(s, a) && Loadable(s, b) && (base.Some? ==> Loadable(s, base.value)) && Behind(s, a, b, base)
    ensures Undeleted(SidesOf(s, a, b, base))
  {
    KeysAre(s, a);
    KeysAre(s, b);
    if base.Some? { KeysAre(s, base.value); }
    hide ViewOf, Loadable, KeysAt, KeyLess;
  }

  /** With nothing deleted every path survives, with the newer of its registers. */
  lemma EveryPathWins(t: Tools, s: Store, v: Sides, p: Path)
    requires Undeleted(v) && t.merger(p).None? && p in v.Paths()
    ensures Decide(t, s, v, p).Won? && Decide(t, s, v, p).winner.Keep?
    ensures Decide(t, s, v, p).winner.reg ==
      if p !in v.b.files then v.a.files[p] else if p !in v.a.files then v.b.files[p] else NewerOf(v.a.files[p], v.b.files[p])
  {
    hide NewerOf, SameEntry;
  }

  lemma WinnersReady(t: Tools, s: Store, a: Digest, b: Digest, base: Option<Digest>)
    requires PerFile(s, a) && PerFile(s, b) && (base.Some? ==> Loadable(s, base.value)) && Behind(s, a, b, base)
    requires forall p :: t.merger(p).None?
    ensures var v := SidesOf(s, a, b, base); var winners := Winners(t, s, v);
      && winners.Keys == v.Paths() && (forall p :: p in v.Paths() ==> !Decide(t, s, v, p).Unreadable?)
      && forall p :: p in winners ==> Ready(s, p, winners[p]) && Alone(s, p, winners[p])
  {
    var v := SidesOf(s, a, b, base);
    SidesUndeleted(s, a, b, base);
    PerFileNative(s, a);
    PerFileNative(s, b);
    hide ViewOf, PerFile, Behind, Native, Alone, Reusable, Decide, Undeleted;
    assert forall p, w :: Alone(s, p, w) ==> WhiteoutTarget(p) == NoWhiteout by { AlonePlain(s); }
    hide WhiteoutTarget;
    forall p | p in v.Paths()
      ensures Decide(t, s, v, p).Won? && Ready(s, p, Decide(t, s, v, p).winner) && Alone(s, p, Decide(t, s, v, p).winner)
    {
      EveryPathWins(t, s, v, p);
      if p in v.a.files && p in v.b.files { NewerIsGreater(v.a.files[p], v.b.files[p]); }
      hide NewerOf;
    }
    hide Ready, Sides.Paths, SidesOf;
  }

  lemma AlonePlain(s: Store)
    ensures forall p, w :: Alone(s, p, w) ==> WhiteoutTarget(p) == NoWhiteout && Reusable(w)
  {
    hide WhiteoutTarget, Reusable;
  }

  /** The winners' keys are the pointwise maximum. */
  lemma WinnersMax(t: Tools, s: Store, v: Sides, u: Keys, w: Keys, keys: Keys)
    requires Undeleted(v) && (forall p :: t.merger(p).None?)
    requires u == (map p | p in v.a.files :: KeyOf(v.a.files[p])) && w == map p | p in v.b.files :: KeyOf(v.b.files[p])
    requires keys.Keys == v.Paths() && forall p :: p in keys ==> Decide(t, s, v, p).Won? && Decide(t, s, v, p).winner.Keep? && keys[p] == KeyOf(Decide(t, s, v, p).winner.reg)
    ensures IsMax(u, w, keys)
  {
    hide KeyLess, KeyOf, NewerOf, Decide, Undeleted;
    forall p | p in keys
      ensures (p in u ==> !KeyLess(keys[p], u[p])) && (p in w ==> !KeyLess(keys[p], w[p]))
      ensures (p in u && keys[p] == u[p]) || (p in w && keys[p] == w[p])
    {
      EveryPathWins(t, s, v, p);
      KeyTotal(keys[p], keys[p]);
      if p in u && p in w {
        NewerIsGreater(v.a.files[p], v.b.files[p]);
        KeyTotal(u[p], w[p]);
      }
    }
  }

  lemma {:induction false} ReusedOnly(t: Tools, s: Store, winners: map<Path, Winner>, q: seq<Path>)
    requires forall p :: p in q ==> p in winners && Reusable(winners[p])
    ensures AddWinners(t, s, winners, q).Some?
    ensures var d := AddWinners(t, s, winners, q).value;
      && d.store == s && |d.layers| == |d.diffIds| == |q|
      && forall i :: 0 <= i < |q| ==> winners[q[i]].Keep? && d.layers[i] == winners[q[i]].reg.descriptor && d.diffIds[i] == winners[q[i]].reg.diffId
  {
    if q != [] {
      ReusedOnly(t, s, winners, q[..|q| - 1]);
      assert q[|q| - 1] in q;
    }
  }

  /** `s'` is `s` with more manifests. */
  ghost predicate HasMore(s: Store, s': Store) {
    s'.layers == s.layers && s.manifests.Keys <= s'.manifests.Keys && forall d :: d in s.manifests ==> s'.manifests[d] == s.manifests[d]
  }

  lemma ExtendedView(s: Store, s': Store, d: Digest)
    requires HasMore(s, s') && d in s.manifests
    ensures KeysAt(s', d) == KeysAt(s, d) && (PerFile(s, d) ==> PerFile(s', d)) && (Loadable(s, d) ==> Loadable(s', d) && ViewOf(s', d) == ViewOf(s, d))
  {
    if Loadable(s, d) { assert LayersOf(s', s.manifests[d]) == LayersOf(s, s.manifests[d]); }
    hide RegisterOf, MergeLayers, Stamps, KeyOf, SoleFile;
  }

  lemma SortTwoHas(a: Digest, b: Digest)
    ensures forall d :: d in SortTwo(a, b) <==> d == a || d == b
  {
    hide Less;
  }

  /** What a per-file join stores: one manifest over the winners' own layers. */
  lemma JoinStores(t: Tools, s: Store, headA: Digest, headB: Digest, v: Sides)
    requires Sortable(v) && Hashed(t, s) && Injective(t)
    requires (forall p :: p in v.Paths() ==> !Decide(t, s, v, p).Unreadable?) && forall p :: p in Winners(t, s, v) ==> Reusable(Winners(t, s, v)[p])
    ensures var o := Join(t, s, headA, headB, v);
      && o.Joined? && Hashed(t, o.store) && HasMore(s, o.store) && o.store.tars == s.tars && o.digest in o.store.manifests
      && (forall x :: x in o.store.manifests && x != o.digest ==> x in s.manifests)
      && (forall x :: x in o.store.manifests[o.digest].parents <==> x == headA || x == headB)
      && Sourced(Winners(t, s, v), o.store.manifests[o.digest])
      && ((forall p :: p in Winners(t, s, v) ==> Alone(s, p, Winners(t, s, v)[p])) ==> HeadUndisturbed(o.store, o.digest))
  {
    hide *;
    var winners := Winners(t, s, v);
    WinnersSort(t, s, v);
    var q := InOrder(winners.Keys);
    ListsMembers(q, winners.Keys);
    ReusedOnly(t, s, winners, q);
    JoinSucceeds(t, s, headA, headB, v);
    JoinIs(t, s, headA, headB, v);
    SortTwoHas(headA, headB);
    Extended(s, Join(t, s, headA, headB, v).store);
    var o := Join(t, s, headA, headB, v);
    ReusedSources(winners, q, o.store.manifests[o.digest]);
    if forall p :: p in winners ==> Alone(s, p, winners[p]) {
      ListsDistinct(q, winners.Keys);
      AloneExtended(s, o.store, winners);
      ReusedStack(o.store, winners, q, o.digest);
    }
  }

  lemma AloneExtended(s: Store, s': Store, winners: map<Path, Winner>)
    requires HasMore(s, s') && forall p :: p in winners ==> Alone(s, p, winners[p])
    ensures forall p :: p in winners ==> Alone(s', p, winners[p])
  {
    hide WhiteoutTarget, Reusable;
  }

  lemma ReusedStack(s: Store, winners: map<Path, Winner>, q: seq<Path>, head: Digest)
    requires head in s.manifests && Distinct(q) && (forall p :: p in q ==> p in winners && Alone(s, p, winners[p]))
    requires var m := s.manifests[head];
      |m.layers| == |q| && forall i :: 0 <= i < |q| ==> winners[q[i]].Keep? && m.layers[i] == winners[q[i]].reg.descriptor
    ensures HeadUndisturbed(s, head)
  {
    var m := s.manifests[head];
    hide Undisturbed, Flattened, WhiteoutTarget;
    forall l | l in m.layers ensures l.digest in s.layers {
      var i :| 0 <= i < |m.layers| && m.layers[i] == l;
      assert q[i] in q;
    }
    var layers := LayersOf(s, m);
    forall i | 0 <= i < |q| ensures SoleFile(layers[i]) && layers[i][0].path == q[i] {
      assert q[i] in q && m.layers[i] in m.layers;
    }
    SinglesUndisturbed(layers, q);
  }

  lemma ShowsMeans(s: Store, head: Digest, winners: map<Path, Winner>)
    requires ShowsWinners(s, head, winners)
    ensures Loadable(s, head) && (forall p :: p in ViewOf(s, head).files <==> p in winners)
    ensures forall p :: p in winners ==> Shows(s, winners[p], ViewOf(s, head).files[p])
  {
    hide Loadable, ViewOf, Shows;
  }

  lemma ReusedSources(winners: map<Path, Winner>, q: seq<Path>, m: Manifest)
    requires |m.layers| == |m.diffIds| == |q| && forall p :: p in q ==> p in winners
    requires forall i :: 0 <= i < |q| ==> winners[q[i]].Keep? && m.layers[i] == winners[q[i]].reg.descriptor && m.diffIds[i] == winners[q[i]].reg.diffId
    ensures Sourced(winners, m)
  {
    forall i | 0 <= i < |q| ensures q[i] in q {}
  }

  /** Every layer and diff id of `m` belongs to a winner's register. */
  ghost predicate Sourced(winners: map<Path, Winner>, m: Manifest) {
    && |m.diffIds| == |m.layers|
    && (forall x :: x in m.diffIds ==> exists p :: p in winners && winners[p].Keep? && x == winners[p].reg.diffId)
    && (forall l :: l in m.layers ==> exists p :: p in winners && winners[p].Keep? && l == winners[p].reg.descriptor)
  }

  lemma Extended(s: Store, s': Store)
    requires s'.layers == s.layers && s.manifests.Keys <= s'.manifests.Keys && forall d :: d in s.manifests ==> s'.manifests[d] == s.manifests[d]
    ensures HasMore(s, s')
  {
  }

  lemma JoinSucceeds(t: Tools, s: Store, headA: Digest, headB: Digest, v: Sides)
    requires Sortable(v) && (forall p :: p in v.Paths() ==> !Decide(t, s, v, p).Unreadable?)
    requires forall p :: p in Winners(t, s, v) ==> NoSlash(p)
    requires forall p :: p in InOrder(Winners(t, s, v).Keys) <==> p in Winners(t, s, v)
    requires AddWinners(t, s, Winners(t, s, v), InOrder(Winners(t, s, v).Keys)).Some?
    ensures Join(t, s, headA, headB, v).Joined?
  {
    ListsMembers(InOrder(v.Paths()), v.Paths());
    hide InOrder, Winners, AddWinners, LwwPaths, ContentPaths, Decide, NoSlash, Sides.Paths, SortTwo, Lists;
  }

  /** A merge of two per-file heads publishes a per-file head, older than neither, showing the maximum. */
  lemma TidyJoin(t: Tools, ar: Archive, s: Store, a: Digest, b: Digest, base: Option<Digest>)
    requires Tidy(t, s) && Archived(ar, s) && Builds(t, ar) && Injective(t) && (forall p :: t.merger(p).None?)
    requires a in s.manifests && b in s.manifests && Behind(s, a, b, base)
    ensures var o := JoinFrom(t, s, a, b, base);
      && o.Joined? && Tidy(t, o.store) && HasMore(s, o.store) && Archived(ar, o.store) && o.digest in o.store.manifests
      && IsMax(KeysAt(s, a), KeysAt(s, b), KeysAt(o.store, o.digest))
  {
    hide *;
    TidyAt(t, s, a);
    TidyAt(t, s, b);
    if base.Some? { TidyBase(t, s, a, b, base); }
    ViewNoSlash(s, a);
    ViewNoSlash(s, b);
    var v := SidesOf(s, a, b, base);
    SidesSort(s, a, b, base);
    WinnersReady(t, s, a, b, base);
    SidesUndeleted(s, a, b, base);
    AlonePlain(s);
    JoinStores(t, s, a, b, v);
    ViewsJoined(t, ar, s, a, b, v);
    ShowsMeans(Join(t, s, a, b, v).store, Join(t, s, a, b, v).digest, Winners(t, s, v));
    JoinFromIs(t, s, a, b, base);
    var o := Join(t, s, a, b, v);
    NewKeys(t, s, a, b, base, o.store, o.digest);
    NewIsPerFile(t, s, v, o.store, o.digest);
    NewIsTidy(t, s, o.store, o.digest, a, b);
    HoldsExtended(ar, s, o.store);
  }

  lemma TidyAt(t: Tools, s: Store, d: Digest)
    requires Tidy(t, s) && d in s.manifests
    ensures Componentwise(s) && Hashed(t, s) && PerFile(s, d) && Loadable(s, d)
  {
    hide KeysAt;
  }

  lemma TidyBase(t: Tools, s: Store, a: Digest, b: Digest, base: Option<Digest>)
    requires Tidy(t, s) && Behind(s, a, b, base) && base.Some?
    ensures Loadable(s, base.value)
  {
    hide KeysAt;
  }

  lemma SidesSort(s: Store, a: Digest, b: Digest, base: Option<Digest>)
    requires Loadable(s, a) && Loadable(s, b) && (base.Some? ==> Loadable(s, base.value))
    requires (forall p :: p in ViewOf(s, a).files ==> NoSlash(p)) && forall p :: p in ViewOf(s, b).files ==> NoSlash(p)
    ensures Sortable(SidesOf(s, a, b, base))
  {
    hide ViewOf, NoSlash, Loadable;
  }

  lemma JoinFromIs(t: Tools, s: Store, a: Digest, b: Digest, base: Option<Digest>)
    requires Componentwise(s) && Loadable(s, a) && Loadable(s, b) && (base.Some? ==> Loadable(s, base.value)) && Sortable(SidesOf(s, a, b, base))
    ensures JoinFrom(t, s, a, b, base) == Join(t, s, a, b, SidesOf(s, a, b, base))
  {
    hide Componentwise, Loadable, Sortable, SidesOf, Join;
  }

  lemma HoldsExtended(ar: Archive, s: Store, s': Store)
    requires Archived(ar, s) && HasMore(s, s') && s'.tars == s.tars
    ensures Archived(ar, s')
  {
  }

  lemma NewKeys(t: Tools, s: Store, a: Digest, b: Digest, base: Option<Digest>, s': Store, d: Digest)
    requires Loadable(s, a) && Loadable(s, b) && (base.Some? ==> Loadable(s, base.value)) && Undeleted(SidesOf(s, a, b, base)) && Loadable(s', d)
    requires forall p :: t.merger(p).None?
    requires var winners := Winners(t, s, SidesOf(s, a, b, base));
      && winners.Keys == SidesOf(s, a, b, base).Paths() && (forall p :: p in ViewOf(s', d).files <==> p in winners)
      && forall p :: p in winners ==> Reusable(winners[p]) && Shows(s', winners[p], ViewOf(s', d).files[p])
    ensures IsMax(KeysAt(s, a), KeysAt(s, b), KeysAt(s', d))
  {
    var v := SidesOf(s, a, b, base);
    KeysAre(s, a);
    KeysAre(s, b);
    KeysAre(s', d);
    assert v.a == ViewOf(s, a) && v.b == ViewOf(s, b);
    hide *;
    ShownKeys(t, s, v, s', d);
    WinnersMax(t, s, v, KeysAt(s, a), KeysAt(s, b), KeysAt(s', d));
  }

  lemma ShownKeys(t: Tools, s: Store, v: Sides, s': Store, d: Digest)
    requires Loadable(s', d) && Winners(t, s, v).Keys == v.Paths()
    requires (forall p :: p in ViewOf(s', d).files <==> p in Winners(t, s, v))
    requires forall p :: p in Winners(t, s, v) ==> Reusable(Winners(t, s, v)[p]) && Shows(s', Winners(t, s, v)[p], ViewOf(s', d).files[p])
    ensures var keys := KeysAt(s', d);
      && keys.Keys == v.Paths()
      && forall p :: p in keys ==> Decide(t, s, v, p).Won? && Decide(t, s, v, p).winner.Keep? && keys[p] == KeyOf(Decide(t, s, v, p).winner.reg)
  {
    hide *;
    KeysAre(s', d);
    var files, keys := ViewOf(s', d).files, KeysAt(s', d);
    forall p | p in keys ensures Decide(t, s, v, p).Won? && Decide(t, s, v, p).winner.Keep? && keys[p] == KeyOf(Decide(t, s, v, p).winner.reg) {
      WinnerOf(t, s, v, p);
      ReusedShows(s', Winners(t, s, v)[p], files[p]);
    }
    assert keys.Keys == Winners(t, s, v).Keys;
  }

  lemma ReusedShows(s: Store, w: Winner, r: Register)
    requires Reusable(w) && Shows(s, w, r)
    ensures w.Keep? && r == w.reg
  {
  }

  lemma NewIsPerFile(t: Tools, s: Store, v: Sides, s': Store, d: Digest)
    requires HasMore(s, s') && d in s'.manifests
    requires var winners := Winners(t, s, v); var m := s'.manifests[d];
      && (forall p :: p in winners ==> Alone(s, p, winners[p]))
      && Sourced(winners, m)
    ensures PerFile(s', d)
  {
    hide Winners, WhiteoutTarget;
  }

  lemma NewIsTidy(t: Tools, s: Store, s': Store, d: Digest, a: Digest, b: Digest)
    requires Tidy(t, s) && HasMore(s, s') && Hashed(t, s') && a in s.manifests && b in s.manifests
    requires d in s'.manifests && PerFile(s', d) && IsMax(KeysAt(s, a), KeysAt(s, b), KeysAt(s', d))
    requires (forall x :: x in s'.manifests && x != d ==> x in s.manifests)
    requires forall x :: x in s'.manifests[d].parents <==> x == a || x == b
    ensures Tidy(t, s')
  {
    forall x | x in s.manifests ensures KeysAt(s', x) == KeysAt(s, x) && (PerFile(s, x) ==> PerFile(s', x)) { ExtendedView(s, s', x); }
    hide KeysAt, PerFile, Hashed, AtMost;
    forall x | x in s'.manifests ensures Grows(s', x) && PerFile(s', x) {
      if x != d { assert Grows(s, x); }
    }
  }

  /** Store and head after a merge, fast-forwards included. */
  function After(s: Store, o: Outcome): Store
    requires !o.Failed?
  {
    if o.Joined? then o.store else s
  }

  /** In a tidy store a merge never fails, stays tidy, and its head shows the maximum of the two. */
  lemma TidyMerge(t: Tools, ar: Archive, s: Store, a: Digest, b: Digest, maxWalk: nat, o: Outcome)
    requires Tidy(t, s) && Archived(ar, s) && Builds(t, ar) && Injective(t) && (forall p :: t.merger(p).None?)
    requires a in s.manifests && b in s.manifests && Componentwise(s) && Merges(t, s, a, b, maxWalk, o)
    ensures !o.Failed? && Tidy(t, After(s, o)) && HasMore(s, After(s, o)) && Archived(ar, After(s, o)) && o.digest in After(s, o).manifests
    ensures IsMax(KeysAt(s, a), KeysAt(s, b), KeysAt(After(s, o), o.digest))
  {
    AfterIs(s, o);
    hide *;
    Extended(s, s);
    AtMostSelf(KeysAt(s, a));
    var ab, ba, base := Taken(t, s, a, b, maxWalk, o);
    if a == b {
      AheadIsMax(KeysAt(s, a), KeysAt(s, b));
    } else if ab {
      ReachGrows(t, s, a, b);
      AheadIsMax(KeysAt(s, b), KeysAt(s, a));
      MaxSwaps(KeysAt(s, b), KeysAt(s, a), KeysAt(s, a));
    } else if ba {
      ReachGrows(t, s, b, a);
      AheadIsMax(KeysAt(s, a), KeysAt(s, b));
    } else {
      BaseBehind(t, s, a, b, maxWalk, base);
      TidyJoin(t, ar, s, a, b, base);
    }
  }

  lemma AfterIs(s: Store, o: Outcome)
    ensures !o.Failed? ==> After(s, o) == if o.Joined? then o.store else s
  {
  }

  /** The searches' answers behind an outcome. */
  lemma Taken(t: Tools, s: Store, a: Digest, b: Digest, maxWalk: nat, o: Outcome) returns (ab: bool, ba: bool, base: Option<Digest>)
    requires Componentwise(s) && Merges(t, s, a, b, maxWalk, o)
    ensures a == b ==> o == Ahead(a)
    ensures a != b ==> BaseOf(ParentsGraph(s), a, b, maxWalk, base) && o == if ab then Ahead(a) else if ba then Ahead(b) else JoinFrom(t, s, a, b, base)
    ensures a != b && ab ==> Reaches(ParentsGraph(s), a, b)
    ensures a != b && ba ==> Reaches(ParentsGraph(s), b, a)
  {
    ab, ba, base := false, false, None;
    if a != b {
      hide BaseOf, JoinFrom, Reaches, Fits, Componentwise, ParentsGraph;
      var g := ParentsGraph(s);
      ab, ba, base :| Answers(g, b, a, maxWalk, ab) && Answers(g, a, b, maxWalk, ba) && BaseOf(g, a, b, maxWalk, base)
        && o == if ab then Ahead(a) else if ba then Ahead(b) else JoinFrom(t, s, a, b, base);
    }
  }

  lemma AheadIsMax(u: Keys, w: Keys)
    requires AtMost(u, w)
    ensures IsMax(u, w, w)
  {
    AtMostSelf(w);
    hide KeyLess;
  }

  lemma MaxSwaps(u: Keys, v: Keys, w: Keys)
    requires IsMax(u, v, w)
    ensures IsMax(v, u, w)
  {
  }

  lemma BaseBehind(t: Tools, s: Store, a: Digest, b: Digest, maxWalk: nat, base: Option<Digest>)
    requires Tidy(t, s) && a in s.manifests && b in s.manifests && BaseOf(ParentsGraph(s), a, b, maxWalk, base)
    ensures Behind(s, a, b, base)
  {
    hide Tidy, KeysAt, AtMost, Chosen, Fits;
    if base.Some? {
      var w: nat :| Common(ParentsGraph(s), a, b, base.value, w);
      CommonReaches(ParentsGraph(s), a, b, base.value, w);
      hide Common, Reaches;
      ReachGrows(t, s, a, base.value);
      ReachGrows(t, s, b, base.value);
    }
  }

  // --- any order, any grouping -------------------------------------------------------------------------

  datatype Plan = Head(digest: Digest) | Merge(left: Plan, right: Plan)

  function Heads(plan: Plan): set<Digest> {
    match plan
    case Head(d) => {d}
    case Merge(l, r) => Heads(l) + Heads(r)
  }

  /** Merging by `plan` from store `s` may end in store `s'` with head `d`. */
  ghost predicate Runs(t: Tools, s: Store, plan: Plan, maxWalk: nat, s': Store, d: Digest)
    decreases plan
  {
    match plan
    case Head(h) => s' == s && d == h
    case Merge(l, r) =>
      exists s1, d1, s2, d2, o ::
        && Runs(t, s, l, maxWalk, s1, d1) && Runs(t, s1, r, maxWalk, s2, d2)
        && Merged(t, s2, d1, d2, maxWalk, o) && !o.Failed? && s' == After(s2, o) && d == o.digest
  }

  ghost predicate Merged(t: Tools, s: Store, a: Digest, b: Digest, maxWalk: nat, o: Outcome) {
    Componentwise(s) && Merges(t, s, a, b, maxWalk, o)
  }

  /** `w` is the pointwise maximum of what the heads show in `s`. */
  ghost predicate IsPeak(s: Store, heads: set<Digest>, w: Keys) {
    && (forall h :: h in heads ==> AtMost(KeysAt(s, h), w))
    && forall p :: p in w ==> exists h :: h in heads && p in KeysAt(s, h) && KeysAt(s, h)[p] == w[p]
  }

  lemma PeakOfMax(s: Store, g: set<Digest>, h: set<Digest>, u: Keys, v: Keys, w: Keys)
    requires IsPeak(s, g, u) && IsPeak(s, h, v) && IsMax(u, v, w)
    ensures IsPeak(s, g + h, w)
  {
    hide KeysAt, AtMost;
    forall x | x in g + h ensures AtMost(KeysAt(s, x), w) {
      if x in g { AtMostTransitive(KeysAt(s, x), u, w); } else { AtMostTransitive(KeysAt(s, x), v, w); }
    }
  }

  lemma PeakUnique(s: Store, heads: set<Digest>, u: Keys, w: Keys)
    requires IsPeak(s, heads, u) && IsPeak(s, heads, w)
    ensures u == w
  {
    PeakBelow(s, heads, u, w);
    PeakBelow(s, heads, w, u);
    hide *;
    Antisymmetric(u, w);
  }

  lemma Antisymmetric(u: Keys, w: Keys)
    requires AtMost(u, w) && AtMost(w, u)
    ensures u == w
  {
    hide KeyLess;
    forall p | p in u ensures u[p] == w[p] { KeyTotal(u[p], w[p]); }
  }

  lemma PeakBelow(s: Store, heads: set<Digest>, u: Keys, w: Keys)
    requires IsPeak(s, heads, u) && IsPeak(s, heads, w)
    ensures AtMost(u, w)
  {
    hide KeysAt, KeyLess;
    forall p | p in u ensures p in w && !KeyLess(w[p], u[p]) {
      var h :| h in heads && p in KeysAt(s, h) && KeysAt(s, h)[p] == u[p];
      assert AtMost(KeysAt(s, h), w);
    }
  }

  lemma {:induction false} RunPeaks(t: Tools, ar: Archive, s: Store, plan: Plan, maxWalk: nat, s': Store, d: Digest)
    requires Tidy(t, s) && Archived(ar, s) && Builds(t, ar) && Injective(t) && (forall p :: t.merger(p).None?)
    requires Heads(plan) <= s.manifests.Keys && Runs(t, s, plan, maxWalk, s', d)
    ensures Tidy(t, s') && Archived(ar, s') && HasMore(s, s') && d in s'.manifests && IsPeak(s, Heads(plan), KeysAt(s', d))
    decreases plan
  {
    hide Tidy, Archived, Builds, Injective, KeysAt, AtMost, IsMax, IsPeak, HasMore, Merged;
    match plan
    case Head(h) =>
      assert d in Heads(plan);
      Extended(s, s);
      PeakOfOne(s, d);
    case Merge(l, r) =>
      var s1, d1, s2, d2, o :| Runs(t, s, l, maxWalk, s1, d1) && Runs(t, s1, r, maxWalk, s2, d2)
        && Merged(t, s2, d1, d2, maxWalk, o) && !o.Failed? && s' == After(s2, o) && d == o.digest;
      assert Heads(l) <= Heads(plan) && Heads(r) <= Heads(plan);
      RunPeaks(t, ar, s, l, maxWalk, s1, d1);
      ExtendedKeys(s, s1);
      RunPeaks(t, ar, s1, r, maxWalk, s2, d2);
      ExtendedKeys(s1, s2);
      MergedIs(t, s2, d1, d2, maxWalk, o);
      TidyMerge(t, ar, s2, d1, d2, maxWalk, o);
      PeakKept(s, s1, Heads(r), KeysAt(s2, d2));
      PeakOfMax(s, Heads(l), Heads(r), KeysAt(s2, d1), KeysAt(s2, d2), KeysAt(s', d));
      ExtendsTransitive(s, s1, s2);
      ExtendsTransitive(s, s2, s');
  }

  lemma PeakOfOne(s: Store, d: Digest)
    ensures IsPeak(s, {d}, KeysAt(s, d))
  {
    AtMostSelf(KeysAt(s, d));
    hide KeysAt;
  }

  lemma MergedIs(t: Tools, s: Store, a: Digest, b: Digest, maxWalk: nat, o: Outcome)
    requires Merged(t, s, a, b, maxWalk, o)
    ensures Componentwise(s) && Merges(t, s, a, b, maxWalk, o)
  {
    hide Componentwise, Merges;
  }

  lemma ExtendedKeys(s: Store, s': Store)
    requires HasMore(s, s')
    ensures forall d :: d in s.manifests ==> d in s'.manifests && KeysAt(s', d) == KeysAt(s, d)
  {
    forall d | d in s.manifests ensures KeysAt(s', d) == KeysAt(s, d) { ExtendedView(s, s', d); }
    hide KeysAt;
  }

  lemma PeakKept(s: Store, s': Store, heads: set<Digest>, w: Keys)
    requires HasMore(s, s') && heads <= s.manifests.Keys && IsPeak(s', heads, w)
    ensures IsPeak(s, heads, w)
  {
    ExtendedKeys(s, s');
    hide KeysAt, AtMost;
  }

  lemma ExtendsTransitive(s: Store, s': Store, s'': Store)
    requires HasMore(s, s') && HasMore(s', s'')
    ensures HasMore(s, s'')
  {
  }

  /** Registers showing the same bytes, clock and author. */
  predicate SameFile(a: Register, b: Register) {
    a.entry == b.entry && a.descriptor.digest == b.descriptor.digest && a.mtimeMs == b.mtimeMs && a.actor == b.actor
  }

  /** Two replicas that merge the same heads, each in its own order and grouping, show the same files. */
  lemma Converges(t: Tools, ar: Archive, s: Store, plan: Plan, plan': Plan, maxWalk: nat, s': Store, d: Digest, s'': Store, d': Digest)
    requires Tidy(t, s) && Archived(ar, s) && Builds(t, ar) && Injective(t) && (forall p :: t.merger(p).None?)
    requires Heads(plan) == Heads(plan') <= s.manifests.Keys
    requires Runs(t, s, plan, maxWalk, s', d) && Runs(t, s, plan', maxWalk, s'', d')
    ensures Loadable(s', d) && Loadable(s'', d')
    ensures var f, f' := ViewOf(s', d).files, ViewOf(s'', d').files;
      && (forall p :: p in f <==> p in f')
      && forall p :: p in f ==> SameFile(f[p], f'[p])
  {
    hide *;
    RunPeaks(t, ar, s, plan, maxWalk, s', d);
    RunPeaks(t, ar, s, plan', maxWalk, s'', d');
    PeakUnique(s, Heads(plan), KeysAt(s', d), KeysAt(s'', d'));
    TidyAt(t, s', d);
    TidyAt(t, s'', d');
    ExtendsLayers(s, s', s'');
    SameKeysSameFiles(s', d, s'', d');
  }

  lemma ExtendsLayers(s: Store, s': Store, s'': Store)
    requires HasMore(s, s') && HasMore(s, s'')
    ensures s'.layers == s''.layers
  {
  }

  lemma SameKeysSameFiles(s: Store, d: Digest, s': Store, d': Digest)
    requires PerFile(s, d) && PerFile(s', d') && s.layers == s'.layers && KeysAt(s, d) == KeysAt(s', d')
    ensures var f, f' := ViewOf(s, d).files, ViewOf(s', d').files;
      && (forall p :: p in f <==> p in f')
      && forall p :: p in f ==> SameFile(f[p], f'[p])
  {
    PerFileNative(s, d);
    PerFileNative(s', d');
    KeysAre(s, d);
    KeysAre(s', d');
    hide ViewOf, PerFile, KeysAt, IsFile, WhiteoutTarget, Reusable;
    var f, f' := ViewOf(s, d).files, ViewOf(s', d').files;
    forall p | p in f ensures p in f' && SameFile(f[p], f'[p]) {
      assert p in KeysAt(s, d) && p in KeysAt(s', d') && KeyOf(f[p]) == KeyOf(f'[p]);
      assert Native(s, p, f[p]) && Native(s', p, f'[p]);
    }
    forall p | p in f' ensures p in f { assert p in KeysAt(s', d'); }
  }
}
