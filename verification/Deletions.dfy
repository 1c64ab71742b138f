/** Edit against delete: what a path missing on one side becomes. */
module Deletions {
  import opened Bytes
  import opened Paths
  import opened View
  import opened Ancestry
  import opened MergeHeads

  /** Entry `k` of layer `i` is a whiteout for `p`. */
  predicate Whites(layers: seq<seq<Item<Entry>>>, p: Path, i: int, k: int) {
    0 <= i < |layers| && 0 <= k < |layers[i]| && WhiteoutTarget(layers[i][k].path) == Delete(p)
  }

  predicate WhitesIn(es: seq<Item<Entry>>, p: Path, k: int) {
    0 <= k < |es| && WhiteoutTarget(es[k].path) == Delete(p)
  }

  lemma {:induction false} LayerStamp(w: map<Path, nat>, es: seq<Item<Entry>>, p: Path)
    ensures Stamp(w, p) <= Stamp(StampLayer(w, es), p)
    ensures forall k :: WhitesIn(es, p, k) ==> es[k].payload.mtimeMs <= Stamp(StampLayer(w, es), p)
    ensures Stamp(StampLayer(w, es), p) == Stamp(w, p) || exists k :: WhitesIn(es, p, k) && es[k].payload.mtimeMs == Stamp(StampLayer(w, es), p)
  {
    hide WhiteoutTarget;
    if es != [] {
      var n := |es| - 1;
      var rest := es[..n];
      LayerStamp(w, rest, p);
      forall k | WhitesIn(es, p, k) && k < n ensures WhitesIn(rest, p, k) { assert rest[k] == es[k]; }
      forall k | WhitesIn(rest, p, k) ensures WhitesIn(es, p, k) && es[k] == rest[k] {}
      if WhiteoutTarget(es[n].path) == Delete(p) { assert WhitesIn(es, p, n); }
    }
  }

  /** The clock kept for a deletion is the latest of the path's whiteouts, zero without any. */
  lemma {:induction false} StampIsLatest(layers: seq<seq<Item<Entry>>>, p: Path)
    ensures forall i, k :: Whites(layers, p, i, k) ==> layers[i][k].payload.mtimeMs <= Stamp(Stamps(layers), p)
    ensures Stamp(Stamps(layers), p) == 0 || exists i, k :: Whites(layers, p, i, k) && layers[i][k].payload.mtimeMs == Stamp(Stamps(layers), p)
  {
    hide WhiteoutTarget, StampLayer;
    if layers != [] {
      var n := |layers| - 1;
      var rest := layers[..n];
      StampIsLatest(rest, p);
      LayerStamp(Stamps(rest), layers[n], p);
      forall i, k | Whites(layers, p, i, k) && i < n ensures Whites(rest, p, i, k) { assert rest[i] == layers[i]; }
      forall i, k | Whites(rest, p, i, k) ensures Whites(layers, p, i, k) && layers[i] == rest[i] {}
      forall k ensures Whites(layers, p, n, k) <==> WhitesIn(layers[n], p, k) {}
    }
  }

  /** `r` was written after every whiteout of `p` in the head's layers. */
  ghost predicate Outlives(s: Store, head: Digest, p: Path, r: Register)
    requires Loadable(s, head)
  {
    r.mtimeMs > 0 && forall i, k :: Whites(LayersOf(s, s.manifests[head]), p, i, k) ==> LayersOf(s, s.manifests[head])[i][k].payload.mtimeMs < r.mtimeMs
  }

  lemma OutlivesIff(s: Store, head: Digest, p: Path, r: Register)
    requires Loadable(s, head)
    ensures Outlives(s, head, p, r) <==> Stamp(ViewOf(s, head).whiteouts, p) < r.mtimeMs
  {
    var layers := LayersOf(s, s.manifests[head]);
    StampIsLatest(layers, p);
    assert ViewOf(s, head).whiteouts == Stamps(layers) by { hide Stamps, RegisterOf; }
    hide Stamps, ViewOf, Whites;
  }

  /**
   * A path of the base that one head lacks survives the merge exactly when the other edited it
   * after every deletion that the first head records; its register is then kept as it is.
   */
  lemma DeletedUnlessEditedLater(t: Tools, s: Store, a: Digest, b: Digest, base: Digest, p: Path)
    requires Loadable(s, a) && Loadable(s, b) && Loadable(s, base)
    requires p in ViewOf(s, base).files && (p in ViewOf(s, a).files) != (p in ViewOf(s, b).files)
    ensures var v := SidesOf(s, a, b, Some(base)); var winners := Winners(t, s, v);
      var present := if p in v.a.files then v.a.files[p] else v.b.files[p];
      && (p in winners <==> !SameEntry(present, v.base[p]) && Outlives(s, if p in v.a.files then b else a, p, present))
      && (p in winners ==> winners[p] == Keep(present))
  {
    var v := SidesOf(s, a, b, Some(base));
    if p in v.a.files { OutlivesIff(s, b, p, v.a.files[p]); } else { OutlivesIff(s, a, p, v.b.files[p]); }
    assert v.a == ViewOf(s, a) && v.b == ViewOf(s, b) && v.base == ViewOf(s, base).files;
    hide ViewOf, Outlives, Stamp, SameEntry, SidesOf, Loadable;
    assert p in v.Paths();
    assert p in Winners(t, s, v) <==> Decide(t, s, v, p).Won?;
  }

  /** A whiteout of `p` in the head carries a clock. */
  ghost predicate Clocked(s: Store, head: Digest, p: Path)
    requires Loadable(s, head)
  {
    exists i, k :: Whites(LayersOf(s, s.manifests[head]), p, i, k) && LayersOf(s, s.manifests[head])[i][k].payload.mtimeMs > 0
  }

  lemma ClockedIff(s: Store, head: Digest, p: Path)
    requires Loadable(s, head)
    ensures Clocked(s, head, p) <==> Stamp(ViewOf(s, head).whiteouts, p) > 0
  {
    var layers := LayersOf(s, s.manifests[head]);
    StampIsLatest(layers, p);
    assert ViewOf(s, head).whiteouts == Stamps(layers) by { hide Stamps, RegisterOf; }
    hide Stamps, ViewOf, Whites;
  }

  /**
   * A path of the base that one head lacks is reported as a conflict when the other edited it and lost,
   * or when the deletion is clocked; a deletion without a clock that lost to an edit is not.
   */
  lemma DeletionReported(t: Tools, s: Store, a: Digest, b: Digest, base: Digest, p: Path)
    requires Loadable(s, a) && Loadable(s, b) && Loadable(s, base)
    requires p in ViewOf(s, base).files && (p in ViewOf(s, a).files) != (p in ViewOf(s, b).files)
    ensures var v := SidesOf(s, a, b, Some(base));
      var present := if p in v.a.files then v.a.files[p] else v.b.files[p];
      p in v.Paths() && (IsLww(t, s, v, p) <==>
        Clocked(s, if p in v.a.files then b else a, p) || (!SameEntry(present, v.base[p]) && p !in Winners(t, s, v)))
  {
    var v := SidesOf(s, a, b, Some(base));
    if p in v.a.files { ClockedIff(s, b, p); } else { ClockedIff(s, a, p); }
    assert v.a == ViewOf(s, a) && v.b == ViewOf(s, b) && v.base == ViewOf(s, base).files;
    hide ViewOf, Clocked, Stamp, SameEntry, SidesOf, Loadable;
    assert p in v.Paths();
    assert p in Winners(t, s, v) <==> Decide(t, s, v, p).Won?;
  }
}
