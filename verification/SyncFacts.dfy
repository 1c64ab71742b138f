/** Closure, conservation and progress of anti-entropy passes. */
module SyncFacts {
  import opened Bytes
  import opened Sets
  import opened Sync

  // --- the walk ----------------------------------------------------------------------------------------

  /** The indexes published among the layers. */
  function Indexes(layers: seq<LayerRef>): nat {
    if layers == [] then 0 else Indexes(layers[..|layers| - 1]) + if layers[|layers| - 1].index.Some? then 1 else 0
  }

  /** Layer `i` stands behind the earlier layers and their indexes, and its own index follows it. */
  ghost predicate InPlace(layers: seq<LayerRef>, i: nat, walk: seq<Digest>)
    requires i < |layers|
  {
    && var k := i + Indexes(layers[..i]);
      k < |walk| && walk[k] == layers[i].digest && (layers[i].index.Some? ==> k + 1 < |walk| && walk[k + 1] == layers[i].index.value)
  }

  lemma {:induction false} LayersInPlace(layers: seq<LayerRef>)
    ensures |LayerDigests(layers)| == |layers| + Indexes(layers)
    ensures forall i :: 0 <= i < |layers| ==> InPlace(layers, i, LayerDigests(layers))
    ensures forall d :: d in LayerDigests(layers) <==> exists l :: l in layers && (l.digest == d || l.index == Some(d))
  {
    if layers != [] {
      var n := |layers| - 1;
      var rest := layers[..n];
      LayersInPlace(rest);
      forall i | 0 <= i < |layers| ensures InPlace(layers, i, LayerDigests(layers)) {
        if i < n {
          assert InPlace(rest, i, LayerDigests(rest)) && rest[..i] == layers[..i];
        }
      }
      assert layers == rest + [layers[n]];
      LastLayer(rest, layers[n]);
    }
  }

  lemma LastLayer(rest: seq<LayerRef>, last: LayerRef)
    requires forall d :: d in LayerDigests(rest) <==> exists l :: l in rest && (l.digest == d || l.index == Some(d))
    ensures forall d :: d in LayerDigests(rest + [last]) <==> exists l :: l in rest + [last] && (l.digest == d || l.index == Some(d))
  {
    var layers := rest + [last];
    assert layers[..|layers| - 1] == rest;
    forall d ensures d in LayerDigests(layers) <==> exists l :: l in layers && (l.digest == d || l.index == Some(d)) {
      assert d in LayerDigests(layers) <==> d in LayerDigests(rest) || last.digest == d || last.index == Some(d);
      if l :| l in rest && (l.digest == d || l.index == Some(d)) { assert l in layers; }
      assert last in layers;
    }
  }

  /** Metadata first: the manifest itself, then its config. */
  ghost predicate MetadataFirst(m: Image, d: Digest, walk: seq<Digest>) {
    walk != [] && walk[0] == d && (m.config.Some? ==> |walk| > 1 && walk[1] == m.config.value)
  }

  /** Behind the metadata come the layers in order, each before its index. */
  ghost predicate LayersFollow(m: Image, walk: seq<Digest>) {
    var n := if m.config.Some? then 2 else 1;
    |walk| == n + |m.layers| + Indexes(m.layers) && forall i :: 0 <= i < |m.layers| ==> InPlace(m.layers, i, walk[n..])
  }

  /** The walk of a manifest that parses: metadata first, and exactly the manifest and what it names. */
  lemma ImageDigestsAre(f: Formats, d: Digest, manifest: Bytes)
    ensures ImageDigests(f, d, manifest).Some? <==> f.image(manifest).Some?
    ensures f.image(manifest).Some? ==>
      var m, walk := f.image(manifest).value, ImageDigests(f, d, manifest).value;
      MetadataFirst(m, d, walk) && LayersFollow(m, walk) && forall x :: x in walk <==> x == d || Names(m, x)
  {
    if f.image(manifest).Some? {
      var m, walk := f.image(manifest).value, ImageDigests(f, d, manifest).value;
      LayersInPlace(m.layers);
      hide LayerDigests, InPlace, Indexes;
      var n := if m.config.Some? then 2 else 1;
      assert walk[n..] == LayerDigests(m.layers);
      forall x ensures x in walk <==> x == d || Names(m, x) {
        assert x in walk <==> x in walk[..n] || x in walk[n..];
      }
    }
  }

  /** A chain is walked exactly when every record of it can be read, and the walk lists it from the head back. */
  lemma {:induction false} AuditDigestsAre(f: Formats, blobs: Blobs, head: Digest)
    requires Descends(f, blobs)
    ensures WalkAudit(f, blobs, head).Some? ==>
      var walk := WalkAudit(f, blobs, head).value;
      && walk != [] && (forall i :: 0 <= i < |walk| ==> Back(f, blobs, head, walk[i], i) && walk[i] in blobs)
      && (forall i :: 0 <= i < |walk| - 1 ==> f.prev(blobs[walk[i]]) == Some(Some(walk[i + 1])))
      && f.prev(blobs[walk[|walk| - 1]]) == Some(None)
    ensures WalkAudit(f, blobs, head).None? ==> exists d, n: nat :: Back(f, blobs, head, d, n) && (d !in blobs || f.prev(blobs[d]).None?)
    decreases f.rank(head)
  {
    assert Back(f, blobs, head, head, 0);
    if head in blobs && f.prev(blobs[head]).Some? && f.prev(blobs[head]).value.Some? {
      var p := f.prev(blobs[head]).value.value;
      AuditDigestsAre(f, blobs, p);
      if WalkAudit(f, blobs, p).Some? {
        var rest := WalkAudit(f, blobs, p).value;
        forall i | 0 <= i < |rest| ensures Back(f, blobs, head, rest[i], i + 1) { BackMore(f, blobs, head, p, rest[i], i); }
      } else {
        var d, n: nat :| Back(f, blobs, p, d, n) && (d !in blobs || f.prev(blobs[d]).None?);
        BackMore(f, blobs, head, p, d, n);
      }
    }
  }

  lemma {:induction false} BackMore(f: Formats, blobs: Blobs, head: Digest, p: Digest, d: Digest, n: nat)
    requires head in blobs && f.prev(blobs[head]) == Some(Some(p)) && Back(f, blobs, p, d, n)
    ensures Back(f, blobs, head, d, n + 1)
    decreases n
  {
    if n == 0 {
      assert Back(f, blobs, head, head, 0);
    } else {
      var u :| Back(f, blobs, p, u, n - 1) && u in blobs && f.prev(blobs[u]) == Some(Some(d));
      BackMore(f, blobs, head, p, u, n - 1);
    }
  }

  /** The record `n` steps back is the one at place `n` of the walk, if the walk is that long. */
  lemma {:induction false} BackIsWalked(f: Formats, blobs: Blobs, head: Digest, d: Digest, n: nat)
    requires Descends(f, blobs) && WalkAudit(f, blobs, head).Some? && Back(f, blobs, head, d, n)
    ensures n < |WalkAudit(f, blobs, head).value| && d == WalkAudit(f, blobs, head).value[n]
    decreases n
  {
    AuditDigestsAre(f, blobs, head);
    if n > 0 {
      var u :| Back(f, blobs, head, u, n - 1) && u in blobs && f.prev(blobs[u]) == Some(Some(d));
      BackIsWalked(f, blobs, head, u, n - 1);
    }
  }

  /** A walk succeeds exactly when what it has to read is legible, and lists exactly what loading the ref asks for. */
  lemma WalkIs(f: Formats, blobs: Blobs, r: Ref)
    requires Descends(f, blobs)
    ensures Walk(f, blobs, r).Some? <==> forall d :: AsksFor(f, blobs, r, d) && (r.audit || d == r.digest) ==> Legible(f, blobs, r, d)
    ensures Walk(f, blobs, r).Some? ==> forall d :: d in Walk(f, blobs, r).value <==> AsksFor(f, blobs, r, d)
  {
    if r.audit {
      AuditWalkIs(f, blobs, r);
    } else {
      if r.digest in blobs { ImageDigestsAre(f, r.digest, blobs[r.digest]); }
      hide ImageDigests, Names;
      assert AsksFor(f, blobs, r, r.digest);
    }
  }

  lemma AuditWalkIs(f: Formats, blobs: Blobs, r: Ref)
    requires Descends(f, blobs) && r.audit
    ensures WalkAudit(f, blobs, r.digest).Some? <==> forall d :: AsksFor(f, blobs, r, d) ==> Legible(f, blobs, r, d)
    ensures WalkAudit(f, blobs, r.digest).Some? ==> forall d :: d in WalkAudit(f, blobs, r.digest).value <==> AsksFor(f, blobs, r, d)
  {
    AuditDigestsAre(f, blobs, r.digest);
    hide WalkAudit, Back;
    if WalkAudit(f, blobs, r.digest).Some? {
      var walk := WalkAudit(f, blobs, r.digest).value;
      forall d | AsksFor(f, blobs, r, d) ensures d in walk && Legible(f, blobs, r, d) {
        var n: nat :| Back(f, blobs, r.digest, d, n);
        BackIsWalked(f, blobs, r.digest, d, n);
        if n < |walk| - 1 { assert f.prev(blobs[walk[n]]) == Some(Some(walk[n + 1])); }
      }
    } else {
      var d, n: nat :| Back(f, blobs, r.digest, d, n) && (d !in blobs || f.prev(blobs[d]).None?);
      assert AsksFor(f, blobs, r, d) && !Legible(f, blobs, r, d);
    }
  }

  // --- one pass ------------------------------------------------------------------------------------------

  /** Every digest is counted once; blobs are only added, from the source; the budget holds after the first blob. */
  ghost predicate Accounts(src: Blobs, max: Option<nat>, dst: Blobs, walk: seq<Digest>, u: Tally) {
    && u.moved + u.skipped + u.remaining == |walk|
    && (forall d :: d in dst ==> d in u.blobs && u.blobs[d] == dst[d])
    && (forall d :: d in u.blobs && d !in dst ==> d in walk && d in src && u.blobs[d] == src[d])
    && (u.moved == 0 <==> u.blobs == dst) && (u.moved == 0 ==> u.movedBytes == 0)
    && (max.Some? && u.movedBytes > max.value ==> u.moved == 1 && walk != [] && walk[0] in src && u.movedBytes == |src[walk[0]]|)
  }

  /** A digest stays behind only over budget, and then something remains. */
  ghost predicate LeavesOver(src: Blobs, max: Option<nat>, walk: seq<Digest>, u: Tally) {
    && (forall d :: d in walk && d !in u.blobs ==> max.Some? && d in src && u.movedBytes + |src[d]| > max.value)
    && (u.remaining > 0 <==> exists d :: d in walk && d !in u.blobs)
  }

  lemma {:induction false} PassAccounts(src: Blobs, max: Option<nat>, dst: Blobs, walk: seq<Digest>)
    requires Pass(src, max, dst, walk).Some?
    ensures var u := Pass(src, max, dst, walk).value;
      Accounts(src, max, dst, walk, u) && LeavesOver(src, max, walk, u) && (walk != [] ==> u.moved + u.skipped > 0)
  {
    if walk != [] {
      var n := |walk| - 1;
      assert walk == walk[..n] + [walk[n]];
      PassAccounts(src, max, dst, walk[..n]);
      var t := Pass(src, max, dst, walk[..n]).value;
      AccountStep(src, max, dst, walk[..n], t, walk[n]);
      LeaveStep(src, max, walk[..n], t, walk[n]);
    }
  }

  lemma AccountStep(src: Blobs, max: Option<nat>, dst: Blobs, walk: seq<Digest>, t: Tally, d: Digest)
    requires Accounts(src, max, dst, walk, t) && Step(src, max, t, d).Some? && (walk != [] ==> t.moved + t.skipped > 0)
    ensures Accounts(src, max, dst, walk + [d], Step(src, max, t, d).value)
  {
    if walk != [] { assert (walk + [d])[0] == walk[0]; }
  }

  lemma LeaveStep(src: Blobs, max: Option<nat>, walk: seq<Digest>, t: Tally, d: Digest)
    requires LeavesOver(src, max, walk, t) && Step(src, max, t, d).Some? && (walk != [] ==> t.moved + t.skipped > 0)
    ensures LeavesOver(src, max, walk + [d], Step(src, max, t, d).value)
  {
    var u := Step(src, max, t, d).value;
    forall x | x in walk + [d] && x !in u.blobs ensures max.Some? && x in src && u.movedBytes + |src[x]| > max.value {
      if x !in walk { assert x == d; }
    }
    if t.remaining > 0 {
      var x :| x in walk && x !in t.blobs;
      assert x in walk + [d];
    }
    assert d in walk + [d];
    assert t.remaining == 0 ==> forall x :: x in walk ==> x in t.blobs;
  }

  /** A pass fails only for a blob that neither side has. */
  lemma {:induction false} PassTotal(src: Blobs, max: Option<nat>, dst: Blobs, walk: seq<Digest>)
    ensures Pass(src, max, dst, walk).Some? <==> forall d :: d in walk ==> d in src || d in dst
  {
    if walk != [] {
      var n := |walk| - 1;
      assert walk == walk[..n] + [walk[n]];
      PassTotal(src, max, dst, walk[..n]);
      if Pass(src, max, dst, walk[..n]).Some? { PassAccounts(src, max, dst, walk[..n]); }
    }
  }

  // --- repeated passes --------------------------------------------------------------------------------------

  /** What is still missing, other than the first of the walk, fits the budget. */
  ghost predicate Affordable(src: Blobs, max: Option<nat>, dst: Blobs, walk: seq<Digest>) {
    forall d :: d in walk && d !in dst && d != walk[0] ==> d in src && (max.Some? ==> |src[d]| <= max.value)
  }

  function Missing(dst: Blobs, walk: seq<Digest>): set<Digest> {
    set d | d in walk && d !in dst
  }

  /** An incomplete pass over affordable blobs moves at least one. */
  lemma {:induction false} MovesOne(src: Blobs, max: Option<nat>, dst: Blobs, walk: seq<Digest>)
    requires Pass(src, max, dst, walk).Some? && Affordable(src, max, dst, walk)
    ensures Pass(src, max, dst, walk).value.moved == 0 ==> Pass(src, max, dst, walk).value.remaining == 0
    ensures walk != [] && walk[0] !in dst ==> Pass(src, max, dst, walk).value.moved > 0
  {
    if walk != [] {
      var n := |walk| - 1;
      assert walk == walk[..n] + [walk[n]];
      MovesOne(src, max, dst, walk[..n]);
      PassAccounts(src, max, dst, walk[..n]);
    }
  }

  /** The destination's blobs after `n` passes. */
  function Repeated(src: Blobs, max: Option<nat>, dst: Blobs, walk: seq<Digest>, n: nat): Blobs
    requires forall d :: d in walk ==> d in src
    decreases n
  {
    if n == 0 then dst
    else
      PassTotal(src, max, Repeated(src, max, dst, walk, n - 1), walk);
      Pass(src, max, Repeated(src, max, dst, walk, n - 1), walk).value.blobs
  }

  /** As many passes as blobs are missing suffice. */
  lemma {:induction false} PassesSuffice(src: Blobs, max: Option<nat>, dst: Blobs, walk: seq<Digest>, n: nat)
    requires (forall d :: d in walk ==> d in src) && Affordable(src, max, dst, walk)
    ensures |Missing(Repeated(src, max, dst, walk, n), walk)| <= if n <= |Missing(dst, walk)| then |Missing(dst, walk)| - n else 0
    ensures forall d :: d in dst ==> d in Repeated(src, max, dst, walk, n)
    decreases n
  {
    if n > 0 {
      PassesSuffice(src, max, dst, walk, n - 1);
      var before := Repeated(src, max, dst, walk, n - 1);
      PassTotal(src, max, before, walk);
      PassAccounts(src, max, before, walk);
      MovesOne(src, max, before, walk);
      FewerMissing(src, max, before, walk);
    }
  }

  lemma FewerMissing(src: Blobs, max: Option<nat>, dst: Blobs, walk: seq<Digest>)
    requires (forall d :: d in walk ==> d in src) && Pass(src, max, dst, walk).Some?
    requires var u := Pass(src, max, dst, walk).value; Accounts(src, max, dst, walk, u) && LeavesOver(src, max, walk, u) && (u.moved == 0 ==> u.remaining == 0)
    ensures var u := Pass(src, max, dst, walk).value;
      |Missing(u.blobs, walk)| < |Missing(dst, walk)| || Missing(u.blobs, walk) == {}
  {
    hide Pass;
    var u := Pass(src, max, dst, walk).value;
    if u.moved == 0 {
      assert Missing(u.blobs, walk) == {};
    } else {
      var d :| d in u.blobs && d !in dst by { Grew(dst, u.blobs); }
      assert Missing(u.blobs, walk) <= Missing(dst, walk) - {d} && d in Missing(dst, walk);
      SubsetSize(Missing(u.blobs, walk), Missing(dst, walk) - {d});
    }
  }

  lemma Grew(a: Blobs, b: Blobs)
    requires (forall d :: d in a ==> d in b && b[d] == a[d]) && a != b
    ensures exists d :: d in b && d !in a
  {
  }

  /** A blob over budget that is not first in the walk never moves. */
  lemma {:induction false} Stuck(src: Blobs, max: nat, dst: Blobs, walk: seq<Digest>, d: Digest, n: nat)
    requires (forall x :: x in walk ==> x in src) && d in walk && d != walk[0] && d !in dst && |src[d]| > max
    ensures d !in Repeated(src, Some(max), dst, walk, n)
    decreases n
  {
    if n > 0 {
      Stuck(src, max, dst, walk, d, n - 1);
      var before := Repeated(src, Some(max), dst, walk, n - 1);
      PassTotal(src, Some(max), before, walk);
      StuckInPass(src, max, before, walk, d);
    }
  }

  lemma {:induction false} StuckInPass(src: Blobs, max: nat, dst: Blobs, walk: seq<Digest>, d: Digest)
    requires Pass(src, Some(max), dst, walk).Some? && d in src && (walk != [] ==> d != walk[0]) && d !in dst && |src[d]| > max
    ensures d !in Pass(src, Some(max), dst, walk).value.blobs
  {
    if walk != [] {
      var n := |walk| - 1;
      assert walk == walk[..n] + [walk[n]];
      StuckInPass(src, max, dst, walk[..n], d);
      PassAccounts(src, Some(max), dst, walk[..n]);
    }
  }

  /** Repeating the pass brings every blob over exactly when what is missing, save the first of the walk, fits the budget. */
  lemma CompletesIff(src: Blobs, max: Option<nat>, dst: Blobs, walk: seq<Digest>)
    requires forall d :: d in walk ==> d in src
    ensures (exists n: nat :: Missing(Repeated(src, max, dst, walk, n), walk) == {}) <==> Affordable(src, max, dst, walk)
  {
    if Affordable(src, max, dst, walk) {
      var n := |Missing(dst, walk)|;
      PassesSuffice(src, max, dst, walk, n);
      assert Missing(Repeated(src, max, dst, walk, n), walk) == {};
    } else {
      var d :| d in walk && d !in dst && d != walk[0] && !(max.Some? ==> |src[d]| <= max.value);
      forall n: nat ensures Missing(Repeated(src, max, dst, walk, n), walk) != {} {
        Stuck(src, max.value, dst, walk, d, n);
        assert d in Missing(Repeated(src, max, dst, walk, n), walk);
      }
    }
  }

  // --- closed refs ------------------------------------------------------------------------------------------

  /** Blobs hold what their digests name. */
  ghost predicate Honest(content: Digest -> Bytes, blobs: Blobs) {
    forall d :: d in blobs ==> blobs[d] == content(d)
  }

  /** Everything that loading the ref asks for is here, and what has to be read on the way is legible. */
  ghost predicate Closed(f: Formats, blobs: Blobs, r: Ref) {
    && Descends(f, blobs)
    && forall d :: AsksFor(f, blobs, r, d) ==> d in blobs && (r.audit || d == r.digest ==> Legible(f, blobs, r, d))
  }

  lemma ClosedIsWalked(f: Formats, blobs: Blobs, r: Ref)
    ensures Closed(f, blobs, r) <==> Descends(f, blobs) && Walk(f, blobs, r).Some? && forall d :: d in Walk(f, blobs, r).value ==> d in blobs
  {
    if Descends(f, blobs) { WalkIs(f, blobs, r); }
    hide Walk, AsksFor, Legible;
  }

  /** A walk reads only blobs it lists. */
  lemma {:induction false} SameAudit(f: Formats, a: Blobs, b: Blobs, d: Digest)
    requires Descends(f, a) && Descends(f, b) && WalkAudit(f, a, d).Some?
    requires forall x :: x in WalkAudit(f, a, d).value && x in a ==> x in b && b[x] == a[x]
    ensures WalkAudit(f, b, d) == WalkAudit(f, a, d)
    decreases f.rank(d)
  {
    var walk := WalkAudit(f, a, d).value;
    assert walk[0] == d;
    assert d in b && b[d] == a[d];
    match f.prev(a[d])
    case Some(Some(p)) =>
      assert walk == [d] + WalkAudit(f, a, p).value;
      assert forall x :: x in WalkAudit(f, a, p).value ==> x in walk;
      SameAudit(f, a, b, p);
    case _ =>
  }

  lemma SameWalk(f: Formats, a: Blobs, b: Blobs, r: Ref)
    requires Descends(f, a) && Descends(f, b) && Walk(f, a, r).Some?
    requires forall x :: x in Walk(f, a, r).value && x in a ==> x in b && b[x] == a[x]
    ensures Walk(f, b, r) == Walk(f, a, r)
  {
    if r.audit {
      SameAudit(f, a, b, r.digest);
    } else {
      assert Walk(f, a, r).value[0] == r.digest;
    }
  }

  lemma WalkKept(f: Formats, a: Blobs, b: Blobs, r: Ref)
    requires Closed(f, a, r) && Descends(f, b) && forall d :: d in a ==> d in b && b[d] == a[d]
    ensures Closed(f, b, r) && Walk(f, b, r) == Walk(f, a, r)
  {
    ClosedIsWalked(f, a, r);
    SameWalk(f, a, b, r);
    ClosedIsWalked(f, b, r);
    hide Closed, Walk, Descends;
  }

  /** A pass keeps every closed ref of the destination closed, and closes its own when it completes. */
  lemma RefsStayClosed(f: Formats, content: Digest -> Bytes, src: Blobs, max: Option<nat>, dst: Blobs, refs: set<Ref>, r: Ref)
    requires Descends(f, src) && Descends(f, dst) && Honest(content, src) && Honest(content, dst)
    requires Walk(f, src, r).Some? && Pass(src, max, dst, Walk(f, src, r).value).Some?
    requires forall x :: x in refs ==> Closed(f, dst, x)
    ensures var u := Pass(src, max, dst, Walk(f, src, r).value).value;
      && Honest(content, u.blobs) && Descends(f, u.blobs) && (forall x :: x in refs ==> Closed(f, u.blobs, x))
      && (u.remaining == 0 <==> Closed(f, u.blobs, r) && Walk(f, u.blobs, r) == Walk(f, src, r))
      && (u.remaining == 0 <==> forall d :: AsksFor(f, src, r, d) ==> d in u.blobs)
  {
    var walk := Walk(f, src, r).value;
    PassAccounts(src, max, dst, walk);
    var u := Pass(src, max, dst, walk).value;
    WalkIs(f, src, r);
    hide Pass, Walk, Closed, AsksFor, Legible;
    assert forall d :: d in u.blobs ==> (d in dst && u.blobs[d] == dst[d]) || (d in src && u.blobs[d] == src[d]);
    forall x | x in refs ensures Closed(f, u.blobs, x) { WalkKept(f, dst, u.blobs, x); }
    ClosedIsWalked(f, u.blobs, r);
    if u.remaining == 0 {
      assert forall d :: d in walk ==> d in u.blobs;
      SameWalk(f, src, u.blobs, r);
    }
  }
}
