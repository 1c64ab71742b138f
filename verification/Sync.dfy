/** Budgeted anti-entropy: one ref and the blobs it reaches, source to destination. */
module Sync {
  import opened Bytes

  type Digest = Bytes
  type Blobs = map<Digest, Bytes>

  datatype LayerRef = LayerRef(digest: Digest, index: Option<Digest>)
  datatype Image = Image(config: Option<Digest>, layers: seq<LayerRef>)
  datatype Ref = Ref(digest: Digest, audit: bool)

  /** JSON readers of the two blob kinds; `rank` orders audit records before the ones that name them. */
  datatype Formats = Formats(image: Bytes -> Option<Image>, prev: Bytes -> Option<Option<Digest>>, rank: Digest -> nat)

  // --- what a ref reaches ----------------------------------------------------------------------------

  function LayerDigests(layers: seq<LayerRef>): seq<Digest> {
    if layers == [] then []
    else
      var l := layers[|layers| - 1];
      LayerDigests(layers[..|layers| - 1]) + [l.digest] + if l.index.Some? then [l.index.value] else []
  }

  /** Manifest, config, then each layer with its index. */
  function ImageDigests(f: Formats, d: Digest, manifest: Bytes): Option<seq<Digest>> {
    match f.image(manifest)
    case None => None
    case Some(m) => Some([d] + (if m.config.Some? then [m.config.value] else []) + LayerDigests(m.layers))
  }

  function WalkImage(f: Formats, blobs: Blobs, d: Digest): Option<seq<Digest>> {
    if d !in blobs then None else ImageDigests(f, d, blobs[d])
  }

  /** Records hold the digests of earlier records, so the chain cannot loop. */
  predicate Descends(f: Formats, blobs: Blobs) {
    forall d :: d in blobs && f.prev(blobs[d]).Some? && f.prev(blobs[d]).value.Some? ==> f.rank(f.prev(blobs[d]).value.value) < f.rank(d)
  }

  function WalkAudit(f: Formats, blobs: Blobs, d: Digest): Option<seq<Digest>>
    requires Descends(f, blobs)
    decreases f.rank(d)
  {
    if d !in blobs then None
    else match f.prev(blobs[d])
      case None => None
      case Some(None) => Some([d])
      case Some(Some(p)) => match WalkAudit(f, blobs, p)
        case None => None
        case Some(rest) => Some([d] + rest)
  }

  function Walk(f: Formats, blobs: Blobs, r: Ref): Option<seq<Digest>>
    requires Descends(f, blobs)
  {
    if r.audit then WalkAudit(f, blobs, r.digest) else WalkImage(f, blobs, r.digest)
  }

  method WalkImageDigests(f: Formats, blobs: Blobs, d: Digest) returns (r: Option<seq<Digest>>)
    ensures r == WalkImage(f, blobs, d)
  {
    if d !in blobs { return None; }
    r := ListDigests(f, d, blobs[d]);
  }

  method ListDigests(f: Formats, d: Digest, bytes: Bytes) returns (r: Option<seq<Digest>>)
    ensures r == ImageDigests(f, d, bytes)
  {
    var parsed := f.image(bytes);
    if parsed.None? { return None; }
    var manifest := parsed.value;
    var head := [d] + if manifest.config.Some? then [manifest.config.value] else [];
    var digests: seq<Digest> := [];
    for i := 0 to |manifest.layers|
      invariant digests == LayerDigests(manifest.layers[..i])
    {
      assert manifest.layers[..i + 1][..i] == manifest.layers[..i];
      digests := digests + [manifest.layers[i].digest];
      if manifest.layers[i].index.Some? { digests := digests + [manifest.layers[i].index.value]; }
    }
    assert manifest.layers[..|manifest.layers|] == manifest.layers;
    r := Some(head + digests);
  }

  method WalkAuditDigests(f: Formats, blobs: Blobs, head: Digest) returns (r: Option<seq<Digest>>)
    requires Descends(f, blobs)
    ensures r == WalkAudit(f, blobs, head)
  {
    var digests: seq<Digest> := [];
    var cursor := Some(head);
    ghost var whole := WalkAudit(f, blobs, head);
    if whole.Some? { assert [] + whole.value == whole.value; }
    while cursor.Some?
      invariant cursor.Some? ==>
        match WalkAudit(f, blobs, cursor.value) { case None => whole == None case Some(rest) => whole == Some(digests + rest) }
      invariant cursor.None? ==> whole == Some(digests)
      decreases if cursor.Some? then f.rank(cursor.value) + 1 else 0
    {
      var d := cursor.value;
      if d !in blobs || f.prev(blobs[d]).None? { return None; }
      ghost var before := digests;
      digests := digests + [d];
      cursor := f.prev(blobs[d]).value;
      if cursor.Some? && WalkAudit(f, blobs, cursor.value).Some? {
        var rest := WalkAudit(f, blobs, cursor.value).value;
        assert before + ([d] + rest) == digests + rest;
      }
    }
    r := Some(digests);
  }

  // --- what loading a ref asks for -------------------------------------------------------------------

  /** An image names its config, each layer, and the index published for a layer. */
  ghost predicate Names(m: Image, d: Digest) {
    m.config == Some(d) || exists l :: l in m.layers && (l.digest == d || l.index == Some(d))
  }

  /** `d` is `n` records before `head` in the audit chain. */
  ghost predicate Back(f: Formats, blobs: Blobs, head: Digest, d: Digest, n: nat)
    decreases n
  {
    if n == 0 then d == head
    else exists u :: Back(f, blobs, head, u, n - 1) && u in blobs && f.prev(blobs[u]) == Some(Some(d))
  }

  /** The manifest and what it names; for an audit ref, the chain down to its first record. */
  ghost predicate AsksFor(f: Formats, blobs: Blobs, r: Ref, d: Digest) {
    if r.audit then exists n: nat :: Back(f, blobs, r.digest, d, n)
    else d == r.digest || (r.digest in blobs && f.image(blobs[r.digest]).Some? && Names(f.image(blobs[r.digest]).value, d))
  }

  /** A manifest, or an audit record, that can be read. */
  predicate Legible(f: Formats, blobs: Blobs, r: Ref, d: Digest) {
    d in blobs && if r.audit then f.prev(blobs[d]).Some? else f.image(blobs[d]).Some?
  }

  // --- one pass ----------------------------------------------------------------------------------------

  datatype Tally = Tally(blobs: Blobs, moved: nat, skipped: nat, movedBytes: nat, remaining: nat)

  /** One digest of the walk; `None` when the source cannot supply it. */
  function Step(src: Blobs, max: Option<nat>, t: Tally, d: Digest): Option<Tally> {
    if d in t.blobs then Some(t.(skipped := t.skipped + 1))
    else if d !in src then None
    else if max.Some? && t.movedBytes + |src[d]| > max.value && t.moved + t.skipped > 0 then Some(t.(remaining := t.remaining + 1))
    else Some(t.(blobs := t.blobs[d := src[d]], moved := t.moved + 1, movedBytes := t.movedBytes + |src[d]|))
  }

  function Steps(src: Blobs, max: Option<nat>, t: Tally, walk: seq<Digest>): Option<Tally> {
    if walk == [] then Some(t)
    else match Steps(src, max, t, walk[..|walk| - 1])
      case None => None
      case Some(u) => Step(src, max, u, walk[|walk| - 1])
  }

  function Start(blobs: Blobs): Tally {
    Tally(blobs, 0, 0, 0, 0)
  }

  function Pass(src: Blobs, max: Option<nat>, dst: Blobs, walk: seq<Digest>): Option<Tally> {
    Steps(src, max, Start(dst), walk)
  }

  datatype Outcome = Failed | Synced(digest: Digest, moved: nat, skipped: nat, movedBytes: nat, complete: bool, remaining: nat)

  class PodStore {
    var blobs: Blobs
    var refs: map<Bytes, Ref>
  }

  /** Blobs move one by one; the ref is written only when nothing remains. */
  method SyncRef(f: Formats, src: PodStore, dst: PodStore, ref: Bytes, max: Option<nat>) returns (o: Outcome)
    requires Descends(f, src.blobs)
    modifies dst
    ensures old(ref !in src.refs || Walk(f, src.blobs, src.refs[ref]).None?) ==> o == Failed && dst.blobs == old(dst.blobs)
    ensures old(ref in src.refs && Walk(f, src.blobs, src.refs[ref]).Some?) ==> (
        var pass := old(Pass(src.blobs, max, dst.blobs, Walk(f, src.blobs, src.refs[ref]).value));
        match pass
        case None => o == Failed && old(dst.blobs.Keys) <= dst.blobs.Keys
        case Some(t) => dst.blobs == t.blobs && o == Synced(old(src.refs[ref]).digest, t.moved, t.skipped, t.movedBytes, t.remaining == 0, t.remaining))
    ensures dst.refs == if o.Synced? && o.complete then old(dst.refs)[ref := old(src.refs[ref])] else old(dst.refs)
  {
    if ref !in src.refs { return Failed; }
    var stored := src.refs[ref];
    var walked: Option<seq<Digest>>;
    if stored.audit { walked := WalkAuditDigests(f, src.blobs, stored.digest); } else { walked := WalkImageDigests(f, src.blobs, stored.digest); }
    if walked.None? { return Failed; }
    var digests := walked.value;
    hide Pass, Walk, WalkAudit, WalkImage;
    var ok, moved, skipped, movedBytes, remaining := Transfer(src, dst, walked.value, max);
    if !ok { return Failed; }
    var complete := remaining == 0;
    if complete { dst.refs := dst.refs[ref := stored]; }
    o := Synced(stored.digest, moved, skipped, movedBytes, complete, remaining);
  }

  /** The transfer loop. */
  method Transfer(src: PodStore, dst: PodStore, digests: seq<Digest>, max: Option<nat>)
    returns (ok: bool, moved: nat, skipped: nat, movedBytes: nat, remaining: nat)
    modifies dst`blobs
    ensures var pass := old(Pass(src.blobs, max, dst.blobs, digests));
      ok == pass.Some? && (ok ==> pass.value == Tally(dst.blobs, moved, skipped, movedBytes, remaining))
    ensures old(dst.blobs.Keys) <= dst.blobs.Keys
  {
    ok, moved, skipped, movedBytes, remaining := true, 0, 0, 0, 0;
    ghost var from, to := src.blobs, dst.blobs;
    for i := 0 to |digests|
      invariant ok && if src == dst then dst.blobs == from else src.blobs == from
      invariant Pass(from, max, to, digests[..i]) == Some(Tally(dst.blobs, moved, skipped, movedBytes, remaining))
      invariant to.Keys <= dst.blobs.Keys
    {
      var digest := digests[i];
      assert digests[..i + 1][..i] == digests[..i];
      if digest in dst.blobs {
        skipped := skipped + 1;
      } else {
        if digest !in src.blobs {
          PassFails(from, max, Start(to), digests, i + 1);
          return false, moved, skipped, movedBytes, remaining;
        }
        var bytes := src.blobs[digest];
        if max.Some? && movedBytes + |bytes| > max.value && moved + skipped > 0 {
          remaining := remaining + 1;
        } else {
          dst.blobs := dst.blobs[digest := bytes];
          moved := moved + 1;
          movedBytes := movedBytes + |bytes|;
        }
      }
    }
    assert digests[..|digests|] == digests;
  }

  lemma {:induction false} PassFails(src: Blobs, max: Option<nat>, t: Tally, walk: seq<Digest>, i: nat)
    requires i <= |walk| && Steps(src, max, t, walk[..i]).None?
    ensures Steps(src, max, t, walk).None?
    decreases |walk|
  {
    if i < |walk| {
      assert walk[..|walk| - 1][..i] == walk[..i];
      PassFails(src, max, t, walk[..|walk| - 1], i);
    } else {
      assert walk[..i] == walk;
    }
  }
}
