/** Moving an encrypted ref through a relay that only ever holds envelopes. */
module EncryptedSync {
  import opened Bytes
  import opened Cipher
  import opened EncryptedStore
  import Sync

  datatype Entry = Entry(plain: Digest, cipher: Digest)
  datatype Listing = Listing(manifest: Digest, mediaType: Bytes, entries: seq<Entry>)

  /** Canonical JSON of the envelope, and the manifest reader. */
  datatype Json = Json(encode: Listing -> Bytes, decode: Bytes -> Option<Listing>, formats: Sync.Formats)

  ghost predicate Faithful(j: Json) {
    forall l :: j.decode(j.encode(l)) == Some(l)
  }

  const ENCRYPTED_REF: Bytes := [101, 110, 99, 114, 121, 112, 116, 101, 100, 45, 114, 101, 102]  // "encrypted-ref"

  datatype RelayState = RelayState(blobs: map<Digest, Bytes>, refs: map<Bytes, StoredRef>)

  // --- push ------------------------------------------------------------------------------------------

  /** What the ref reaches, read through the source store. */
  function ImageWalk(c: Suite, j: Json, s: Store, ref: Bytes): Option<seq<Digest>> {
    if ref !in s.refs then None
    else match ReadBlob(c, s, s.refs[ref].digest)
      case None => None
      case Some(manifest) => Sync.ImageDigests(j.formats, s.refs[ref].digest, manifest)
  }

  datatype Moving = Moving(blobs: map<Digest, Bytes>, entries: seq<Entry>)

  /** One digest of the walk; a blob without alias is refused. */
  function MoveOne(c: Suite, s: Store, m: Moving, plain: Digest): Option<Moving> {
    if plain !in s.aliases then None
    else
      var cipher := s.aliases[plain];
      var entries := m.entries + [Entry(plain, cipher)];
      if cipher in m.blobs then Some(Moving(m.blobs, entries))
      else match RawBlob(c, s, cipher)
        case None => None
        case Some(bytes) => Some(Moving(m.blobs[cipher := bytes], entries))
  }

  function MoveAll(c: Suite, s: Store, blobs: map<Digest, Bytes>, walk: seq<Digest>): Option<Moving> {
    if walk == [] then Some(Moving(blobs, []))
    else match MoveAll(c, s, blobs, walk[..|walk| - 1])
      case None => None
      case Some(m) => MoveOne(c, s, m, walk[|walk| - 1])
  }

  function Pushed(c: Suite, j: Json, s: Store, r: RelayState, ref: Bytes, k: Key, random: nat -> Nonce): Option<RelayState> {
    match ImageWalk(c, j, s, ref)
    case None => None
    case Some(walk) =>
      match MoveAll(c, s, r.blobs, walk)
      case None => None
      case Some(m) =>
        var sealed := EnvelopeOf(c, k, random, j.encode(Listing(s.refs[ref].digest, s.refs[ref].mediaType, m.entries)));
        Some(RelayState(m.blobs[c.hash(sealed) := sealed], r.refs[ref := StoredRef(c.hash(sealed), ENCRYPTED_REF)]))
  }

  class Relay {
    var blobs: map<Digest, Bytes>
    var refs: map<Bytes, StoredRef>

    function State(): RelayState
      reads this
    {
      RelayState(blobs, refs)
    }
  }

  method PushEncryptedRef(j: Json, src: OciStore, relay: Relay, ref: Bytes, k: Key, random: nat -> Nonce) returns (ok: bool, moved: nat, skipped: nat)
    modifies relay
    ensures ok <==> Pushed(src.suite, j, src.State(), old(relay.State()), ref, k, random).Some?
    ensures ok ==> Pushed(src.suite, j, src.State(), old(relay.State()), ref, k, random) == Some(relay.State())
    ensures ok ==> moved + skipped == |ImageWalk(src.suite, j, src.State(), ref).value|
    ensures !ok ==> relay.refs == old(relay.refs)
  {
    hide ReadBlob, MoveAll, Encrypted, EnvelopeOf;
    moved, skipped := 0, 0;
    if ref !in src.refs { return false, 0, 0; }
    var stored := src.refs[ref];
    var manifest := src.GetBlob(stored.digest);
    if manifest.None? { return false, 0, 0; }
    var walk := Sync.ListDigests(j.formats, stored.digest, manifest.value);
    if walk.None? { return false, 0, 0; }
    var entries;
    ok, moved, skipped, entries := MoveBlobs(src, relay, walk.value);
    if !ok { return; }
    var listing := j.encode(Listing(stored.digest, stored.mediaType, entries));
    SealedIs(src.suite, k, random, listing);
    var sealed := EncryptBlob(src.suite, k, listing, CHUNK_SIZE, random);
    var envelope := sealed[..];
    relay.blobs := relay.blobs[src.suite.hash(envelope) := envelope];
    relay.refs := relay.refs[ref := StoredRef(src.suite.hash(envelope), ENCRYPTED_REF)];
  }

  method MoveBlobs(src: OciStore, relay: Relay, walk: seq<Digest>) returns (ok: bool, moved: nat, skipped: nat, entries: seq<Entry>)
    modifies relay`blobs
    ensures var r := MoveAll(src.suite, src.State(), old(relay.blobs), walk); ok == r.Some? && (ok ==> r.value == Moving(relay.blobs, entries))
    ensures ok ==> moved + skipped == |walk|
  {
    ok, moved, skipped, entries := true, 0, 0, [];
    for i := 0 to |walk|
      invariant MoveAll(src.suite, src.State(), old(relay.blobs), walk[..i]) == Some(Moving(relay.blobs, entries))
      invariant ok && moved + skipped == i
    {
      assert walk[..i + 1][..i] == walk[..i];
      if walk[i] !in src.aliases {
        MovingStops(src.suite, src.State(), old(relay.blobs), walk, i + 1);
        return false, moved, skipped, entries;
      }
      var cipher := src.aliases[walk[i]];
      if cipher in relay.blobs {
        skipped := skipped + 1;
      } else {
        if cipher !in src.blobs || src.suite.hash(src.blobs[cipher]) != cipher {
          MovingStops(src.suite, src.State(), old(relay.blobs), walk, i + 1);
          return false, moved, skipped, entries;
        }
        relay.blobs := relay.blobs[cipher := src.blobs[cipher]];
        moved := moved + 1;
      }
      entries := entries + [Entry(walk[i], cipher)];
    }
    assert walk[..|walk|] == walk;
  }

  lemma {:induction false} MovingStops(c: Suite, s: Store, blobs: map<Digest, Bytes>, walk: seq<Digest>, i: nat)
    requires i <= |walk| && MoveAll(c, s, blobs, walk[..i]).None?
    ensures MoveAll(c, s, blobs, walk).None?
    decreases |walk|
  {
    if i < |walk| {
      assert walk[..|walk| - 1][..i] == walk[..i];
      MovingStops(c, s, blobs, walk[..|walk| - 1], i);
    } else {
      assert walk[..i] == walk;
    }
  }

  lemma SealedIs(c: Suite, k: Key, random: nat -> Nonce, bytes: Bytes)
    ensures CHUNK_SIZE > 0 && EnvelopeOf(c, k, random, bytes) == Encrypted(c, k, Drawn(random, ChunkCount(|bytes|, CHUNK_SIZE)), bytes, CHUNK_SIZE)
  {
  }

  // --- pull --------------------------------------------------------------------------------------------

  /** One entry of the envelope: skip, or fetch, check, open, check and store. */
  function TakeOne(c: Suite, r: RelayState, s: Store, k: Key, random: nat -> Nonce, e: Entry): Option<Store> {
    if HasBlob(s, e.plain) then Some(s)
    else if e.cipher !in r.blobs || c.hash(r.blobs[e.cipher]) != e.cipher then None
    else match Opened(c, k, r.blobs[e.cipher], Some(e.plain))
      case None => None
      case Some(plain) => Some(WithBlob(c, s, random, plain))
  }

  function TakeAll(c: Suite, r: RelayState, s: Store, k: Key, random: nat -> (nat -> Nonce), entries: seq<Entry>): Option<Store> {
    if entries == [] then Some(s)
    else
      var n := |entries| - 1;
      match TakeAll(c, r, s, k, random, entries[..n])
      case None => None
      case Some(t) => TakeOne(c, r, t, k, random(n), entries[n])
  }

  /** The listing behind the relay's ref. */
  function ListingOf(c: Suite, j: Json, r: RelayState, ref: Bytes, k: Key): Option<Listing> {
    if ref !in r.refs || r.refs[ref].mediaType != ENCRYPTED_REF then None
    else
      var d := r.refs[ref].digest;
      if d !in r.blobs || c.hash(r.blobs[d]) != d then None
      else match Opened(c, k, r.blobs[d], None)
        case None => None
        case Some(bytes) => j.decode(bytes)
  }

  function Pulled(c: Suite, j: Json, r: RelayState, s: Store, ref: Bytes, k: Key, random: nat -> (nat -> Nonce)): Option<Store> {
    match ListingOf(c, j, r, ref, k)
    case None => None
    case Some(l) =>
      match TakeAll(c, r, s, k, random, l.entries)
      case None => None
      case Some(t) => Some(t.(refs := t.refs[ref := StoredRef(l.manifest, l.mediaType)]))
  }

  method PullEncryptedRef(j: Json, relay: Relay, dst: OciStore, ref: Bytes, k: Key, random: nat -> (nat -> Nonce)) returns (ok: bool, moved: nat, skipped: nat)
    modifies dst
    ensures ok <==> Pulled(dst.suite, j, relay.State(), old(dst.State()), ref, k, random).Some?
    ensures ok ==> Pulled(dst.suite, j, relay.State(), old(dst.State()), ref, k, random) == Some(dst.State())
    ensures !ok ==> dst.refs == old(dst.refs)
  {
    hide TakeAll, WithBlob, Decrypted;
    moved, skipped := 0, 0;
    if ref !in relay.refs || relay.refs[ref].mediaType != ENCRYPTED_REF { return false, 0, 0; }
    var d := relay.refs[ref].digest;
    if d !in relay.blobs || dst.suite.hash(relay.blobs[d]) != d { return false, 0, 0; }
    var unsealed := DecryptBlob(dst.suite, k, relay.blobs[d], None);
    if unsealed.None? { return false, 0, 0; }
    var listing := j.decode(unsealed.value[..]);
    if listing.None? { return false, 0, 0; }
    ok, moved, skipped := TakeBlobs(relay, dst, k, random, listing.value.entries);
    if !ok { return; }
    dst.refs := dst.refs[ref := StoredRef(listing.value.manifest, listing.value.mediaType)];
  }

  method TakeBlobs(relay: Relay, dst: OciStore, k: Key, random: nat -> (nat -> Nonce), entries: seq<Entry>) returns (ok: bool, moved: nat, skipped: nat)
    modifies dst`blobs, dst`aliases
    ensures var r := TakeAll(dst.suite, relay.State(), old(dst.State()), k, random, entries); ok == r.Some? && (ok ==> r.value == dst.State())
    ensures ok ==> moved + skipped == |entries|
  {
    hide WithBlob, Opened;
    ok, moved, skipped := true, 0, 0;
    for i := 0 to |entries|
      invariant TakeAll(dst.suite, relay.State(), old(dst.State()), k, random, entries[..i]) == Some(dst.State())
      invariant ok && moved + skipped == i
    {
      assert entries[..i + 1][..i] == entries[..i];
      var e := entries[i];
      if e.plain in dst.blobs || e.plain in dst.aliases {
        skipped := skipped + 1;
      } else {
        if e.cipher !in relay.blobs || dst.suite.hash(relay.blobs[e.cipher]) != e.cipher {
          TakingStops(dst.suite, relay.State(), old(dst.State()), k, random, entries, i + 1);
          return false, moved, skipped;
        }
        var plain := DecryptBlob(dst.suite, k, relay.blobs[e.cipher], Some(e.plain));
        if plain.None? {
          TakingStops(dst.suite, relay.State(), old(dst.State()), k, random, entries, i + 1);
          return false, moved, skipped;
        }
        OpenedHash(dst.suite, k, relay.blobs[e.cipher], e.plain);
        var put := dst.PutBlob(plain.value[..], Some(e.plain), random(i));
        moved := moved + 1;
      }
    }
    assert entries[..|entries|] == entries;
  }

  lemma {:induction false} TakingStops(c: Suite, r: RelayState, s: Store, k: Key, random: nat -> (nat -> Nonce), entries: seq<Entry>, i: nat)
    requires i <= |entries| && TakeAll(c, r, s, k, random, entries[..i]).None?
    ensures TakeAll(c, r, s, k, random, entries).None?
    decreases |entries|
  {
    hide TakeOne;
    if i < |entries| {
      assert entries[..|entries| - 1][..i] == entries[..i];
      TakingStops(c, r, s, k, random, entries[..|entries| - 1], i);
    } else {
      assert entries[..i] == entries;
    }
  }
}
