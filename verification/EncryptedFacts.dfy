/** Pull after push gives the source's blobs back, through a relay that sees envelopes only. */
module EncryptedFacts {
  import opened Bytes
  import opened Cipher
  import opened EncryptedStore
  import opened EncryptedSync
  import Sync
  import SyncFacts

  ghost predicate Honest(c: Suite, blobs: map<Digest, Bytes>) {
    forall d :: d in blobs ==> c.hash(blobs[d]) == d
  }

  /** The entry names the source's envelope for `d`, which the relay has. */
  ghost predicate RelayedOne(c: Suite, s: Store, d: Digest, e: Entry, blobs: map<Digest, Bytes>) {
    Sealing(c, s, d) && e == Entry(d, s.aliases[d]) && e.cipher in blobs && blobs[e.cipher] == s.blobs[e.cipher]
  }

  /** `m` adds to `blobs` envelopes of the source only. */
  ghost predicate Relayed(c: Suite, s: Store, blobs: map<Digest, Bytes>, walk: seq<Digest>, m: Moving) {
    && Honest(c, m.blobs) && |m.entries| == |walk|
    && (forall d :: d in blobs ==> d in m.blobs && m.blobs[d] == blobs[d])
    && (forall d :: d in m.blobs && d !in blobs ==> IsEncryptedBlob(m.blobs[d]))
    && forall i :: 0 <= i < |walk| ==> RelayedOne(c, s, walk[i], m.entries[i], m.blobs)
  }

  lemma {:induction false} MoveRelays(c: Suite, s: Store, blobs: map<Digest, Bytes>, walk: seq<Digest>)
    requires Ideal(c) && Sound(c, s) && Honest(c, blobs) && MoveAll(c, s, blobs, walk).Some?
    ensures Relayed(c, s, blobs, walk, MoveAll(c, s, blobs, walk).value)
  {
    hide Ideal, Sound, Sealing, IsEncryptedBlob;
    if walk != [] {
      hide Relayed, MoveOne;
      var n := |walk| - 1;
      MoveRelays(c, s, blobs, walk[..n]);
      MoveOneRelays(c, s, blobs, walk[..n], MoveAll(c, s, blobs, walk[..n]).value, walk[n]);
      assert walk == walk[..n] + [walk[n]];
    }
  }

  lemma MoveOneRelays(c: Suite, s: Store, blobs: map<Digest, Bytes>, walk: seq<Digest>, m: Moving, d: Digest)
    requires Ideal(c) && Sound(c, s) && Relayed(c, s, blobs, walk, m) && MoveOne(c, s, m, d).Some?
    ensures Relayed(c, s, blobs, walk + [d], MoveOne(c, s, m, d).value)
  {
    hide Ideal, IsEncryptedBlob, Sound, Sealing;
    SealedBehind(c, s, d);
    if s.aliases[d] in m.blobs { SameHash(c, m.blobs[s.aliases[d]], s.blobs[s.aliases[d]]); }
  }

  lemma SealedBehind(c: Suite, s: Store, d: Digest)
    requires Sound(c, s)
    ensures d in s.aliases ==> Sealing(c, s, d) && s.aliases[d] in s.blobs && IsEncryptedBlob(s.blobs[s.aliases[d]]) && c.hash(s.blobs[s.aliases[d]]) == s.aliases[d]
  {
    hide Opened, IsEncryptedBlob;
  }

  lemma EnvelopeMarked(c: Suite, k: Key, random: nat -> Nonce, bytes: Bytes)
    ensures IsEncryptedBlob(EnvelopeOf(c, k, random, bytes))
  {
    hide Sealed, Word;
  }

  // --- what a push takes along ----------------------------------------------------------------------------

  /** The ref's manifest, as the store serves it, parses. */
  ghost predicate Parses(c: Suite, j: Json, s: Store, ref: Bytes) {
    ref in s.refs && match ReadBlob(c, s, s.refs[ref].digest)
    case None => false
    case Some(manifest) => j.formats.image(manifest).Some?
  }

  /** The manifest itself, or what it names. */
  ghost predicate Belongs(c: Suite, j: Json, s: Store, ref: Bytes, d: Digest)
    requires Parses(c, j, s, ref)
  {
    d == s.refs[ref].digest || Sync.Names(j.formats.image(ReadBlob(c, s, s.refs[ref].digest).value).value, d)
  }

  /** What a push walks is exactly the manifest and what it names. */
  lemma WalkBelongs(c: Suite, j: Json, s: Store, ref: Bytes)
    ensures ImageWalk(c, j, s, ref).Some? <==> Parses(c, j, s, ref)
    ensures Parses(c, j, s, ref) ==> forall d :: d in ImageWalk(c, j, s, ref).value <==> Belongs(c, j, s, ref, d)
  {
    hide ReadBlob, Sync.ImageDigests, Sync.Names;
    if ref in s.refs && ReadBlob(c, s, s.refs[ref].digest).Some? {
      SyncFacts.ImageDigestsAre(j.formats, s.refs[ref].digest, ReadBlob(c, s, s.refs[ref].digest).value);
    }
  }

  lemma {:induction false} MoveAllIff(c: Suite, s: Store, blobs: map<Digest, Bytes>, walk: seq<Digest>)
    requires Sound(c, s)
    ensures MoveAll(c, s, blobs, walk).Some? <==> forall d :: d in walk ==> d in s.aliases
  {
    hide Sealing;
    if walk != [] {
      var n := |walk| - 1;
      MoveAllIff(c, s, blobs, walk[..n]);
      assert walk == walk[..n] + [walk[n]];
      SealedBehind(c, s, walk[n]);
    }
  }

  /** A push goes through if and only if the manifest can be read and everything it needs is kept encrypted. */
  lemma PushesIff(c: Suite, j: Json, s: Store, r: RelayState, ref: Bytes, k: Key, random: nat -> Nonce)
    requires Sound(c, s)
    ensures Pushed(c, j, s, r, ref, k, random).Some? <==> Parses(c, j, s, ref) && forall d :: Belongs(c, j, s, ref, d) ==> d in s.aliases
  {
    WalkBelongs(c, j, s, ref);
    hide Sound, ImageWalk, MoveAll, EnvelopeOf, Belongs, Parses;
    if Parses(c, j, s, ref) {
      assert ref in s.refs by { ParsesRef(c, j, s, ref); }
      MoveAllIff(c, s, r.blobs, ImageWalk(c, j, s, ref).value);
    }
  }

  lemma ParsesRef(c: Suite, j: Json, s: Store, ref: Bytes)
    requires Parses(c, j, s, ref)
    ensures ref in s.refs
  {
  }

  /** Every blob a push adds to the relay is an envelope, and nothing there is overwritten. */
  lemma RelaySeesEnvelopes(c: Suite, j: Json, s: Store, r: RelayState, ref: Bytes, k: Key, random: nat -> Nonce)
    requires Ideal(c) && Sound(c, s) && Honest(c, r.blobs) && Pushed(c, j, s, r, ref, k, random).Some?
    ensures var r' := Pushed(c, j, s, r, ref, k, random).value;
      && Honest(c, r'.blobs) && (forall d :: d in r.blobs ==> d in r'.blobs && r'.blobs[d] == r.blobs[d])
      && (forall d :: d in r'.blobs && d !in r.blobs ==> IsEncryptedBlob(r'.blobs[d]))
  {
    assert ref in s.refs;
    hide Ideal, IsEncryptedBlob, Sound, EnvelopeOf, ImageWalk;
    var walk := ImageWalk(c, j, s, ref).value;
    MoveRelays(c, s, r.blobs, walk);
    var m := MoveAll(c, s, r.blobs, walk).value;
    var listing := j.encode(Listing(s.refs[ref].digest, s.refs[ref].mediaType, m.entries));
    EnvelopeMarked(c, k, random, listing);
    var sealed := EnvelopeOf(c, k, random, listing);
    if c.hash(sealed) in m.blobs { SameHash(c, m.blobs[c.hash(sealed)], sealed); }
    hide Sealing;
  }

  /** Envelopes of the walk's plaintexts have headers of less than 4 GiB. */
  ghost predicate HeadersFit(c: Suite, walk: seq<Digest>, random: nat -> (nat -> Nonce)) {
    forall i, p :: 0 <= i < |walk| && c.hash(p) == walk[i] ==> Fits(c, random(i), p)
  }

  function PlainOf(c: Suite, s: Store, k: Key, d: Digest): Bytes
    requires d in s.aliases && s.aliases[d] in s.blobs && Opened(c, k, s.blobs[s.aliases[d]], Some(d)).Some?
  {
    Opened(c, k, s.blobs[s.aliases[d]], Some(d)).value
  }

  /** The plaintext that the source has sealed under `d`. */
  ghost predicate HasPlain(c: Suite, s: Store, k: Key, d: Digest) {
    d in s.aliases && s.aliases[d] in s.blobs && Opened(c, k, s.blobs[s.aliases[d]], Some(d)).Some?
  }

  /** The digests of the envelopes that a pull of `walk` seals for itself: one for each digest it does not have by then. */
  ghost function Resealed(c: Suite, src: Store, k: Key, dst: Store, random: nat -> (nat -> Nonce), walk: seq<Digest>): set<Digest> {
    if walk == [] || dst.key.None? then {}
    else
      var n := |walk| - 1;
      var sealed := Resealed(c, src, k, dst, random, walk[..n]);
      if HasBlob(dst, walk[n]) || walk[n] in walk[..n] || walk[n] in sealed || !HasPlain(c, src, k, walk[n]) then sealed
      else sealed + {c.hash(EnvelopeOf(c, dst.key.value, random(n), PlainOf(c, src, k, walk[n])))}
  }

  /**
   * A reached blob has a plaintext at the source. The destination, after sealing these envelopes, serves it if and only
   * if it did not misread that blob before and none of the envelopes has that digest, unless it held such a blob; the
   * source serves it if and only if it does not misread it.
   */
  ghost predicate Delivered(c: Suite, src: Store, k: Key, dst: Store, final: Store, sealed: set<Digest>, d: Digest) {
    && HasPlain(c, src, k, d)
    && (ReadBlob(c, final, d) == Some(PlainOf(c, src, k, d)) <==>
          !(HasBlob(dst, d) && Misreads(c, dst, d)) && !(d in sealed && d !in dst.blobs))
    && (ReadBlob(c, src, d) == Some(PlainOf(c, src, k, d)) <==> !Misreads(c, src, d))
  }

  /** `t` grew out of `s` by puts: nothing is gone, and what is misread was misread before or is a new envelope. */
  ghost predicate Grew(c: Suite, s: Store, t: Store) {
    && t.key == s.key && t.refs == s.refs
    && (forall d :: d in s.blobs ==> d in t.blobs) && (forall d :: HasBlob(s, d) ==> HasBlob(t, d))
    && (forall d :: HasBlob(t, d) ==> (Misreads(c, t, d) <==> (HasBlob(s, d) && Misreads(c, s, d)) || NewEnvelope(s, t, d)))
  }

  /** A keyed store writes nothing but envelopes, so this blob is one that `t` has gained. */
  predicate NewEnvelope(s: Store, t: Store, d: Digest) {
    s.key.Some? && d in t.blobs && d !in s.blobs
  }

  lemma GrewSelf(c: Suite, s: Store)
    ensures Grew(c, s, s)
  {
    hide Misreads;
  }

  lemma GrewMore(c: Suite, s: Store, t: Store, random: nat -> Nonce, bytes: Bytes)
    requires Ideal(c) && Sound(c, t) && Fits(c, random, bytes) && Grew(c, s, t)
    ensures Grew(c, s, WithBlob(c, t, random, bytes))
  {
    var u := WithBlob(c, t, random, bytes);
    PutAdds(c, t, random, bytes);
    hide Ideal, Sound, WithBlob, Misreads, Writes;
    forall d
      ensures HasBlob(u, d) <==> HasBlob(t, d) || d == c.hash(bytes) || Writes(c, t, random, bytes, d)
      ensures HasBlob(u, d) ==> (Misreads(c, u, d) <==> (HasBlob(t, d) && Misreads(c, t, d)) || (Writes(c, t, random, bytes, d) && d !in t.blobs))
    {
      MisreadsAfter(c, t, random, bytes, d);
    }
  }

  lemma PutAdds(c: Suite, t: Store, random: nat -> Nonce, bytes: Bytes)
    ensures var u := WithBlob(c, t, random, bytes);
      && u.key == t.key && u.refs == t.refs && (forall d :: d in t.blobs ==> d in u.blobs)
      && (forall d :: Writes(c, t, random, bytes, d) ==> t.key.Some?)
      && (t.key.Some? ==> forall d :: d in u.blobs && d !in t.blobs <==> Writes(c, t, random, bytes, d) && d !in t.blobs)
  {
    hide EnvelopeOf;
  }

  /** The source's envelopes are at the relay for these entries. */
  ghost predicate AtRelay(c: Suite, s: Store, k: Key, r: RelayState, walk: seq<Digest>, entries: seq<Entry>) {
    |entries| == |walk| && forall i :: 0 <= i < |walk| ==>
      && entries[i].plain == walk[i] && walk[i] in s.aliases && s.aliases[walk[i]] in s.blobs && Opened(c, k, s.blobs[s.aliases[walk[i]]], Some(walk[i])).Some?
      && entries[i].cipher in r.blobs && r.blobs[entries[i].cipher] == s.blobs[s.aliases[walk[i]]] && c.hash(r.blobs[entries[i].cipher]) == entries[i].cipher
  }

  lemma {:induction false} TakesAll(c: Suite, s: Store, r: RelayState, dst: Store, k: Key, random: nat -> (nat -> Nonce), walk: seq<Digest>, entries: seq<Entry>, n: nat)
    requires Ideal(c) && Sound(c, dst) && AtRelay(c, s, k, r, walk, entries) && n <= |walk| && HeadersFit(c, walk, random)
    ensures var t := TakeAll(c, r, dst, k, random, entries[..n]);
      && t.Some? && Sound(c, t.value) && Grew(c, dst, t.value)
      && forall i :: 0 <= i < n ==> HasBlob(t.value, walk[i])
    decreases n
  {
    hide Ideal, IsEncryptedBlob, Opened, Sound, WithBlob, Grew;
    if n > 0 {
      var m := n - 1;
      TakesAll(c, s, r, dst, k, random, walk, entries, m);
      assert entries[..n][..m] == entries[..m];
      var t := TakeAll(c, r, dst, k, random, entries[..m]).value;
      var p := PlainOf(c, s, k, walk[m]);
      OpenedHash(c, k, s.blobs[s.aliases[walk[m]]], walk[m]);
      WithBlobSound(c, t, random(m), p);
      GrewMore(c, dst, t, random(m), p);
      MisreadsAfter(c, t, random(m), p, walk[m]);
      forall i | 0 <= i < m ensures HasBlob(WithBlob(c, t, random(m), p), walk[i]) { MisreadsAfter(c, t, random(m), p, walk[i]); }
    } else {
      assert entries[..0] == [];
      GrewSelf(c, dst);
    }
  }

  /** A keyed store's new blobs are the envelopes it sealed. */
  lemma {:induction false} TakesResealed(c: Suite, s: Store, r: RelayState, dst: Store, k: Key, random: nat -> (nat -> Nonce), walk: seq<Digest>, entries: seq<Entry>, n: nat)
    requires Ideal(c) && Sound(c, dst) && AtRelay(c, s, k, r, walk, entries) && n <= |walk| && HeadersFit(c, walk, random) && dst.key.Some?
    ensures var t, sealed := TakeAll(c, r, dst, k, random, entries[..n]), Resealed(c, s, k, dst, random, walk[..n]);
      && t.Some? && t.value.key == dst.key
      && (forall d :: d in t.value.blobs <==> d in dst.blobs || d in sealed)
      && (forall d :: HasBlob(t.value, d) <==> HasBlob(dst, d) || d in sealed || d in walk[..n])
    decreases n
  {
    hide Ideal, IsEncryptedBlob, Opened, Sound, EnvelopeOf, Grew, HeadersFit;
    if n > 0 {
      var m := n - 1;
      TakesResealed(c, s, r, dst, k, random, walk, entries, m);
      assert entries[..n][..m] == entries[..m] && walk[..n][..m] == walk[..m];
      assert walk[..n] == walk[..m] + [walk[m]];
      TakesAll(c, s, r, dst, k, random, walk, entries, n);
      var p := PlainOf(c, s, k, walk[m]);
      OpenedHash(c, k, s.blobs[s.aliases[walk[m]]], walk[m]);
    } else {
      assert entries[..0] == [] && walk[..0] == [];
    }
  }

  /** What a pull newly holds, read off its inputs. */
  lemma NewsAre(c: Suite, s: Store, r: RelayState, dst: Store, k: Key, random: nat -> (nat -> Nonce), walk: seq<Digest>, entries: seq<Entry>, d: Digest)
    requires Ideal(c) && Sound(c, dst) && AtRelay(c, s, k, r, walk, entries) && HeadersFit(c, walk, random)
    requires TakeAll(c, r, dst, k, random, entries).Some?
    ensures NewEnvelope(dst, TakeAll(c, r, dst, k, random, entries).value, d) <==> d in Resealed(c, s, k, dst, random, walk) && d !in dst.blobs
  {
    SameLength(c, s, k, r, walk, entries);
    assert entries[..|walk|] == entries && walk[..|walk|] == walk;
    hide Ideal, Sound, AtRelay, HeadersFit, TakeAll;
    if dst.key.Some? { TakesResealed(c, s, r, dst, k, random, walk, entries, |walk|); }
  }

  lemma RelayedAt(c: Suite, s: Store, k: Key, blobs: map<Digest, Bytes>, walk: seq<Digest>, m: Moving, r: RelayState)
    requires Relayed(c, s, blobs, walk, m) && s.key == Some(k) && Honest(c, r.blobs)
    requires forall d :: d in m.blobs ==> d in r.blobs && r.blobs[d] == m.blobs[d]
    ensures AtRelay(c, s, k, r, walk, m.entries)
  {
    hide IsEncryptedBlob, Opened;
  }

  /** So does the envelope that lists the ref. */
  ghost predicate ListingFits(c: Suite, j: Json, s: Store, r: RelayState, ref: Bytes, random: nat -> Nonce) {
    ref in s.refs && ImageWalk(c, j, s, ref).Some? && MoveAll(c, s, r.blobs, ImageWalk(c, j, s, ref).value).Some? ==>
      Fits(c, random, j.encode(Listing(s.refs[ref].digest, s.refs[ref].mediaType, MoveAll(c, s, r.blobs, ImageWalk(c, j, s, ref).value).value.entries)))
  }

  /**
   * After a push, a pull with the same key always succeeds and installs the same ref, and every reached blob is
   * delivered: what it serves is settled by the destination before the pull and the envelopes the pull seals.
   */
  lemma PullAfterPush(c: Suite, j: Json, src: Store, relay: RelayState, dst: Store, ref: Bytes, k: Key, random: nat -> Nonce, random': nat -> (nat -> Nonce))
    requires Ideal(c) && Faithful(j) && Sound(c, src) && src.key == Some(k) && Sound(c, dst) && Honest(c, relay.blobs)
    requires Pushed(c, j, src, relay, ref, k, random).Some? && ImageWalk(c, j, src, ref).Some?
    requires HeadersFit(c, ImageWalk(c, j, src, ref).value, random') && ListingFits(c, j, src, relay, ref, random)
    ensures ref in src.refs
    ensures var pulled := Pulled(c, j, Pushed(c, j, src, relay, ref, k, random).value, dst, ref, k, random');
      var walk := ImageWalk(c, j, src, ref).value;
      && pulled.Some? && pulled.value.refs == dst.refs[ref := src.refs[ref]]
      && (forall d :: d in walk ==> Delivered(c, src, k, dst, pulled.value, Resealed(c, src, k, dst, random', walk), d))
      && Parses(c, j, src, ref) && forall d :: Belongs(c, j, src, ref, d) <==> d in walk
  {
    WalkBelongs(c, j, src, ref);
    var walk := ImageWalk(c, j, src, ref).value;
    assert ref in src.refs;
    hide *;
    var r := Pushed(c, j, src, relay, ref, k, random).value;
    var entries := ListsWalk(c, j, src, relay, ref, k, random);
    TakesAll(c, src, r, dst, k, random', walk, entries, |walk|);
    SameLength(c, src, k, r, walk, entries);
    assert entries[..|walk|] == entries;
    PulledIs(c, j, r, dst, ref, k, random', Listing(src.refs[ref].digest, src.refs[ref].mediaType, entries));
    var t := TakeAll(c, r, dst, k, random', entries).value;
    var final := Pulled(c, j, r, dst, ref, k, random').value;
    GrewRefs(c, dst, t);
    forall i | 0 <= i < |walk| ensures Delivered(c, src, k, dst, final, Resealed(c, src, k, dst, random', walk), walk[i]) {
      PlainAt(c, src, k, r, walk, entries, i);
      PlainServed(c, src, src, k, walk[i]);
      PlainServed(c, src, t, k, walk[i]);
      GrewAt(c, dst, t, walk[i]);
      RefsIrrelevant(c, final, t, walk[i]);
      NewsAre(c, src, r, dst, k, random', walk, entries, walk[i]);
      IsDelivered(c, src, k, dst, final, Resealed(c, src, k, dst, random', walk), walk[i]);
    }
  }

  lemma IsDelivered(c: Suite, src: Store, k: Key, dst: Store, final: Store, sealed: set<Digest>, d: Digest)
    requires HasPlain(c, src, k, d)
    requires ReadBlob(c, final, d) == Some(PlainOf(c, src, k, d)) <==> !(HasBlob(dst, d) && Misreads(c, dst, d)) && !(d in sealed && d !in dst.blobs)
    requires ReadBlob(c, src, d) == Some(PlainOf(c, src, k, d)) <==> !Misreads(c, src, d)
    ensures Delivered(c, src, k, dst, final, sealed, d)
  {
    hide Opened, Misreads, ReadBlob;
  }

  lemma GrewRefs(c: Suite, s: Store, t: Store)
    requires Grew(c, s, t)
    ensures t.refs == s.refs
  {
  }

  lemma GrewAt(c: Suite, s: Store, t: Store, d: Digest)
    requires Grew(c, s, t) && HasBlob(t, d)
    ensures Misreads(c, t, d) <==> (HasBlob(s, d) && Misreads(c, s, d)) || NewEnvelope(s, t, d)
  {
    hide Misreads;
  }

  lemma PlainAt(c: Suite, s: Store, k: Key, r: RelayState, walk: seq<Digest>, entries: seq<Entry>, i: nat)
    requires AtRelay(c, s, k, r, walk, entries) && i < |walk|
    ensures HasPlain(c, s, k, walk[i]) && HasBlob(s, walk[i])
  {
    hide Opened;
  }

  /** A store that has the digest serves the source's plaintext exactly when it does not misread it. */
  lemma PlainServed(c: Suite, s: Store, t: Store, k: Key, d: Digest)
    requires Ideal(c) && Sound(c, t) && HasPlain(c, s, k, d) && HasBlob(t, d)
    ensures ReadBlob(c, t, d) == Some(PlainOf(c, s, k, d)) <==> !Misreads(c, t, d)
  {
    OpenedHash(c, k, s.blobs[s.aliases[d]], d);
    ServesIff(c, t, PlainOf(c, s, k, d));
    hide Ideal, Sound, Opened, ReadBlob, Misreads, HasBlob;
  }

  /** The relay's envelope lists the walk, and every entry is there. */
  lemma ListsWalk(c: Suite, j: Json, src: Store, relay: RelayState, ref: Bytes, k: Key, random: nat -> Nonce) returns (entries: seq<Entry>)
    requires Ideal(c) && Faithful(j) && Sound(c, src) && src.key == Some(k) && Honest(c, relay.blobs)
    requires Pushed(c, j, src, relay, ref, k, random).Some? && ImageWalk(c, j, src, ref).Some? && ref in src.refs && ListingFits(c, j, src, relay, ref, random)
    ensures var r := Pushed(c, j, src, relay, ref, k, random).value;
      && AtRelay(c, src, k, r, ImageWalk(c, j, src, ref).value, entries)
      && ListingOf(c, j, r, ref, k) == Some(Listing(src.refs[ref].digest, src.refs[ref].mediaType, entries))
  {
    hide Ideal, IsEncryptedBlob, Sound, EnvelopeOf, Opened, ReadBlob, Sealing, ImageWalk, AtRelay;
    var walk := ImageWalk(c, j, src, ref).value;
    MoveRelays(c, src, relay.blobs, walk);
    var m := MoveAll(c, src, relay.blobs, walk).value;
    hide MoveAll;
    entries := m.entries;
    var listing := j.encode(Listing(src.refs[ref].digest, src.refs[ref].mediaType, entries));
    EnvelopeOpens(c, k, random, listing);
    var sealed := EnvelopeOf(c, k, random, listing);
    RelaySeesEnvelopes(c, j, src, relay, ref, k, random);
    if c.hash(sealed) in m.blobs { SameHash(c, m.blobs[c.hash(sealed)], sealed); }
    RelayedAt(c, src, k, relay.blobs, walk, m, Pushed(c, j, src, relay, ref, k, random).value);
  }

  lemma PulledIs(c: Suite, j: Json, r: RelayState, dst: Store, ref: Bytes, k: Key, random: nat -> (nat -> Nonce), l: Listing)
    requires Ideal(c) && ListingOf(c, j, r, ref, k) == Some(l) && TakeAll(c, r, dst, k, random, l.entries).Some?
    ensures var t := TakeAll(c, r, dst, k, random, l.entries).value;
      Pulled(c, j, r, dst, ref, k, random) == Some(t.(refs := t.refs[ref := StoredRef(l.manifest, l.mediaType)]))
  {
    hide Ideal, TakeAll, ListingOf;
  }

  lemma SameLength(c: Suite, s: Store, k: Key, r: RelayState, walk: seq<Digest>, entries: seq<Entry>)
    requires AtRelay(c, s, k, r, walk, entries)
    ensures |entries| == |walk|
  {
  }

  lemma RefsIrrelevant(c: Suite, s: Store, t: Store, d: Digest)
    requires s.blobs == t.blobs && s.aliases == t.aliases && s.key == t.key
    ensures ReadBlob(c, s, d) == ReadBlob(c, t, d)
  {
  }

  // --- a pull from any relay -------------------------------------------------------------------------------

  /** Envelopes for what a listing names have headers of less than 4 GiB. */
  ghost predicate EntriesFit(c: Suite, entries: seq<Entry>, random: nat -> (nat -> Nonce)) {
    forall i, p :: 0 <= i < |entries| && c.hash(p) == entries[i].plain ==> Fits(c, random(i), p)
  }

  lemma TakeOneSafe(c: Suite, r: RelayState, s: Store, k: Key, random: nat -> Nonce, e: Entry)
    requires Ideal(c) && Sound(c, s) && (forall p :: c.hash(p) == e.plain ==> Fits(c, random, p)) && TakeOne(c, r, s, k, random, e).Some?
    ensures var t := TakeOne(c, r, s, k, random, e).value;
      Sound(c, t) && HasBlob(t, e.plain) && t.refs == s.refs && forall d :: HasBlob(s, d) ==> HasBlob(t, d)
  {
    hide Ideal, Sound, Opened, IsEncryptedBlob, Fits, EnvelopeOf;
    if !HasBlob(s, e.plain) {
      OpenedHash(c, k, r.blobs[e.cipher], e.plain);
      var plain := Opened(c, k, r.blobs[e.cipher], Some(e.plain)).value;
      assert Fits(c, random, plain);
      WithBlobSound(c, s, random, plain);
    }
  }

  lemma {:induction false} TakeAllSafe(c: Suite, r: RelayState, s: Store, k: Key, random: nat -> (nat -> Nonce), entries: seq<Entry>)
    requires Ideal(c) && Sound(c, s) && EntriesFit(c, entries, random) && TakeAll(c, r, s, k, random, entries).Some?
    ensures var t := TakeAll(c, r, s, k, random, entries).value;
      && Sound(c, t) && t.refs == s.refs && (forall d :: HasBlob(s, d) ==> HasBlob(t, d))
      && forall e :: e in entries ==> HasBlob(t, e.plain)
  {
    hide Ideal, Sound, TakeOne, Fits, HasBlob;
    if entries != [] {
      var n := |entries| - 1;
      assert EntriesFit(c, entries[..n], random);
      TakeAllSafe(c, r, s, k, random, entries[..n]);
      TakeOneSafe(c, r, TakeAll(c, r, s, k, random, entries[..n]).value, k, random(n), entries[n]);
      assert entries == entries[..n] + [entries[n]];
    }
  }

  /**
   * Whatever the relay holds, a pull that succeeds leaves every blob under its own digest, has every blob its listing
   * names, and writes the listed manifest to the ref.
   */
  lemma PullIsSound(c: Suite, j: Json, r: RelayState, s: Store, ref: Bytes, k: Key, random: nat -> (nat -> Nonce))
    requires Ideal(c) && Sound(c, s) && Pulled(c, j, r, s, ref, k, random).Some?
    requires ListingOf(c, j, r, ref, k).Some? ==> EntriesFit(c, ListingOf(c, j, r, ref, k).value.entries, random)
    ensures var t := Pulled(c, j, r, s, ref, k, random).value;
      && Sound(c, t) && (forall d :: HasBlob(s, d) ==> HasBlob(t, d))
      && ListingOf(c, j, r, ref, k).Some? && var l := ListingOf(c, j, r, ref, k).value;
        t.refs == s.refs[ref := StoredRef(l.manifest, l.mediaType)] && forall e :: e in l.entries ==> HasBlob(t, e.plain)
  {
    hide Ideal, TakeAll, ListingOf, EntriesFit, Opened, IsEncryptedBlob;
    TakeAllSafe(c, r, s, k, random, ListingOf(c, j, r, ref, k).value.entries);
  }

  /** The relay holds the entry's ciphertext under its digest, and it opens to the named plaintext. */
  ghost predicate Unharmed(c: Suite, r: RelayState, k: Key, e: Entry) {
    e.cipher in r.blobs && c.hash(r.blobs[e.cipher]) == e.cipher && Opened(c, k, r.blobs[e.cipher], Some(e.plain)).Some?
  }

  /** Entry `i` can be taken when its turn comes: it is there by then, or comes unharmed. */
  ghost predicate Takes(c: Suite, r: RelayState, s: Store, k: Key, random: nat -> (nat -> Nonce), entries: seq<Entry>, i: nat)
    requires i < |entries|
  {
    TakeAll(c, r, s, k, random, entries[..i]).Some? ==>
      HasBlob(TakeAll(c, r, s, k, random, entries[..i]).value, entries[i].plain) || Unharmed(c, r, k, entries[i])
  }

  /** A pull takes all entries if and only if each, in its turn, is there or comes unharmed; any harmed one that is needed stops it. */
  lemma {:induction false} TakesAllIff(c: Suite, r: RelayState, s: Store, k: Key, random: nat -> (nat -> Nonce), entries: seq<Entry>)
    ensures TakeAll(c, r, s, k, random, entries).Some? <==> forall i :: 0 <= i < |entries| ==> Takes(c, r, s, k, random, entries, i)
  {
    hide Opened, WithBlob, HasBlob;
    if entries != [] {
      var n := |entries| - 1;
      var rest := entries[..n];
      TakesAllIff(c, r, s, k, random, rest);
      forall i | 0 <= i < n ensures Takes(c, r, s, k, random, rest, i) <==> Takes(c, r, s, k, random, entries, i) {
        assert rest[..i] == entries[..i] && rest[i] == entries[i];
      }
      assert Takes(c, r, s, k, random, entries, n) ==> (TakeAll(c, r, s, k, random, rest).Some? ==> TakeAll(c, r, s, k, random, entries).Some?);
    }
  }

  lemma {:induction false} MoveAllHonest(c: Suite, s: Store, blobs: map<Digest, Bytes>, walk: seq<Digest>)
    requires Honest(c, blobs) && MoveAll(c, s, blobs, walk).Some?
    ensures Honest(c, MoveAll(c, s, blobs, walk).value.blobs)
  {
    if walk != [] { MoveAllHonest(c, s, blobs, walk[..|walk| - 1]); }
  }

  /** Even out of a damaged store a push brings no blob to the relay under a digest that is not its own. */
  lemma PushIsHonest(c: Suite, j: Json, s: Store, r: RelayState, ref: Bytes, k: Key, random: nat -> Nonce)
    requires Honest(c, r.blobs) && Pushed(c, j, s, r, ref, k, random).Some?
    ensures Honest(c, Pushed(c, j, s, r, ref, k, random).value.blobs)
  {
    MoveAllHonest(c, s, r.blobs, ImageWalk(c, j, s, ref).value);
    hide MoveAll, ImageWalk, EnvelopeOf;
  }
}
