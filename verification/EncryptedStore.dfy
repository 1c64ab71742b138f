/** The blob store of a pod: plain blobs, or envelopes reached through plaintext-to-ciphertext aliases. */
module EncryptedStore {
  import opened Bytes
  import opened Cipher

  type Digest = Bytes

  datatype StoredRef = StoredRef(digest: Digest, mediaType: Bytes)

  const CHUNK_SIZE: nat := 4 * 1024 * 1024

  /** `key` is absent when encryption is off or the session holds none. */
  datatype Store = Store(key: Option<Key>, blobs: map<Digest, Bytes>, aliases: map<Digest, Digest>, refs: map<Bytes, StoredRef>)

  predicate HasBlob(s: Store, d: Digest) {
    d in s.blobs || d in s.aliases
  }

  /** `getBlob`: every path verifies what it returns. */
  function ReadBlob(c: Suite, s: Store, d: Digest): Option<Bytes> {
    if d in s.blobs then
      var raw := s.blobs[d];
      if c.hash(raw) != d then None
      else if IsEncryptedBlob(raw) && s.key.Some? then Opened(c, s.key.value, raw, None)
      else Some(raw)
    else if d in s.aliases && s.aliases[d] in s.blobs && c.hash(s.blobs[s.aliases[d]]) == s.aliases[d] && s.key.Some? then
      Opened(c, s.key.value, s.blobs[s.aliases[d]], Some(d))
    else None
  }

  function RawBlob(c: Suite, s: Store, d: Digest): Option<Bytes> {
    if d in s.blobs && c.hash(s.blobs[d]) == d then Some(s.blobs[d]) else None
  }

  function Nonces(random: nat -> Nonce, bytes: Bytes): seq<Nonce> {
    Drawn(random, ChunkCount(|bytes|, CHUNK_SIZE))
  }

  function EnvelopeOf(c: Suite, k: Key, random: nat -> Nonce, bytes: Bytes): Bytes {
    Encrypted(c, k, Nonces(random, bytes), bytes, CHUNK_SIZE)
  }

  /** The header of the envelope keeps within its 32-bit length. */
  predicate Fits(c: Suite, random: nat -> Nonce, bytes: Bytes) {
    ShortHeader(c, CHUNK_SIZE, |bytes|, Nonces(random, bytes))
  }

  /** The store after putting `bytes`. */
  function WithBlob(c: Suite, s: Store, random: nat -> Nonce, bytes: Bytes): Store {
    var d := c.hash(bytes);
    if HasBlob(s, d) then s
    else if s.key.None? then s.(blobs := s.blobs[d := bytes])
    else
      var e := EnvelopeOf(c, s.key.value, random, bytes);
      s.(blobs := s.blobs[c.hash(e) := e], aliases := s.aliases[d := c.hash(e)])
  }

  class OciStore {
    const suite: Suite
    var key: Option<Key>
    var blobs: map<Digest, Bytes>
    var aliases: map<Digest, Digest>
    var refs: map<Bytes, StoredRef>

    constructor (c: Suite)
      ensures suite == c && State() == Store(None, map[], map[], map[])
    {
      suite := c;
      key, blobs, aliases, refs := None, map[], map[], map[];
    }

    function State(): Store
      reads this
    {
      Store(key, blobs, aliases, refs)
    }

    /** `None` when the bytes do not have the expected digest. */
    method PutBlob(bytes: Bytes, expected: Option<Digest>, random: nat -> Nonce) returns (r: Option<Digest>)
      modifies this`blobs, this`aliases
      ensures r == if expected.Some? && suite.hash(bytes) != expected.value then None else Some(suite.hash(bytes))
      ensures State() == if r.None? then old(State()) else WithBlob(suite, old(State()), random, bytes)
    {
      var digest := suite.hash(bytes);
      if expected.Some? && digest != expected.value { return None; }
      if key.None? {
        if !(digest in blobs || digest in aliases) { blobs := blobs[digest := bytes]; }
        return Some(digest);
      }
      if digest in blobs || digest in aliases { return Some(digest); }
      var encrypted := EncryptBlob(suite, key.value, bytes, CHUNK_SIZE, random);
      var envelope := encrypted[..];
      blobs := blobs[suite.hash(envelope) := envelope];
      aliases := aliases[digest := suite.hash(envelope)];
      r := Some(digest);
    }

    method GetBlob(d: Digest) returns (r: Option<Bytes>)
      ensures r == ReadBlob(suite, State(), d)
    {
      if d in blobs {
        var raw := blobs[d];
        if suite.hash(raw) != d { return None; }
        if !IsEncryptedBlob(raw) || key.None? { return Some(raw); }
        var plain := DecryptBlob(suite, key.value, raw, None);
        return if plain.Some? then Some(plain.value[..]) else None;
      }
      if d !in aliases || aliases[d] !in blobs { return None; }
      var raw := blobs[aliases[d]];
      if suite.hash(raw) != aliases[d] || key.None? { return None; }
      var plain := DecryptBlob(suite, key.value, raw, Some(d));
      r := if plain.Some? then Some(plain.value[..]) else None;
    }
  }

  // --- what the store keeps -----------------------------------------------------------------------------

  /** The blob behind an alias is an envelope that opens to the aliased plaintext. */
  ghost predicate Sealing(c: Suite, s: Store, d: Digest) {
    && d in s.aliases && s.aliases[d] in s.blobs && IsEncryptedBlob(s.blobs[s.aliases[d]])
    && (s.key.Some? ==> Opened(c, s.key.value, s.blobs[s.aliases[d]], Some(d)).Some?)
  }

  ghost predicate Sound(c: Suite, s: Store) {
    (forall d :: d in s.blobs ==> c.hash(s.blobs[d]) == d) && forall d :: d in s.aliases ==> Sealing(c, s, d)
  }

  /** `bytes` can be read back under its digest. */
  ghost predicate Serves(c: Suite, s: Store, bytes: Bytes) {
    ReadBlob(c, s, c.hash(bytes)) == Some(bytes)
  }

  lemma EnvelopeOpens(c: Suite, k: Key, random: nat -> Nonce, bytes: Bytes)
    requires Ideal(c) && Fits(c, random, bytes)
    ensures var e := EnvelopeOf(c, k, random, bytes);
      IsEncryptedBlob(e) && Opened(c, k, e, None) == Some(bytes) && Opened(c, k, e, Some(c.hash(bytes))) == Some(bytes)
  {
    RoundTrip(c, k, Nonces(random, bytes), bytes, CHUNK_SIZE);
    hide Encrypted, Decrypted, ChunkCount, IsEncryptedBlob;
  }

  lemma OpenedHash(c: Suite, k: Key, bytes: Bytes, d: Digest)
    requires Opened(c, k, bytes, Some(d)).Some?
    ensures c.hash(Opened(c, k, bytes, Some(d)).value) == d
  {
    hide Decrypted;
  }

  lemma SameHash(c: Suite, a: Bytes, b: Bytes)
    requires Ideal(c) && c.hash(a) == c.hash(b)
    ensures a == b
  {
  }

  /**
   * Whatever the store holds, sound or not, a read gives back bytes of the digest asked for, or what is inside an
   * envelope of that digest.
   */
  lemma ReadIsVerified(c: Suite, s: Store, d: Digest)
    ensures ReadBlob(c, s, d).Some? ==>
      var bytes := ReadBlob(c, s, d).value;
      c.hash(bytes) == d
      || (d in s.blobs && c.hash(s.blobs[d]) == d && IsEncryptedBlob(s.blobs[d]) && s.key.Some? && Opened(c, s.key.value, s.blobs[d], None) == Some(bytes))
    ensures d !in s.blobs && ReadBlob(c, s, d).Some? ==>
      d in s.aliases && s.aliases[d] in s.blobs && c.hash(s.blobs[s.aliases[d]]) == s.aliases[d]
  {
    if d !in s.blobs && ReadBlob(c, s, d).Some? { OpenedHash(c, s.key.value, s.blobs[s.aliases[d]], d); }
    hide Opened, IsEncryptedBlob;
  }

  /** Nothing stored is lost: a blob whose digest is taken already is the same blob. */
  lemma SameEntry(c: Suite, s: Store, bytes: Bytes)
    requires Ideal(c) && Sound(c, s)
    ensures c.hash(bytes) in s.blobs ==> s.blobs[c.hash(bytes)] == bytes
  {
    if c.hash(bytes) in s.blobs { SameHash(c, s.blobs[c.hash(bytes)], bytes); }
    hide Ideal;
  }

  /** Writing a blob under its digest, and perhaps an alias for it. */
  lemma WriteSound(c: Suite, s: Store, bytes: Bytes, aliases: map<Digest, Digest>)
    requires Sound(c, s) && (c.hash(bytes) in s.blobs ==> s.blobs[c.hash(bytes)] == bytes)
    requires forall d :: d in aliases && d !in s.aliases ==>
      aliases[d] == c.hash(bytes) && IsEncryptedBlob(bytes) && (s.key.Some? ==> Opened(c, s.key.value, bytes, Some(d)).Some?)
    requires forall d :: d in s.aliases ==> d in aliases && aliases[d] == s.aliases[d]
    ensures Sound(c, s.(blobs := s.blobs[c.hash(bytes) := bytes], aliases := aliases))
  {
    hide Opened, IsEncryptedBlob;
  }

  lemma WithBlobSound(c: Suite, s: Store, random: nat -> Nonce, bytes: Bytes)
    requires Ideal(c) && Sound(c, s) && Fits(c, random, bytes)
    ensures Sound(c, WithBlob(c, s, random, bytes))
  {
    hide Ideal, EnvelopeOf, Opened, IsEncryptedBlob, Sound;
    SameEntry(c, s, bytes);
    if s.key.None? {
      WriteSound(c, s, bytes, s.aliases);
    } else {
      var e := EnvelopeOf(c, s.key.value, random, bytes);
      EnvelopeOpens(c, s.key.value, random, bytes);
      SameEntry(c, s, e);
      if !HasBlob(s, c.hash(bytes)) { WriteSound(c, s, e, s.aliases[c.hash(bytes) := c.hash(e)]); }
    }
  }

  // --- what `getBlob` gives back --------------------------------------------------------------------------

  /** A blob kept as it is that starts like an envelope is opened when there is a key; an aliased one is locked when there is none. */
  predicate Misreads(c: Suite, s: Store, d: Digest) {
    if d in s.blobs then IsEncryptedBlob(s.blobs[d]) && s.key.Some? && Opened(c, s.key.value, s.blobs[d], None) != Some(s.blobs[d])
    else s.key.None?
  }

  /** A blob is served under its digest if and only if the store has it and does not misread it. */
  lemma ServesIff(c: Suite, s: Store, bytes: Bytes)
    requires Ideal(c) && Sound(c, s)
    ensures Serves(c, s, bytes) <==> HasBlob(s, c.hash(bytes)) && !Misreads(c, s, c.hash(bytes))
  {
    var d := c.hash(bytes);
    hide Opened, IsEncryptedBlob;
    if d in s.blobs {
      SameEntry(c, s, bytes);
    } else if d in s.aliases && s.key.Some? {
      assert Sealing(c, s, d);
      var raw := s.blobs[s.aliases[d]];
      OpenedHash(c, s.key.value, raw, d);
      SameHash(c, Opened(c, s.key.value, raw, Some(d)).value, bytes);
    }
    hide Ideal;
  }

  /** The envelope is longer than its bytes, so it never opens to itself. */
  lemma NotItself(c: Suite, k: Key, random: nat -> Nonce, bytes: Bytes)
    requires Ideal(c) && Fits(c, random, bytes)
    ensures var e := EnvelopeOf(c, k, random, bytes);
      e != bytes && c.hash(e) != c.hash(bytes) && IsEncryptedBlob(e) && Opened(c, k, e, None) == Some(bytes)
  {
    EnvelopeOpens(c, k, random, bytes);
    EnvelopeLonger(c, k, Nonces(random, bytes), bytes, CHUNK_SIZE);
    if c.hash(EnvelopeOf(c, k, random, bytes)) == c.hash(bytes) { SameHash(c, EnvelopeOf(c, k, random, bytes), bytes); }
    hide Encrypted, ChunkCount, IsEncryptedBlob, Opened;
  }

  /** Putting `bytes` writes a new envelope, whose digest is `d`. */
  predicate Writes(c: Suite, s: Store, random: nat -> Nonce, bytes: Bytes, d: Digest) {
    s.key.Some? && !HasBlob(s, c.hash(bytes)) && c.hash(EnvelopeOf(c, s.key.value, random, bytes)) == d
  }

  /** What a put changes: the put blob is read as before if it was there, else not misread; a new envelope is. */
  lemma MisreadsAfter(c: Suite, s: Store, random: nat -> Nonce, bytes: Bytes, d: Digest)
    requires Ideal(c) && Sound(c, s) && Fits(c, random, bytes)
    ensures var t := WithBlob(c, s, random, bytes);
      && (HasBlob(t, d) <==> HasBlob(s, d) || d == c.hash(bytes) || Writes(c, s, random, bytes, d))
      && (HasBlob(t, d) ==> (Misreads(c, t, d) <==> (HasBlob(s, d) && Misreads(c, s, d)) || (Writes(c, s, random, bytes, d) && d !in s.blobs)))
  {
    if s.key.Some? {
      var e := EnvelopeOf(c, s.key.value, random, bytes);
      NotItself(c, s.key.value, random, bytes);
      SameEntry(c, s, e);
    }
    hide Ideal, EnvelopeOf, Opened, IsEncryptedBlob, Sound;
  }

  /**
   * A put blob is served unless the store had it already and misreads it. Every blob served before still is, but for
   * one kept by alias only whose bytes are the new envelope.
   */
  lemma WithBlobServes(c: Suite, s: Store, random: nat -> Nonce, bytes: Bytes, other: Bytes)
    requires Ideal(c) && Sound(c, s) && Fits(c, random, bytes)
    ensures Serves(c, WithBlob(c, s, random, bytes), bytes) <==> !(HasBlob(s, c.hash(bytes)) && Misreads(c, s, c.hash(bytes)))
    ensures Serves(c, s, other) ==>
      (Serves(c, WithBlob(c, s, random, bytes), other) <==> !(Writes(c, s, random, bytes, c.hash(other)) && c.hash(other) !in s.blobs))
  {
    var t := WithBlob(c, s, random, bytes);
    WithBlobSound(c, s, random, bytes);
    MisreadsAfter(c, s, random, bytes, c.hash(bytes));
    MisreadsAfter(c, s, random, bytes, c.hash(other));
    ServesIff(c, s, other);
    ServesIff(c, t, bytes);
    ServesIff(c, t, other);
    if s.key.Some? { NotItself(c, s.key.value, random, bytes); }
    hide Ideal, EnvelopeOf, Opened, IsEncryptedBlob, Sound, Serves, WithBlob, Misreads;
  }

  /** A keyed store that holds an envelope as it is serves what is inside it, not the envelope. */
  lemma EnvelopeMisread(c: Suite, k: Key, random: nat -> Nonce, bytes: Bytes)
    requires Ideal(c) && Fits(c, random, bytes)
    ensures var e := EnvelopeOf(c, k, random, bytes); var s := Store(Some(k), map[c.hash(e) := e], map[], map[]);
      Sound(c, s) && ReadBlob(c, s, c.hash(e)) == Some(bytes) && !Serves(c, s, e)
  {
    NotItself(c, k, random, bytes);
    hide Ideal, EnvelopeOf, Opened, IsEncryptedBlob;
  }
}
