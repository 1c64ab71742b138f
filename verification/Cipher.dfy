/** Chunked authenticated encryption of a blob: framing, chunk arithmetic, and the way back. */
module Cipher {
  import opened Bytes

  type Key = Bytes
  type Nonce = Bytes

  const MAGIC: Bytes := [65, 80, 79, 68, 69, 78, 67, 49]  // "APODENC1"
  const TAG: nat := 16
  const FIXED: nat := 12

  datatype Header = Header(chunkSize: nat, plaintextSize: nat, nonces: seq<Nonce>)

  /** AES-GCM and the JSON codec of the header, which accepts format 1 with this cipher only. */
  datatype Suite = Suite(
    seal: (Key, Nonce, Bytes) -> Bytes,
    unseal: (Key, Nonce, Bytes) -> Option<Bytes>,
    encode: Header -> Bytes,
    decode: Bytes -> Option<Header>,
    hash: Bytes -> Bytes)

  /** Ideal cipher, codec and hash: what was sealed opens to itself, a tag longer; headers decode; digests tell blobs apart. */
  ghost predicate Ideal(c: Suite) {
    && (forall k, n, p :: |c.seal(k, n, p)| == |p| + TAG && c.unseal(k, n, c.seal(k, n, p)) == Some(p))
    && (forall h :: c.decode(c.encode(h)) == Some(h))
    && (forall a, b {:trigger c.hash(a), c.hash(b)} :: c.hash(a) == c.hash(b) ==> a == b)
  }

  // --- the format ------------------------------------------------------------------------------------

  function Word(n: nat): (w: Bytes)
    requires n < 0x1_0000_0000
    ensures |w| == 4
  {
    [n / 0x100_0000, n / 0x1_0000 % 0x100, n / 0x100 % 0x100, n % 0x100]
  }

  function ReadWord(w: Bytes): nat
    requires |w| == 4
  {
    var a: int, b: int, c: int, d: int := w[0], w[1], w[2], w[3];
    a * 0x100_0000 + b * 0x1_0000 + c * 0x100 + d
  }

  lemma WordBack(n: nat)
    requires n < 0x1_0000_0000
    ensures ReadWord(Word(n)) == n
  {
    var b, c := n / 0x100, n / 0x1_0000;
    assert n == b * 0x100 + n % 0x100;
    assert b == b / 0x100 * 0x100 + b % 0x100 && b / 0x100 == c;
    assert c == c / 0x100 * 0x100 + c % 0x100 && c / 0x100 == n / 0x100_0000;
  }

  /** How many chunks: an empty plaintext still has one. */
  function ChunkCount(size: nat, chunkSize: nat): nat
    requires chunkSize > 0
  {
    if size == 0 then 1 else (size + chunkSize - 1) / chunkSize
  }

  function ChunkAt(plain: Bytes, chunkSize: nat, i: nat): Bytes {
    Sub(plain, i * chunkSize, i * chunkSize + chunkSize)
  }

  function Sealed(c: Suite, k: Key, nonces: seq<Nonce>, plain: Bytes, chunkSize: nat): Bytes {
    if nonces == [] then []
    else
      var n := |nonces| - 1;
      Sealed(c, k, nonces[..n], plain, chunkSize) + c.seal(k, nonces[n], ChunkAt(plain, chunkSize, n))
  }

  const WORD_RANGE := 0x1_0000_0000

  /** `setUint32` keeps the low 32 bits of the header's length. */
  function Frame(header: Bytes, body: Bytes): Bytes {
    MAGIC + Word(|header| % WORD_RANGE) + header + body
  }

  /** The header's length fits its field. */
  predicate ShortHeader(c: Suite, chunkSize: nat, size: nat, nonces: seq<Nonce>) {
    |c.encode(Header(chunkSize, size, nonces))| < WORD_RANGE
  }

  /** The envelope of a plaintext under one nonce a chunk. */
  function Encrypted(c: Suite, k: Key, nonces: seq<Nonce>, plain: Bytes, chunkSize: nat): Bytes {
    Frame(c.encode(Header(chunkSize, |plain|, nonces)), Sealed(c, k, nonces, plain, chunkSize))
  }

  predicate IsEncryptedBlob(bytes: Bytes) {
    |bytes| >= |MAGIC| && bytes[..|MAGIC|] == MAGIC
  }

  // --- reading back --------------------------------------------------------------------------------------

  function Min(a: nat, b: nat): nat {
    if a < b then a else b
  }

  /** `out.set(p, at)`, which throws when it does not fit. */
  function SetAt(out: Bytes, at: nat, p: Bytes): Option<Bytes> {
    if at + |p| > |out| then None else Some(Put(out, at, p))
  }

  datatype Reading = Reading(out: Bytes, readAt: nat, writeAt: nat)

  /** One turn of the chunk loop. */
  function ReadChunk(c: Suite, k: Key, bytes: Bytes, h: Header, n: Nonce, r: Reading): Option<Reading>
    requires r.writeAt <= h.plaintextSize
  {
    var plainChunk := Min(h.chunkSize, h.plaintextSize - r.writeAt);
    var cipherChunk := plainChunk + TAG;
    match c.unseal(k, n, Sub(bytes, r.readAt, r.readAt + cipherChunk))
    case None => None
    case Some(p) =>
      match SetAt(r.out, r.writeAt, p)
      case None => None
      case Some(out) => Some(Reading(out, r.readAt + cipherChunk, r.writeAt + plainChunk))
  }

  function ReadChunks(c: Suite, k: Key, bytes: Bytes, h: Header, start: nat, nonces: seq<Nonce>): (r: Option<Reading>)
    ensures r.Some? ==> r.value.writeAt <= h.plaintextSize
  {
    if nonces == [] then Some(Reading(Zeros(h.plaintextSize), start, 0))
    else match ReadChunks(c, k, bytes, h, start, nonces[..|nonces| - 1])
      case None => None
      case Some(r) => ReadChunk(c, k, bytes, h, nonces[|nonces| - 1], r)
  }

  function Decrypted(c: Suite, k: Key, bytes: Bytes): Option<Bytes> {
    if !IsEncryptedBlob(bytes) || |bytes| < FIXED then None
    else
      var length := ReadWord(bytes[|MAGIC|..FIXED]);
      match c.decode(Sub(bytes, FIXED, FIXED + length))
      case None => None
      case Some(h) =>
        match ReadChunks(c, k, bytes, h, FIXED + length, h.nonces)
        case None => None
        case Some(r) => Some(r.out)
  }

  // --- the loops --------------------------------------------------------------------------------------------

  function Drawn(random: nat -> Nonce, n: nat): seq<Nonce> {
    seq(n, (i: nat) => random(i))
  }

  /** Nonces come from the system's randomness; `random(i)` is the one drawn for chunk `i`. */
  method EncryptBlob(c: Suite, k: Key, plain: Bytes, chunkSize: nat, random: nat -> Nonce) returns (out: array<byte>)
    requires chunkSize > 0
    ensures fresh(out) && out[..] == Encrypted(c, k, Drawn(random, ChunkCount(|plain|, chunkSize)), plain, chunkSize)
  {
    hide Ideal, Drawn, Sealed, ChunkCount;
    var nonces, chunks, total := SealChunks(c, k, plain, chunkSize, random);
    var header := c.encode(Header(chunkSize, |plain|, nonces));
    out := Assemble(header, chunks, total);
  }

  method SealChunks(c: Suite, k: Key, plain: Bytes, chunkSize: nat, random: nat -> Nonce) returns (nonces: seq<Nonce>, chunks: seq<Bytes>, total: nat)
    requires chunkSize > 0
    ensures nonces == Drawn(random, ChunkCount(|plain|, chunkSize))
    ensures Flat(chunks) == Sealed(c, k, nonces, plain, chunkSize) && total == |Flat(chunks)|
  {
    hide *;
    var offset: nat := 0;
    nonces, chunks, total := [], [], 0;
    NoneSealed(c, k, plain, chunkSize, random);
    while offset < |plain| || offset == 0
      invariant SealedUpTo(c, k, plain, chunkSize, random, offset, nonces, chunks, total)
      invariant offset == 0 ==> nonces == []
      decreases |plain| - offset, offset == 0
    {
      var chunk := Sub(plain, offset, Min(offset + chunkSize, |plain|));
      var nonce := random(|nonces|);
      var sealed := c.seal(k, nonce, chunk);
      SealedMore(c, k, plain, chunkSize, random, offset, nonces, chunks, total);
      chunks := chunks + [sealed];
      nonces := nonces + [nonce];
      total := total + |sealed|;
      if |plain| == 0 { return; }
      offset := offset + chunkSize;
    }
    AllSealed(c, k, plain, chunkSize, random, offset, nonces, chunks, total);
  }

  /** The loop's state: `offset` bytes taken in whole chunks, all but the last below the end. */
  ghost predicate SealedUpTo(c: Suite, k: Key, plain: Bytes, chunkSize: nat, random: nat -> Nonce, offset: nat, nonces: seq<Nonce>, chunks: seq<Bytes>, total: nat) {
    && offset == |nonces| * chunkSize && nonces == Drawn(random, |nonces|)
    && Flat(chunks) == Sealed(c, k, nonces, plain, chunkSize) && total == |Flat(chunks)|
    && (|nonces| > 0 ==> (|nonces| - 1) * chunkSize < |plain|)
  }

  lemma NoneSealed(c: Suite, k: Key, plain: Bytes, chunkSize: nat, random: nat -> Nonce)
    ensures SealedUpTo(c, k, plain, chunkSize, random, 0, [], [], 0)
  {
    assert Drawn(random, 0) == [];
  }

  lemma SealedMore(c: Suite, k: Key, plain: Bytes, chunkSize: nat, random: nat -> Nonce, offset: nat, nonces: seq<Nonce>, chunks: seq<Bytes>, total: nat)
    requires chunkSize > 0 && SealedUpTo(c, k, plain, chunkSize, random, offset, nonces, chunks, total) && (offset == 0 ==> nonces == [])
    requires offset < |plain| || offset == 0
    ensures var nonce := random(|nonces|);
      var sealed := c.seal(k, nonce, Sub(plain, offset, Min(offset + chunkSize, |plain|)));
      && (|plain| > 0 ==> SealedUpTo(c, k, plain, chunkSize, random, offset + chunkSize, nonces + [nonce], chunks + [sealed], total + |sealed|))
      && (|plain| == 0 ==>
           && nonces + [nonce] == Drawn(random, ChunkCount(|plain|, chunkSize))
           && Flat(chunks + [sealed]) == Sealed(c, k, nonces + [nonce], plain, chunkSize) && total + |sealed| == |Flat(chunks + [sealed])|)
  {
    var n := |nonces|;
    var nonce := random(n);
    var sealed := c.seal(k, nonce, Sub(plain, offset, Min(offset + chunkSize, |plain|)));
    ChunkIs(plain, chunkSize, n);
    NextIs(n, chunkSize);
    DrawnNext(random, n);
    FlatMore(chunks, sealed);
    SealedLast(c, k, nonces, nonce, plain, chunkSize);
    assert |nonces + [nonce]| == n + 1 && n * chunkSize == offset;
    hide Sealed, Flat, Drawn, ChunkAt, Sub;
  }

  lemma NextIs(n: nat, d: nat)
    ensures (n + 1) * d == n * d + d
  {
  }

  lemma DrawnNext(random: nat -> Nonce, n: nat)
    ensures Drawn(random, n + 1) == Drawn(random, n) + [random(n)]
  {
  }

  lemma FlatMore(chunks: seq<Bytes>, chunk: Bytes)
    ensures Flat(chunks + [chunk]) == Flat(chunks) + chunk
  {
    assert (chunks + [chunk])[..|chunks|] == chunks;
  }

  lemma SealedLast(c: Suite, k: Key, nonces: seq<Nonce>, nonce: Nonce, plain: Bytes, chunkSize: nat)
    ensures Sealed(c, k, nonces + [nonce], plain, chunkSize) == Sealed(c, k, nonces, plain, chunkSize) + c.seal(k, nonce, ChunkAt(plain, chunkSize, |nonces|))
  {
    assert (nonces + [nonce])[..|nonces|] == nonces;
  }

  lemma AllSealed(c: Suite, k: Key, plain: Bytes, chunkSize: nat, random: nat -> Nonce, offset: nat, nonces: seq<Nonce>, chunks: seq<Bytes>, total: nat)
    requires chunkSize > 0 && SealedUpTo(c, k, plain, chunkSize, random, offset, nonces, chunks, total) && offset >= |plain| && offset > 0
    ensures nonces == Drawn(random, ChunkCount(|plain|, chunkSize))
    ensures Flat(chunks) == Sealed(c, k, nonces, plain, chunkSize) && total == |Flat(chunks)|
  {
    hide Drawn, Sealed, Flat;
    assert |nonces| > 0;
    CountIs(|plain|, chunkSize, |nonces|);
  }

  method Assemble(header: Bytes, chunks: seq<Bytes>, total: nat) returns (out: array<byte>)
    requires total == |Flat(chunks)|
    ensures fresh(out) && out[..] == Frame(header, Flat(chunks))
  {
    out := new byte[FIXED + |header| + total];
    ghost var lead := MAGIC + Word(|header| % WORD_RANGE) + header;
    hide Flat;
    SetBytes(out, 0, MAGIC);
    assert out[..8] == MAGIC;
    SetBytes(out, |MAGIC|, Word(|header| % WORD_RANGE));
    assert out[..FIXED] == MAGIC + Word(|header| % WORD_RANGE);
    SetBytes(out, FIXED, header);
    assert out[..FIXED + |header|] == lead;
    CopyChunks(out, FIXED + |header|, lead, chunks);
  }

  method CopyChunks(out: array<byte>, start: nat, ghost lead: Bytes, chunks: seq<Bytes>)
    requires start == |lead| && out.Length == |lead| + |Flat(chunks)| && out[..|lead|] == lead
    modifies out
    ensures out[..] == lead + Flat(chunks)
  {
    hide *;
    var at := start;
    NoChunk();
    assert chunks[..0] == [] && lead + [] == lead;
    for i := 0 to |chunks|
      invariant at == |lead| + |Flat(chunks[..i])| <= out.Length
      invariant out[..at] == lead + Flat(chunks[..i])
    {
      FlatPrefix(chunks, i + 1);
      FlatNext(chunks, i);
      ghost var before := out[..];
      SetBytes(out, at, chunks[i]);
      PutEnds(before, at, chunks[i]);
      assert before[..at] == lead + Flat(chunks[..i]);
      assert out[..at + |chunks[i]|] == out[..][..at + |chunks[i]|];
      assert lead + Flat(chunks[..i]) + chunks[i] == lead + (Flat(chunks[..i]) + chunks[i]);
      at := at + |chunks[i]|;
    }
    assert chunks[..|chunks|] == chunks;
    assert out[..] == out[..at];
  }

  lemma NoChunk()
    ensures Flat([]) == []
  {
  }

  lemma FlatNext(chunks: seq<Bytes>, i: nat)
    requires i < |chunks|
    ensures Flat(chunks[..i + 1]) == Flat(chunks[..i]) + chunks[i]
  {
    assert chunks[..i + 1][..i] == chunks[..i];
  }

  lemma PutEnds(s: Bytes, at: nat, data: Bytes)
    requires at + |data| <= |s|
    ensures Put(s, at, data)[..at + |data|] == s[..at] + data
  {
  }

  function Flat(chunks: seq<Bytes>): Bytes {
    if chunks == [] then [] else Flat(chunks[..|chunks| - 1]) + chunks[|chunks| - 1]
  }

  lemma {:induction false} FlatPrefix(chunks: seq<Bytes>, i: nat)
    requires i <= |chunks|
    ensures |Flat(chunks[..i])| <= |Flat(chunks)|
    decreases |chunks|
  {
    if i < |chunks| {
      assert chunks[..|chunks| - 1][..i] == chunks[..i];
      FlatPrefix(chunks[..|chunks| - 1], i);
    } else {
      assert chunks[..i] == chunks;
    }
  }

  lemma ChunkIs(plain: Bytes, chunkSize: nat, i: nat)
    ensures Sub(plain, i * chunkSize, Min(i * chunkSize + chunkSize, |plain|)) == ChunkAt(plain, chunkSize, i)
  {
  }

  lemma CountIs(size: nat, chunkSize: nat, n: nat)
    requires chunkSize > 0 && n > 0
    requires if size == 0 then n == 1 else (n - 1) * chunkSize < size <= n * chunkSize
    ensures n == ChunkCount(size, chunkSize)
  {
    if size > 0 {
      var x := size + chunkSize - 1;
      assert n * chunkSize <= x < (n + 1) * chunkSize;
      DivIs(x, chunkSize, n);
    }
  }

  lemma DivIs(x: nat, d: nat, q: nat)
    requires d > 0 && q * d <= x < (q + 1) * d
    ensures x / d == q
  {
    var e := x / d;
    DivBounds(x, d);
    if e < q { MulMonotone(e + 1, q, d); }
    if e > q { MulMonotone(q + 1, e, d); }
  }

  lemma DivBounds(x: nat, d: nat)
    requires d > 0
    ensures x / d * d <= x < (x / d + 1) * d
  {
  }

  lemma MulMonotone(a: nat, b: nat, d: nat)
    requires a <= b
    ensures a * d <= b * d
  {
  }

  /** `decryptBlob`, with the plaintext digest the caller expects, if any. */
  function Opened(c: Suite, k: Key, bytes: Bytes, expected: Option<Bytes>): Option<Bytes> {
    match Decrypted(c, k, bytes)
    case None => None
    case Some(p) => if expected.None? || c.hash(p) == expected.value then Some(p) else None
  }

  method DecryptBlob(c: Suite, k: Key, bytes: Bytes, expected: Option<Bytes>) returns (r: Option<array<byte>>)
    ensures r.Some? <==> Opened(c, k, bytes, expected).Some?
    ensures r.Some? ==> fresh(r.value) && r.value[..] == Opened(c, k, bytes, expected).value
  {
    if !IsEncryptedBlob(bytes) || |bytes| < FIXED { return None; }
    var length := ReadWord(bytes[|MAGIC|..FIXED]);
    var header := c.decode(Sub(bytes, FIXED, FIXED + length));
    if header.None? { return None; }
    hide ReadWord, MAGIC, IsEncryptedBlob, Sub;
    var ok, out := OpenChunks(c, k, bytes, header.value, FIXED + length);
    if !ok || (expected.Some? && c.hash(out[..]) != expected.value) { return None; }
    r := Some(out);
  }

  method OpenChunks(c: Suite, k: Key, bytes: Bytes, h: Header, start: nat) returns (ok: bool, out: array<byte>)
    ensures fresh(out)
    ensures var r := ReadChunks(c, k, bytes, h, start, h.nonces); ok == r.Some? && (ok ==> out[..] == r.value.out)
  {
    hide *;
    out := new byte[h.plaintextSize](_ => 0);
    assert out[..] == Zeros(h.plaintextSize);
    var readAt: nat, writeAt: nat := start, 0;
    NoChunks(c, k, bytes, h, start);
    assert h.nonces[..0] == [];
    for i := 0 to |h.nonces|
      invariant writeAt <= h.plaintextSize == out.Length
      invariant ReadChunks(c, k, bytes, h, start, h.nonces[..i]) == Some(Reading(out[..], readAt, writeAt))
    {
      NextChunk(c, k, bytes, h, start, i, Reading(out[..], readAt, writeAt));
      var plainChunk := Min(h.chunkSize, h.plaintextSize - writeAt);
      var cipherChunk := plainChunk + TAG;
      var plain := c.unseal(k, h.nonces[i], Sub(bytes, readAt, readAt + cipherChunk));
      if plain.None? || writeAt + |plain.value| > out.Length {
        ReadingStops(c, k, bytes, h, start, i + 1);
        return false, out;
      }
      SetBytes(out, writeAt, plain.value);
      readAt := readAt + cipherChunk;
      writeAt := writeAt + plainChunk;
    }
    assert h.nonces[..|h.nonces|] == h.nonces;
    ok := true;
  }

  lemma NoChunks(c: Suite, k: Key, bytes: Bytes, h: Header, start: nat)
    ensures ReadChunks(c, k, bytes, h, start, []) == Some(Reading(Zeros(h.plaintextSize), start, 0))
  {
  }

  /** The state after one more chunk. */
  lemma NextChunk(c: Suite, k: Key, bytes: Bytes, h: Header, start: nat, i: nat, r: Reading)
    requires i < |h.nonces| && ReadChunks(c, k, bytes, h, start, h.nonces[..i]) == Some(r) && r.writeAt <= h.plaintextSize == |r.out|
    ensures var size := Min(h.chunkSize, h.plaintextSize - r.writeAt);
      var p := c.unseal(k, h.nonces[i], Sub(bytes, r.readAt, r.readAt + (size + TAG)));
      && size <= h.plaintextSize - r.writeAt
      && ReadChunks(c, k, bytes, h, start, h.nonces[..i + 1])
           == if p.None? || r.writeAt + |p.value| > h.plaintextSize then None else Some(Reading(Put(r.out, r.writeAt, p.value), r.readAt + (size + TAG), r.writeAt + size))
  {
    assert h.nonces[..i + 1][..i] == h.nonces[..i] && h.nonces[..i + 1][i] == h.nonces[i];
    hide Sub, Put;
  }

  lemma ReadingStops(c: Suite, k: Key, bytes: Bytes, h: Header, start: nat, i: nat)
    requires i <= |h.nonces| && ReadChunks(c, k, bytes, h, start, h.nonces[..i]).None?
    ensures ReadChunks(c, k, bytes, h, start, h.nonces).None?
  {
    StopsBelow(c, k, bytes, h, start, h.nonces, i);
  }

  lemma {:induction false} StopsBelow(c: Suite, k: Key, bytes: Bytes, h: Header, start: nat, nonces: seq<Nonce>, i: nat)
    requires i <= |nonces| && ReadChunks(c, k, bytes, h, start, nonces[..i]).None?
    ensures ReadChunks(c, k, bytes, h, start, nonces).None?
    decreases |nonces|
  {
    if i < |nonces| {
      assert nonces[..|nonces| - 1][..i] == nonces[..i];
      StopsBelow(c, k, bytes, h, start, nonces[..|nonces| - 1], i);
    } else {
      assert nonces[..i] == nonces;
    }
  }

  // --- round trip --------------------------------------------------------------------------------------------

  function Done(plain: Bytes, chunkSize: nat, i: nat): nat {
    Min(i * chunkSize, |plain|)
  }

  lemma ChunkSize(plain: Bytes, chunkSize: nat, i: nat)
    requires chunkSize > 0 && i < ChunkCount(|plain|, chunkSize)
    ensures i * chunkSize <= |plain| && Done(plain, chunkSize, i) == i * chunkSize
    ensures |ChunkAt(plain, chunkSize, i)| == Min(chunkSize, |plain| - Done(plain, chunkSize, i))
    ensures Done(plain, chunkSize, i) + |ChunkAt(plain, chunkSize, i)| == Done(plain, chunkSize, i + 1) <= |plain|
    ensures plain[..Done(plain, chunkSize, i)] + ChunkAt(plain, chunkSize, i) == plain[..Done(plain, chunkSize, i + 1)]
  {
    if |plain| > 0 {
      var x, q := |plain| + chunkSize - 1, ChunkCount(|plain|, chunkSize);
      DivBounds(x, chunkSize);
      MulMonotone(i + 1, q, chunkSize);
      assert (i + 1) * chunkSize == i * chunkSize + chunkSize;
    } else {
      assert i == 0;
    }
  }

  lemma SubMiddle(a: Bytes, b: Bytes, z: Bytes)
    ensures Sub(a + b + z, |a|, |a| + |b|) == b
  {
    assert (a + b + z)[|a|..|a| + |b|] == b;
  }

  lemma {:induction false} SealedPrefix(c: Suite, k: Key, nonces: seq<Nonce>, plain: Bytes, chunkSize: nat, i: nat)
    requires i < |nonces|
    ensures var one := c.seal(k, nonces[i], ChunkAt(plain, chunkSize, i));
      Sealed(c, k, nonces[..i], plain, chunkSize) + one <= Sealed(c, k, nonces, plain, chunkSize)
    decreases |nonces|
  {
    var n := |nonces| - 1;
    if i < n {
      assert nonces[..n][..i] == nonces[..i];
      SealedPrefix(c, k, nonces[..n], plain, chunkSize, i);
    }
    hide ChunkAt;
  }

  lemma PutOnZeros(done: Bytes, p: Bytes, size: nat)
    requires |done| + |p| <= size
    ensures Put(done + Zeros(size - |done|), |done|, p) == done + p + Zeros(size - |done| - |p|)
  {
  }

  lemma {:induction false} ReadsBack(c: Suite, k: Key, nonces: seq<Nonce>, plain: Bytes, chunkSize: nat, lead: Bytes, i: nat)
    requires Ideal(c) && chunkSize > 0 && |nonces| == ChunkCount(|plain|, chunkSize) && i <= |nonces|
    ensures var bytes := lead + Sealed(c, k, nonces, plain, chunkSize); var h := Header(chunkSize, |plain|, nonces); var w := Done(plain, chunkSize, i);
      ReadChunks(c, k, bytes, h, |lead|, nonces[..i])
        == Some(Reading(plain[..w] + Zeros(|plain| - w), |lead| + |Sealed(c, k, nonces[..i], plain, chunkSize)|, w))
    decreases i
  {
    hide *;
    var h := Header(chunkSize, |plain|, nonces);
    var bytes := lead + Sealed(c, k, nonces, plain, chunkSize);
    if i == 0 {
      NoChunks(c, k, bytes, h, |lead|);
      NothingDone(c, k, plain, chunkSize);
      assert nonces[..0] == [] && plain[..0] + Zeros(|plain|) == Zeros(|plain|);
    } else {
      var j := i - 1;
      ReadsBack(c, k, nonces, plain, chunkSize, lead, j);
      ChunkSize(plain, chunkSize, j);
      var w, p := Done(plain, chunkSize, j), ChunkAt(plain, chunkSize, j);
      var before, one := Sealed(c, k, nonces[..j], plain, chunkSize), c.seal(k, nonces[j], p);
      SealedPrefix(c, k, nonces, plain, chunkSize, j);
      NextSealed(c, k, nonces, plain, chunkSize, j);
      Unseals(c, k, nonces[j], p);
      SliceIs(lead, before, one, Sealed(c, k, nonces, plain, chunkSize));
      PutOnZeros(plain[..w], p, |plain|);
      NextChunk(c, k, bytes, h, |lead|, j, Reading(plain[..w] + Zeros(|plain| - w), |lead| + |before|, w));
      assert j + 1 == i;
    }
  }

  lemma NothingDone(c: Suite, k: Key, plain: Bytes, chunkSize: nat)
    ensures Done(plain, chunkSize, 0) == 0 && Sealed(c, k, [], plain, chunkSize) == []
  {
  }

  lemma NextSealed(c: Suite, k: Key, nonces: seq<Nonce>, plain: Bytes, chunkSize: nat, j: nat)
    requires j < |nonces|
    ensures Sealed(c, k, nonces[..j + 1], plain, chunkSize) == Sealed(c, k, nonces[..j], plain, chunkSize) + c.seal(k, nonces[j], ChunkAt(plain, chunkSize, j))
  {
    assert nonces[..j + 1][..j] == nonces[..j];
  }

  lemma Unseals(c: Suite, k: Key, n: Nonce, p: Bytes)
    requires Ideal(c)
    ensures |c.seal(k, n, p)| == |p| + TAG && c.unseal(k, n, c.seal(k, n, p)) == Some(p)
  {
  }

  lemma SliceIs(lead: Bytes, before: Bytes, one: Bytes, all: Bytes)
    requires before + one <= all
    ensures Sub(lead + all, |lead| + |before|, |lead| + |before| + |one|) == one
  {
    var rest := all[|before| + |one|..];
    assert all == before + one + rest;
    assert lead + all == (lead + before) + one + rest;
    SubMiddle(lead + before, one, rest);
  }

  /** Decrypting an envelope gives the plaintext back, the empty one included, while the header's length fits 32 bits. */
  lemma RoundTrip(c: Suite, k: Key, nonces: seq<Nonce>, plain: Bytes, chunkSize: nat)
    requires Ideal(c) && chunkSize > 0 && |nonces| == ChunkCount(|plain|, chunkSize) && ShortHeader(c, chunkSize, |plain|, nonces)
    ensures var bytes := Encrypted(c, k, nonces, plain, chunkSize);
      IsEncryptedBlob(bytes) && Decrypted(c, k, bytes) == Some(plain) && Opened(c, k, bytes, Some(c.hash(plain))) == Some(plain)
  {
    hide *;
    var h := Header(chunkSize, |plain|, nonces);
    var header := c.encode(h);
    var body := Sealed(c, k, nonces, plain, chunkSize);
    var bytes := Encrypted(c, k, nonces, plain, chunkSize);
    HeaderIs(c, h);
    EncryptedIs(c, k, nonces, plain, chunkSize);
    var lead := FrameParts(header, body);
    ReadsBack(c, k, nonces, plain, chunkSize, lead, |nonces|);
    assert nonces[..|nonces|] == nonces;
    AllDone(plain, chunkSize);
    assert plain[..|plain|] + Zeros(0) == plain;
    DecryptedIs(c, k, bytes, h, |header|, Reading(plain, |lead| + |body|, |plain|));
    OpensTo(c, k, bytes, plain);
  }

  lemma HeaderIs(c: Suite, h: Header)
    requires Ideal(c) && ShortHeader(c, h.chunkSize, h.plaintextSize, h.nonces)
    ensures |c.encode(h)| < WORD_RANGE && c.decode(c.encode(h)) == Some(h)
  {
    assert h == Header(h.chunkSize, h.plaintextSize, h.nonces);
  }

  lemma EncryptedIs(c: Suite, k: Key, nonces: seq<Nonce>, plain: Bytes, chunkSize: nat)
    ensures Encrypted(c, k, nonces, plain, chunkSize) == Frame(c.encode(Header(chunkSize, |plain|, nonces)), Sealed(c, k, nonces, plain, chunkSize))
  {
    hide Frame, Sealed;
  }

  /** Magic, length, header, body, each where the reader looks for it. */
  lemma FrameParts(header: Bytes, body: Bytes) returns (lead: Bytes)
    requires |header| < WORD_RANGE
    ensures var bytes := Frame(header, body);
      && bytes == lead + body && |lead| == FIXED + |header| && IsEncryptedBlob(bytes) && |MAGIC| <= FIXED <= |bytes|
      && FIXED - |MAGIC| == 4 && ReadWord(bytes[|MAGIC|..FIXED]) == |header| && Sub(bytes, FIXED, FIXED + |header|) == header
  {
    lead := MAGIC + Word(|header| % WORD_RANGE) + header;
    var bytes := Frame(header, body);
    WordBack(|header|);
    hide Word, ReadWord;
    assert bytes[..|MAGIC|] == MAGIC && bytes[|MAGIC|..FIXED] == Word(|header|);
    SubMiddle(MAGIC + Word(|header|), header, body);
    hide MAGIC;
  }

  lemma DecryptedIs(c: Suite, k: Key, bytes: Bytes, h: Header, length: nat, r: Reading)
    requires IsEncryptedBlob(bytes) && |MAGIC| <= FIXED <= |bytes| && FIXED - |MAGIC| == 4 && ReadWord(bytes[|MAGIC|..FIXED]) == length
    requires c.decode(Sub(bytes, FIXED, FIXED + length)) == Some(h) && ReadChunks(c, k, bytes, h, FIXED + length, h.nonces) == Some(r)
    ensures Decrypted(c, k, bytes) == Some(r.out)
  {
    hide ReadWord, Sub, ReadChunks, IsEncryptedBlob, MAGIC;
  }

  lemma OpensTo(c: Suite, k: Key, bytes: Bytes, plain: Bytes)
    requires Decrypted(c, k, bytes) == Some(plain)
    ensures Opened(c, k, bytes, Some(c.hash(plain))) == Some(plain)
  {
    hide Decrypted;
  }

  lemma AllDone(plain: Bytes, chunkSize: nat)
    requires chunkSize > 0
    ensures Done(plain, chunkSize, ChunkCount(|plain|, chunkSize)) == |plain|
  {
    if |plain| > 0 { DivBounds(|plain| + chunkSize - 1, chunkSize); }
  }

  /** Every chunk gains a tag. */
  lemma {:induction false} SealedGrows(c: Suite, k: Key, nonces: seq<Nonce>, plain: Bytes, chunkSize: nat)
    requires Ideal(c) && chunkSize > 0 && |nonces| <= ChunkCount(|plain|, chunkSize)
    ensures |Sealed(c, k, nonces, plain, chunkSize)| >= Done(plain, chunkSize, |nonces|)
  {
    if nonces != [] {
      var n := |nonces| - 1;
      SealedGrows(c, k, nonces[..n], plain, chunkSize);
      ChunkSize(plain, chunkSize, n);
    }
    hide ChunkAt, ChunkCount;
  }

  /** An envelope is longer than its plaintext. */
  lemma EnvelopeLonger(c: Suite, k: Key, nonces: seq<Nonce>, plain: Bytes, chunkSize: nat)
    requires Ideal(c) && chunkSize > 0 && |nonces| == ChunkCount(|plain|, chunkSize)
    ensures |Encrypted(c, k, nonces, plain, chunkSize)| > |plain|
  {
    SealedGrows(c, k, nonces, plain, chunkSize);
    AllDone(plain, chunkSize);
    hide Sealed, ChunkCount, Done;
  }
}
