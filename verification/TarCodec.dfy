/** The byte-buffer loops of the tar codec, proved against the functions in `Tar`. */
module TarCodec {
  import opened Bytes
  import opened Numerals
  import opened Tar
  import opened TarRoundTrip

  // --- writing into a block -----------------------------------------------------------

  /** The slots written so far, followed by zeros. */
  lemma PutNext(done: Bytes, bytes: Bytes, n: nat)
    requires |done| + |bytes| <= n
    ensures Put(done + Zeros(n - |done|), |done|, bytes) == done + bytes + Zeros(n - |done| - |bytes|)
  {
    var s := done + Zeros(n - |done|);
    assert s[..|done|] == done;
    assert s[|done| + |bytes|..] == Zeros(n - |done| - |bytes|);
  }

  /** A short string leaves the rest of its field zero. */
  lemma FieldPut(done: Bytes, s: Bytes, width: nat, n: nat)
    requires |done| + width <= n
    ensures var cut := if |s| < width then s else s[..width];
            Put(done + Zeros(n - |done|), |done|, cut) == done + Field(s, width) + Zeros(n - |done| - width)
  {
    var cut := if |s| < width then s else s[..width];
    PutNext(done, cut, n);
    assert cut + Zeros(n - |done| - |cut|) == Field(s, width) + Zeros(n - |done| - width);
    assert done + cut + Zeros(n - |done| - |cut|) == done + (cut + Zeros(n - |done| - |cut|));
    assert done + Field(s, width) + Zeros(n - |done| - width) == done + (Field(s, width) + Zeros(n - |done| - width));
  }

  /** `encode(s).subarray(0, width)` set at `at`. */
  method SetCut(block: array<byte>, at: nat, s: Bytes, width: nat, ghost done: Bytes)
    requires |done| == at && at + width <= block.Length
    requires block[..] == done + Zeros(block.Length - at)
    modifies block
    ensures block[..] == done + Field(s, width) + Zeros(block.Length - at - width)
  {
    var cut := if |s| < width then s else s[..width];
    FieldPut(done, s, width, block.Length);
    SetBytes(block, at, cut);
  }

  method WriteOctal(block: array<byte>, at: nat, width: nat, value: int, ghost done: Bytes)
    requires |done| == at && width > 0 && at + width <= block.Length
    requires block[..] == done + Zeros(block.Length - at)
    modifies block
    ensures block[..] == done + OctalField(value, width) + Zeros(block.Length - at - width)
  {
    hide *;
    var s := PadStart(Digits(if value < 0 then 0 else value, 8), width - 1)[..width - 1];
    PutNext(done, s, block.Length);
    SetBytes(block, at, s);
    PutNext(done + s, [0], block.Length);
    SetBytes(block, at + width - 1, [0]);
    OctalFieldIs(value, width);
    assert done + s + [0] == done + OctalField(value, width);
  }

  lemma OctalFieldIs(value: int, width: nat)
    requires width > 0
    ensures OctalField(value, width) == PadStart(Digits(if value < 0 then 0 else value, 8), width - 1)[..width - 1] + [0]
  {
  }

  lemma SumAppend(s: Bytes, i: nat)
    requires i < |s|
    ensures Sum(s[..i + 1]) == Sum(s[..i]) + s[i]
  {
    assert s[..i + 1][..i] == s[..i];
  }

  /** Rewriting the eight checksum bytes between a front and a back. */
  lemma ChecksumPut(front: Bytes, back: Bytes, digits: Bytes)
    requires |digits| == 6
    ensures var blank := front + BLANKS + back; var at := |front|;
      Put(Put(Put(blank, at, digits), at + 6, [0]), at + 7, [32]) == front + (digits + [0, 32]) + back
  {
    BlanksAre();
    hide *;
    PutMiddle(front, BLANKS[..6], BLANKS[6..] + back, digits);
    assert BLANKS == BLANKS[..6] + BLANKS[6..] && BLANKS[6..] == [BLANKS[6]] + [BLANKS[7]];
    assert front + BLANKS + back == front + BLANKS[..6] + (BLANKS[6..] + back);
    assert front + digits + (BLANKS[6..] + back) == (front + digits) + [BLANKS[6]] + ([BLANKS[7]] + back);
    PutMiddle(front + digits, [BLANKS[6]], [BLANKS[7]] + back, [0]);
    assert (front + digits) + [0] + ([BLANKS[7]] + back) == (front + digits + [0]) + [BLANKS[7]] + back;
    PutMiddle(front + digits + [0], [BLANKS[7]], back, [32]);
    assert front + digits + [0] + [32] + back == front + (digits + [0, 32]) + back;
  }

  lemma BlanksAre()
    ensures |BLANKS| == 8
  {
  }

  /** Overwriting the middle of three parts. */
  lemma PutMiddle(a: Bytes, b: Bytes, z: Bytes, fill: Bytes)
    requires |b| == |fill|
    ensures Put(a + b + z, |a|, fill) == a + fill + z
  {
    assert (a + b + z)[..|a|] == a && (a + b + z)[|a| + |b|..] == z;
  }

  lemma FrontIs(name: Bytes, size: nat, mode: nat, mtimeMs: int)
    ensures Field(name, 100) + OctalField(mode % 4096, 8) + OctalField(0, 8) + OctalField(0, 8)
            + OctalField(size, 12) + OctalField(FloorSeconds(mtimeMs), 12) == HeaderFront(name, size, mode, mtimeMs)
  {
  }

  lemma BackIs(front: Bytes, flag: byte, link: Bytes)
    ensures front + BLANKS + [flag] + Field(link, 100) + USTAR + [0] + [48, 48] + Zeros(247)
         == front + BLANKS + HeaderBack(flag, link)
  {
  }

  lemma HeaderIs(name: Bytes, size: nat, flag: byte, mode: nat, mtimeMs: int, link: Bytes)
    ensures var front, back := HeaderFront(name, size, mode, mtimeMs), HeaderBack(flag, link);
      var digits := PadStart(Digits(Sum(front + BLANKS + back), 8), 6);
      |digits| == 6 && front + (digits + [0, 32]) + back == Header(name, size, flag, mode, mtimeMs, link)
  {
    hide HeaderFront, HeaderBack, Sum;
    SixDigits(HeaderFront(name, size, mode, mtimeMs) + BLANKS + HeaderBack(flag, link));
  }

  lemma SixDigits(s: Bytes)
    requires |s| <= BLOCK
    ensures |Digits(Sum(s), 8)| <= 6
    ensures |PadStart(Digits(Sum(s), 8), 6)| == 6
  {
    SumBound(s);
    assert Pow(8, 6) == 262144;
    DigitCount(Sum(s), 8, 6);
  }

  method SumOf(block: array<byte>) returns (sum: nat)
    ensures sum == Sum(block[..])
  {
    sum := 0;
    for i := 0 to block.Length
      invariant sum == Sum(block[..i])
    {
      SumAppend(block[..], i);
      assert block[..][..i] == block[..i] && block[..][..i + 1] == block[..i + 1];
      sum := sum + block[i];
    }
    assert block[..block.Length] == block[..];
  }

  lemma Sizes()
    ensures BLOCK == 512 && |BLANKS| == 8 && |USTAR| == 5
  {
  }

  /** The fields before the checksum. */
  method FrontFields(block: array<byte>, name: Bytes, size: nat, mode: nat, mtimeMs: int)
    requires block.Length == BLOCK && block[..] == Zeros(BLOCK)
    modifies block
    ensures |HeaderFront(name, size, mode, mtimeMs)| == 148
    ensures block[..] == HeaderFront(name, size, mode, mtimeMs) + Zeros(BLOCK - 148)
  {
    hide *;
    Sizes();
    ghost var done: Bytes := [];
    assert block[..] == [] + Zeros(block.Length);
    SetCut(block, 0, name, 100, done);
    done := Field(name, 100);
    assert [] + Field(name, 100) == done;
    WriteOctal(block, 100, 8, mode % 4096, done);
    done := done + OctalField(mode % 4096, 8);
    WriteOctal(block, 108, 8, 0, done);
    done := done + OctalField(0, 8);
    WriteOctal(block, 116, 8, 0, done);
    done := done + OctalField(0, 8);
    WriteOctal(block, 124, 12, size, done);
    done := done + OctalField(size, 12);
    WriteOctal(block, 136, 12, FloorSeconds(mtimeMs), done);
    FrontIs(name, size, mode, mtimeMs);
  }

  /** Blanks in place of the checksum, and the fields after it. */
  method BackFields(block: array<byte>, ghost front: Bytes, flag: byte, link: Bytes)
    requires block.Length == BLOCK && |front| == 148 && block[..] == front + Zeros(BLOCK - 148)
    modifies block
    ensures block[..] == front + BLANKS + HeaderBack(flag, link)
  {
    hide *;
    Sizes();
    ghost var done := front;
    PutNext(done, BLANKS, BLOCK);
    SetBytes(block, 148, BLANKS);
    done := done + BLANKS;
    PutNext(done, [flag], BLOCK);
    SetBytes(block, 156, [flag]);
    done := done + [flag];
    SetCut(block, 157, link, 100, done);
    done := done + Field(link, 100);
    PutNext(done, USTAR, BLOCK);
    SetBytes(block, 257, USTAR);
    done := done + USTAR;
    PutNext(done, [0], BLOCK);
    assert block[..] == Put(block[..], 262, [0]) by { PutZero(done, BLOCK); }
    done := done + [0];
    PutNext(done, [48, 48], BLOCK);
    SetBytes(block, 263, [48, 48]);
    BackIs(front, flag, link);
  }

  method TarHeader(name: Bytes, size: nat, flag: byte, mode: nat, mtimeMs: int, link: Bytes) returns (block: array<byte>)
    ensures fresh(block) && block[..] == Header(name, size, flag, mode, mtimeMs, link)
  {
    hide *;
    Sizes();
    block := new byte[BLOCK](i => 0);
    assert block[..] == Zeros(BLOCK);
    FrontFields(block, name, size, mode, mtimeMs);
    ghost var front, back := HeaderFront(name, size, mode, mtimeMs), HeaderBack(flag, link);
    BackFields(block, front, flag, link);
    var sum := SumOf(block);
    HeaderIs(name, size, flag, mode, mtimeMs, link);
    ChecksumPut(front, back, PadStart(Digits(sum, 8), 6));
    SetBytes(block, 148, PadStart(Digits(sum, 8), 6));
    SetBytes(block, 154, [0]);
    SetBytes(block, 155, [32]);
  }

  lemma PutZero(done: Bytes, n: nat)
    requires |done| + 1 <= n
    ensures Put(done + Zeros(n - |done|), |done|, [0]) == done + Zeros(n - |done|)
  {
  }

  // --- writing a tar ---------------------------------------------------------------------

  method PaxLengthLoop(size: nat) returns (length: nat)
    ensures length == size + |Digits(length, 10)| + 1
    ensures length == PaxLength(size)
  {
    length := size + 2;
    DigitsPositive(length);
    while size + |Digits(length, 10)| + 1 != length
      invariant length <= 2 * size + 20 && length <= size + |Digits(length, 10)| + 1
      invariant PaxLengthFrom(size, length) == PaxLength(size)
      decreases 2 * size + 20 - length
    {
      DigitsBelow(length);
      DigitsMonotone(length, size + |Digits(length, 10)| + 1);
      length := size + |Digits(length, 10)| + 1;
    }
  }

  method PaxText(key: Bytes, value: Bytes) returns (r: Bytes)
    ensures r == PaxRecord(key, value)
  {
    var record := key + [EQUALS] + value + [NEWLINE];
    var length := PaxLengthLoop(|record|);
    r := Digits(length, 10) + [SPACE] + record;
  }

  /** Concatenated blocks, in order. */
  function Join(parts: seq<Bytes>): Bytes {
    if parts == [] then [] else Join(parts[..|parts| - 1]) + parts[|parts| - 1]
  }

  lemma JoinAppend(parts: seq<Bytes>, p: Bytes)
    ensures Join(parts + [p]) == Join(parts) + p
  {
    assert (parts + [p])[..|parts + [p]| - 1] == parts;
  }

  lemma WriteTarAppend(es: seq<TarEntry>, i: nat)
    requires i < |es|
    ensures WriteTar(es[i..]) == EntryBlocks(es[i]) + WriteTar(es[i + 1..])
  {
    assert es[i..][0] == es[i] && es[i..][1..] == es[i + 1..];
  }

  method WriteEntry(parts: seq<Bytes>, e: TarEntry) returns (out: seq<Bytes>)
    ensures Join(out) == Join(parts) + EntryBlocks(e)
  {
    hide Header, Join, Padded, PaxRecord, Body, StoredName, LinkName, TypeFlag;
    out := parts;
    var pax := [];
    if |StoredName(e)| > 100 { pax := PaxText(PATH_KEY, StoredName(e)); }
    if e.link.Some? && |e.link.value| > 100 {
      var more := PaxText(LINK_KEY, e.link.value);
      pax := pax + more;
    }
    assert pax == Overrides(e);
    if pax != [] {
      var head := TarHeader(PAX_NAME, |pax|, 120, 420, e.mtimeMs, []);
      JoinAppend(out, head[..]);
      JoinAppend(out + [head[..]], Padded(pax));
      out := out + [head[..]] + [Padded(pax)];
    }
    assert Join(out) == Join(parts) + PaxBlocks(e);
    var header := TarHeader(StoredName(e), |Body(e)|, TypeFlag(e.kind), e.mode, e.mtimeMs, LinkName(e));
    JoinAppend(out, header[..]);
    out := out + [header[..]];
    if Body(e) != [] {
      JoinAppend(out, Padded(Body(e)));
      out := out + [Padded(Body(e))];
    } else {
      PaddedEmpty();
    }
  }

  lemma PaddedEmpty()
    ensures Padded([]) == []
  {
  }

  /** `writeTar`: collect the blocks, then copy them into one buffer. */
  method WriteTarBuffer(es: seq<TarEntry>) returns (out: array<byte>)
    ensures fresh(out) && out[..] == WriteTar(es)
  {
    hide *;
    var parts: seq<Bytes> := [];
    WriteTarStart(es);
    for i := 0 to |es|
      invariant Join(parts) + WriteTar(es[i..]) == WriteTar(es)
    {
      WriteTarAppend(es, i);
      ghost var before := Join(parts);
      parts := WriteEntry(parts, es[i]);
      assert before + (EntryBlocks(es[i]) + WriteTar(es[i + 1..])) == before + EntryBlocks(es[i]) + WriteTar(es[i + 1..]);
    }
    JoinAppend(parts, Zeros(1024));
    parts := parts + [Zeros(1024)];
    out := CopyParts(parts);
  }

  lemma JoinNone()
    ensures Join([]) == []
  {
  }

  lemma WriteTarStart(es: seq<TarEntry>)
    ensures Join([]) + WriteTar(es[0..]) == WriteTar(es)
    ensures WriteTar(es[|es|..]) == Zeros(1024)
  {
    hide *;
    assert es[0..] == es;
    JoinNone();
    assert [] + WriteTar(es) == WriteTar(es);
    WriteTarEnd(es[|es|..]);
  }

  lemma WriteTarEnd(es: seq<TarEntry>)
    requires es == []
    ensures WriteTar(es) == Zeros(1024)
  {
  }

  lemma JoinPrefix(parts: seq<Bytes>, i: nat)
    requires i < |parts|
    ensures Join(parts[..i + 1]) == Join(parts[..i]) + parts[i]
    ensures |Join(parts[..i + 1])| <= |Join(parts)|
    decreases |parts| - i
  {
    assert parts[..i + 1] == parts[..i] + [parts[i]];
    JoinAppend(parts[..i], parts[i]);
    if i + 1 < |parts| {
      JoinPrefix(parts, i + 1);
    } else {
      assert parts[..i + 1] == parts;
    }
  }

  method CopyParts(parts: seq<Bytes>) returns (out: array<byte>)
    ensures fresh(out) && out[..] == Join(parts)
  {
    out := new byte[|Join(parts)|](i => 0);
    var at := 0;
    ghost var rest := out[..];
    for i := 0 to |parts|
      invariant at == |Join(parts[..i])| <= out.Length
      invariant out[..at] == Join(parts[..i])
    {
      JoinPrefix(parts, i);
      SetBytes(out, at, parts[i]);
      at := at + |parts[i]|;
    }
    assert parts[..|parts|] == parts;
    assert out[..out.Length] == out[..];
  }

  // --- reading a tar ---------------------------------------------------------------------------

  /** One round of the record loop. */
  lemma PaxRound(content: Bytes, i: nat, out: PaxMap)
    ensures i >= |content| ==> ParsePaxFrom(content, i, out) == out
    ensures i < |content| ==> ParsePaxFrom(content, i, out) == match PaxRecordAt(content, i)
      case NoRecord => out
      case RecordAt(total, override) => ParsePaxFrom(content, i + total, out + override)
  {
    hide PaxRecordAt;
  }

  /** The record loop; each record is read by `PaxRecordAt`. */
  method ParsePaxLoop(content: Bytes) returns (out: PaxMap)
    ensures out == ParsePax(content)
  {
    hide *;
    out := map[];
    var i := 0;
    ParsePaxIs(content);
    while i < |content|
      invariant ParsePaxFrom(content, i, out) == ParsePax(content)
      decreases |content| - i
    {
      PaxRound(content, i, out);
      var r := PaxRecordAt(content, i);
      if r.NoRecord? { return; }
      out := out + r.override;
      i := i + r.total;
    }
    PaxRound(content, i, out);
  }

  lemma ParsePaxIs(content: Bytes)
    ensures ParsePax(content) == ParsePaxFrom(content, 0, map[])
  {
  }

  method IndexTarLoop(bytes: Bytes) returns (r: Indexed)
    ensures r == IndexTar(bytes)
  {
    hide Step, ZeroBlock, ReadNumber;
    var at := 0;
    var s := START;
    while at + BLOCK <= |bytes|
      invariant IndexFrom(bytes, at, s) == IndexTar(bytes)
      decreases |bytes| - at
    {
      var h := bytes[at..at + BLOCK];
      if ZeroBlock(h) { break; }
      var size := ReadNumber(h[124..136]);
      if size.Int? && size.v <= -512 { return NoProgress; }
      s := Step(bytes, h, at, s);
      if size.NaN? { return Indexed(s.entries); }
      at := at + BLOCK + CeilBlocks(size.v);
    }
    r := Indexed(s.entries);
  }
}
