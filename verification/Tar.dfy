/** The ustar / PAX codec of layer tars, as functions on byte strings. */
module Tar {
  import opened Bytes
  import opened Numerals

  const BLOCK: nat := 512

  datatype EntryType = FileEntry | DirEntry | SymlinkEntry | HardlinkEntry

  /** What the writer is given; the source's defaults are already filled in. */
  datatype TarEntry = TarEntry(path: Bytes, kind: EntryType, content: Bytes, mode: nat, mtimeMs: int, link: Option<Bytes>)

  /** What the indexer reports; `offset` points into the tar. */
  datatype LayerEntry = LayerEntry(path: Bytes, kind: EntryType, size: Num, offset: nat, mode: Num, mtimeMs: Num, link: Option<Bytes>)

  // --- headers ------------------------------------------------------------------------

  /** `s` cut to `n` bytes and padded with NULs. */
  function Field(s: Bytes, n: nat): (f: Bytes)
    ensures |f| == n
  {
    if |s| >= n then s[..n] else s + Zeros(n - |s|)
  }

  const USTAR: Bytes := [117, 115, 116, 97, 114]

  function HeaderFront(name: Bytes, size: nat, mode: nat, mtimeMs: int): (f: Bytes)
    ensures |f| == 148
  {
    Field(name, 100) + OctalField(mode % 4096, 8) + OctalField(0, 8) + OctalField(0, 8)
    + OctalField(size, 12) + OctalField(FloorSeconds(mtimeMs), 12)
  }

  function HeaderBack(typeflag: byte, link: Bytes): (b: Bytes)
    ensures |b| == 356
  {
    [typeflag] + Field(link, 100) + USTAR + [0] + [48, 48] + Zeros(247)
  }

  function FloorSeconds(ms: int): int {
    ms / 1000
  }

  function Sum(s: Bytes): nat {
    if s == [] then 0 else Sum(s[..|s| - 1]) + s[|s| - 1]
  }

  const BLANKS: Bytes := [32, 32, 32, 32, 32, 32, 32, 32]

  /** The checksum field: the byte sum taken with the field blank, in octal, then NUL and space. */
  function Checksum(front: Bytes, back: Bytes): (c: Bytes)
    ensures |c| == 8
  {
    Field(PadStart(Digits(Sum(front + BLANKS + back), 8), 6), 6) + [0, 32]
  }

  function Header(name: Bytes, size: nat, typeflag: byte, mode: nat, mtimeMs: int, link: Bytes): (h: Bytes)
    ensures |h| == BLOCK
  {
    var front, back := HeaderFront(name, size, mode, mtimeMs), HeaderBack(typeflag, link);
    front + Checksum(front, back) + back
  }

  // --- PAX records ------------------------------------------------------------------------

  /** The first length at or above `length` that counts its own decimal digits. */
  function PaxLengthFrom(size: nat, length: nat): (r: nat)
    requires length <= 2 * size + 20
    requires length <= size + |Digits(length, 10)| + 1
    ensures r == size + |Digits(r, 10)| + 1 && length <= r
    decreases 2 * size + 20 - length
  {
    var next := size + |Digits(length, 10)| + 1;
    if next == length then length
    else
      DigitsBelow(length);
      DigitsMonotone(length, next);
      PaxLengthFrom(size, next)
  }

  function PaxLength(size: nat): (r: nat)
    ensures r == size + |Digits(r, 10)| + 1
  {
    DigitsPositive(size + 2);
    PaxLengthFrom(size, size + 2)
  }

  lemma DigitsPositive(n: nat)
    ensures |Digits(n, 10)| >= 1
  {
  }

  lemma {:induction false} DigitsBelow(n: nat)
    ensures |Digits(n, 10)| <= n / 10 + 1
  {
    if n >= 10 { DigitsBelow(n / 10); }
  }

  lemma {:induction false} DigitsMonotone(m: nat, n: nat)
    requires m <= n
    ensures |Digits(m, 10)| <= |Digits(n, 10)|
  {
    if m >= 10 { DigitsMonotone(m / 10, n / 10); }
  }

  lemma {:induction false} LeastFrom(size: nat, length: nat, m: nat)
    requires length <= 2 * size + 20 && length <= size + |Digits(length, 10)| + 1
    requires length <= m == size + |Digits(m, 10)| + 1
    ensures PaxLengthFrom(size, length) <= m
    decreases 2 * size + 20 - length
  {
    hide Digits;
    var next := size + |Digits(length, 10)| + 1;
    if next != length {
      DigitsBelow(length);
      DigitsMonotone(length, next);
      DigitsMonotone(length, m);
      LeastFrom(size, next, m);
    }
  }

  /** The length found is the smallest that counts itself. */
  lemma PaxLengthLeast(size: nat, m: nat)
    requires m == size + |Digits(m, 10)| + 1
    ensures PaxLength(size) == size + |Digits(PaxLength(size), 10)| + 1 && PaxLength(size) <= m
  {
    DigitsPositive(size + 2);
    DigitsPositive(m);
    LeastFrom(size, size + 2, m);
  }

  const PATH_KEY: Bytes := [112, 97, 116, 104]                             // "path"
  const LINK_KEY: Bytes := [108, 105, 110, 107, 112, 97, 116, 104]         // "linkpath"
  const SIZE_KEY: Bytes := [115, 105, 122, 101]                            // "size"
  const EQUALS: byte := 61
  const NEWLINE: byte := 10
  const PAX_NAME: Bytes := [46, 47, 46, 47, 64, 80, 97, 120, 72, 101, 97, 100, 101, 114] // "././@PaxHeader"

  /** `"<length> <key>=<value>\n"`, the length counting the whole record. */
  function PaxRecord(key: Bytes, value: Bytes): (r: Bytes) {
    var record := key + [EQUALS] + value + [NEWLINE];
    Digits(PaxLength(|record|), 10) + [SPACE] + record
  }

  // --- the writer ---------------------------------------------------------------------------

  function Pad512(n: nat): (r: nat)
    ensures n <= r < n + BLOCK && r % BLOCK == 0
  {
    (n + 511) / 512 * 512
  }

  function Padded(s: Bytes): (r: Bytes)
    ensures |r| == Pad512(|s|) && s <= r
  {
    s + Zeros(Pad512(|s|) - |s|)
  }

  function StoredName(e: TarEntry): Bytes {
    (if e.path != [] && e.path[0] == 47 then e.path[1..] else e.path) + (if e.kind.DirEntry? then [47] else [])
  }

  function Overrides(e: TarEntry): Bytes {
    (if |StoredName(e)| > 100 then PaxRecord(PATH_KEY, StoredName(e)) else [])
    + (if e.link.Some? && |e.link.value| > 100 then PaxRecord(LINK_KEY, e.link.value) else [])
  }

  function TypeFlag(kind: EntryType): byte {
    match kind
    case DirEntry => 53
    case SymlinkEntry => 50
    case HardlinkEntry => 49
    case FileEntry => 48
  }

  function LinkName(e: TarEntry): Bytes {
    if e.link.Some? then e.link.value else []
  }

  function Body(e: TarEntry): Bytes {
    if e.kind.FileEntry? then e.content else []
  }

  function PaxBlocks(e: TarEntry): (b: Bytes) {
    var pax := Overrides(e);
    if pax == [] then []
    else Header(PAX_NAME, |pax|, 120, 420, e.mtimeMs, []) + Padded(pax)
  }

  function EntryBlocks(e: TarEntry): (b: Bytes) {
    PaxBlocks(e)
    + Header(StoredName(e), |Body(e)|, TypeFlag(e.kind), e.mode, e.mtimeMs, LinkName(e))
    + Padded(Body(e))
  }

  function WriteTar(es: seq<TarEntry>): Bytes {
    if es == [] then Zeros(1024) else EntryBlocks(es[0]) + WriteTar(es[1..])
  }

  // --- the indexer --------------------------------------------------------------------------------

  type PaxMap = map<Bytes, Bytes>

  datatype PaxAt = NoRecord | RecordAt(total: nat, override: PaxMap)

  /** The record that starts at `i`, if its length field is a positive number. */
  function PaxRecordAt(content: Bytes, i: nat): (r: PaxAt)
    ensures r.RecordAt? ==> r.total > 0
  {
    var space := IndexOf(content, SPACE, i);
    if space == -1 then NoRecord
    else
      var total := ParseInt(SkipMark(content[i..space]), 10);
      if total.NaN? || total.v <= 0 then NoRecord
      else
        var record := SkipMark(Sub(content, space + 1, i + total.v - 1));
        var eq := IndexOf(record, EQUALS, 0);
        RecordAt(total.v, if eq == -1 then map[] else map[record[..eq] := record[eq + 1..]])
  }

  /** The record loop of `parsePax`, from position `i`. */
  function ParsePaxFrom(content: Bytes, i: nat, out: PaxMap): PaxMap
    decreases |content| - i
  {
    if i >= |content| then out
    else
      var r := PaxRecordAt(content, i);
      if r.NoRecord? then out else ParsePaxFrom(content, i + r.total, out + r.override)
  }

  function ParsePax(content: Bytes): PaxMap {
    ParsePaxFrom(content, 0, map[])
  }

  function StripSlashes(p: Bytes): Bytes {
    if p != [] && p[|p| - 1] == 47 then StripSlashes(p[..|p| - 1]) else p
  }

  function NormalizeTarPath(name: Bytes): Bytes {
    var p := StripSlashes(name);
    var q := if |p| >= 2 && p[0] == 46 && p[1] == 47 then p[2..] else p;
    if q == [46] || q == [] then [47]
    else if q[0] == 47 then q else [47] + q
  }

  datatype Scan = Scan(
    entries: seq<LayerEntry>,
    pax: Option<PaxMap>,
    longName: Option<Bytes>,
    longLink: Option<Bytes>,
    global: PaxMap)

  const START: Scan := Scan([], None, None, None, map[])

  /** The indexer's result; `NoProgress` marks a negative size field that would move the reader backwards. */
  datatype Indexed = Indexed(entries: seq<LayerEntry>) | NoProgress

  predicate ZeroBlock(b: Bytes) {
    forall i :: 0 <= i < |b| ==> b[i] == 0
  }

  function Lookup(m: PaxMap, key: Bytes, default: Bytes): Bytes {
    if key in m then m[key] else default
  }

  function GetOr(o: Option<Bytes>, default: Bytes): Bytes {
    if o.Some? then o.value else default
  }

  function Times(n: Num, k: int): Num {
    if n.NaN? then NaN else Int(n.v * k)
  }

  /** `bytes.subarray(at, at + size)` for a size field's value. */
  function DataAt(bytes: Bytes, at: nat, size: Num): Bytes {
    if size.NaN? || size.v < 0 then [] else Sub(bytes, at, at + size.v)
  }

  function FlagOf(block: Bytes): byte
    requires |block| == BLOCK
  {
    if block[156] == 0 then 48 else block[156]
  }

  /** One header block `h` at `at`, whose data start at `at + 512`. */
  function Step(bytes: Bytes, h: Bytes, at: nat, s: Scan): Scan
    requires |h| == BLOCK
  {
    var size := ReadNumber(h[124..136]);
    var data := at + BLOCK;
    var flag := FlagOf(h);
    if flag == 120 then s.(pax := Some(s.global + ParsePax(DataAt(bytes, data, size))))
    else if flag == 103 then s.(global := s.global + ParsePax(DataAt(bytes, data, size)))
    else if flag == 76 then s.(longName := Some(ReadString(DataAt(bytes, data, size))))
    else if flag == 75 then s.(longLink := Some(ReadString(DataAt(bytes, data, size))))
    else
      s.(entries := s.entries + EntryAt(h, data, s), pax := None, longName := None, longLink := None)
  }

  /** The entry a plain header describes, if it is one a pod can hold. */
  function EntryAt(h: Bytes, data: nat, s: Scan): seq<LayerEntry>
    requires |h| == BLOCK
  {
    var rawName := ReadString(h[..100]);
    var mode := ReadNumber(h[100..108]);
    var size := ReadNumber(h[124..136]);
    var mtimeMs := Times(ReadNumber(h[136..148]), 1000);
    var flag := FlagOf(h);
    var linkname := ReadString(h[157..257]);
    var prefix := if USTAR <= ReadString(h[257..263]) then ReadString(h[345..500]) else [];
    var pax := if s.pax.Some? then s.pax.value else s.global;
    var name := Lookup(pax, PATH_KEY, GetOr(s.longName, if prefix != [] then prefix + [47] + rawName else rawName));
    var link := Lookup(pax, LINK_KEY, GetOr(s.longLink, linkname));
    var realSize := if SIZE_KEY in pax then ParseInt(pax[SIZE_KEY], 10) else size;
    var path := NormalizeTarPath(name);
    if path == [47] then []
    else if flag == 53 then [LayerEntry(path, DirEntry, Int(0), data, mode, mtimeMs, None)]
    else if flag == 50 then [LayerEntry(path, SymlinkEntry, Int(0), data, mode, mtimeMs, Some(link))]
    else if flag == 49 then [LayerEntry(path, HardlinkEntry, Int(0), data, mode, mtimeMs, Some(NormalizeTarPath(link)))]
    else if flag == 48 || flag == 55 then [LayerEntry(path, FileEntry, realSize, data, mode, mtimeMs, None)]
    else []
  }

  /** `Math.ceil(size / 512) * 512` */
  function CeilBlocks(size: int): (r: int)
    ensures size <= r < size + BLOCK
  {
    (size + 511) / 512 * 512
  }

  function IndexFrom(bytes: Bytes, at: nat, s: Scan): Indexed
    decreases |bytes| - at
  {
    if at + BLOCK > |bytes| then Indexed(s.entries)
    else
      var h := bytes[at..at + BLOCK];
      if ZeroBlock(h) then Indexed(s.entries)
      else
        var size := ReadNumber(h[124..136]);
        if size.Int? && size.v <= -512 then NoProgress
        else
          var s' := Step(bytes, h, at, s);
          if size.NaN? then Indexed(s'.entries)
          else IndexFrom(bytes, at + BLOCK + CeilBlocks(size.v), s')
  }

  function IndexTar(bytes: Bytes): Indexed {
    IndexFrom(bytes, 0, START)
  }
}
