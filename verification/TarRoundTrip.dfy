/** What the indexer reads back from what the writer wrote. */
module TarRoundTrip {
  import opened Bytes
  import opened Numerals
  import opened Tar

  /** An absolute path that tar normalisation leaves alone. */
  predicate NormalPath(p: Bytes) {
    && |p| >= 2 && p[0] == 47 && p[1] != 47 && p[|p| - 1] != 47 && 0 !in p
    && !(p[1] == 46 && (|p| == 2 || p[2] == 47))
  }

  /** Entries the format can carry: sizes and times within their octal fields, no NUL in names. */
  predicate Storable(e: TarEntry) {
    && NormalPath(e.path)
    && |Body(e)| < Pow(8, 11) && |Overrides(e)| < Pow(8, 11) && FloorSeconds(e.mtimeMs) < Pow(8, 11)
    && 0 !in LinkName(e)
  }

  function ReadBackMtime(ms: int): int {
    if ms < 0 then 0 else FloorSeconds(ms) * 1000
  }

  /** A name of at most 100 bytes is read out of the header, and loses a leading mark. */
  function ReadName(e: TarEntry): Bytes {
    if |StoredName(e)| > 100 then StoredName(e) else SkipMark(StoredName(e))
  }

  function ReadPath(e: TarEntry): Bytes {
    NormalizeTarPath(ReadName(e))
  }

  function ReadLink(e: TarEntry): Bytes {
    if |LinkName(e)| > 100 then LinkName(e) else SkipMark(LinkName(e))
  }

  /** The entry the indexer reports for `e` when its data start at `data`, with this path and link. */
  function EntryOf(e: TarEntry, data: nat, path: Bytes, link: Bytes): LayerEntry {
    LayerEntry(path, e.kind, Int(|Body(e)|), data, Int(e.mode % 4096), Int(ReadBackMtime(e.mtimeMs)),
      match e.kind
      case SymlinkEntry => Some(link)
      case HardlinkEntry => Some(NormalizeTarPath(link))
      case FileEntry => None
      case DirEntry => None)
  }

  function ReadBack(e: TarEntry, data: nat): LayerEntry {
    EntryOf(e, data, ReadPath(e), ReadLink(e))
  }

  /** An entry with nothing left of its path is not reported. */
  predicate Reported(e: TarEntry) {
    ReadPath(e) != [47]
  }

  function Reports(e: TarEntry, data: nat): seq<LayerEntry> {
    if Reported(e) then [ReadBack(e, data)] else []
  }

  /** A name that is short enough for the header and starts with a mark. */
  predicate MarkedName(e: TarEntry) {
    |StoredName(e)| <= 100 && BOM <= StoredName(e)
  }

  /** Such a name, or such a link where a link is reported. */
  predicate LosesMark(e: TarEntry) {
    MarkedName(e)
    || ((e.kind.SymlinkEntry? || e.kind.HardlinkEntry?) && |LinkName(e)| <= 100 && BOM <= LinkName(e))
  }

  /** An entry comes back with its own path and link if and only if no header field drops a mark of it. */
  lemma FaithfulIff(e: TarEntry, data: nat)
    requires Storable(e)
    ensures Reports(e, data) == [EntryOf(e, data, e.path, LinkName(e))] <==> !LosesMark(e)
  {
    NormalizeStored(e);
    var name := StoredName(e);
    if |name| <= 100 && BOM <= name {
      NormalShort(SkipMark(name));
      NameLength(e);
      hide NormalizeTarPath, StoredName;
    } else {
      PathNotRoot(e);
      LinkFaithful(e, data);
      hide NormalizeTarPath, StoredName, LinkName, Body, ReadBackMtime;
    }
  }

  /** Without a marked name the path comes back. */
  lemma UnmarkedPath(e: TarEntry)
    requires NormalPath(e.path) && !MarkedName(e)
    ensures ReadPath(e) == e.path && Reported(e)
  {
    NormalizeStored(e);
    PathNotRoot(e);
    hide NormalizeTarPath, StoredName;
  }

  lemma NameLength(e: TarEntry)
    requires NormalPath(e.path)
    ensures |e.path| <= |StoredName(e)| + 1 && (!e.kind.DirEntry? ==> |e.path| == |StoredName(e)| + 1) && |StoredName(e)| <= |e.path|
  {
  }

  lemma NormalShort(name: Bytes)
    ensures |NormalizeTarPath(name)| <= |name| + 1
  {
    StripShortens(name);
    hide StripSlashes;
  }

  lemma LinkFaithful(e: TarEntry, data: nat)
    ensures EntryOf(e, data, e.path, ReadLink(e)) == EntryOf(e, data, e.path, LinkName(e)) <==>
      !((e.kind.SymlinkEntry? || e.kind.HardlinkEntry?) && |LinkName(e)| <= 100 && BOM <= LinkName(e))
  {
    var link := LinkName(e);
    if |link| <= 100 && BOM <= link {
      MarkKept(link);
      NormalShort(SkipMark(link));
      StripShortens(SkipMark(link));
    }
    hide NormalizeTarPath, LinkName, Body, ReadBackMtime;
  }

  /** Normalising a string that starts with a mark keeps the mark, and loses it with the mark. */
  lemma MarkKept(s: Bytes)
    requires BOM <= s
    ensures NormalizeTarPath(s) == [47] + BOM + StripSlashes(SkipMark(s)) && |NormalizeTarPath(SkipMark(s))| < |NormalizeTarPath(s)|
  {
    StripAfterMark(s);
    var t := StripSlashes(SkipMark(s));
    assert StripSlashes(s) == BOM + t;
    assert (BOM + t)[0] == 0xEF;
    hide StripSlashes;
    assert [47] + (BOM + t) == [47] + BOM + t;
  }

  lemma {:induction false} StripAfterMark(s: Bytes)
    requires BOM <= s
    ensures StripSlashes(s) == BOM + StripSlashes(s[3..])
    decreases |s|
  {
    if |s| == 3 {
      assert s == BOM && s[2] == 0xBF && s[3..] == [];
    } else {
      assert s[3..][|s| - 4] == s[|s| - 1];
      if s[|s| - 1] == 47 {
        var t := s[..|s| - 1];
        assert BOM <= t && t[3..] == s[3..][..|s| - 4];
        StripAfterMark(t);
      } else {
        assert s == BOM + s[3..];
      }
    }
  }

  function DataStart(e: TarEntry, at: nat): nat {
    at + |PaxBlocks(e)| + BLOCK
  }

  /** The whole index of a tar written from `es` with its first block at `at`. */
  function ReadBackAll(es: seq<TarEntry>, at: nat): seq<LayerEntry> {
    if es == [] then []
    else Reports(es[0], DataStart(es[0], at)) + ReadBackAll(es[1..], at + |EntryBlocks(es[0])|)
  }

  // --- header fields -----------------------------------------------------------------------

  lemma FieldReads(s: Bytes, n: nat)
    requires 0 !in s && |s| <= n
    ensures ReadString(Field(s, n)) == SkipMark(s)
  {
    CStringOf(s, Zeros(n - |s|));
    if |s| == n { assert s[..n] == s + Zeros(0); }
  }

  lemma FrontFields(name: Bytes, size: nat, mode: nat, mtimeMs: int)
    ensures var f := HeaderFront(name, size, mode, mtimeMs);
      && f[..100] == Field(name, 100) && f[100..108] == OctalField(mode % 4096, 8)
      && f[124..136] == OctalField(size, 12) && f[136..148] == OctalField(FloorSeconds(mtimeMs), 12)
  {
  }

  lemma BackFields(flag: byte, link: Bytes)
    ensures var b := HeaderBack(flag, link);
      && b[0] == flag && b[1..101] == Field(link, 100) && b[101..107] == USTAR + [0] && b[189..344] == Zeros(155)
  {
  }

  lemma HeaderParts(name: Bytes, size: nat, flag: byte, mode: nat, mtimeMs: int, link: Bytes)
    ensures var f, b := HeaderFront(name, size, mode, mtimeMs), HeaderBack(flag, link);
            Header(name, size, flag, mode, mtimeMs, link) == f + Checksum(f, b) + b
  {
    hide HeaderFront, HeaderBack, Checksum;
  }

  lemma HeaderFields(name: Bytes, size: nat, flag: byte, mode: nat, mtimeMs: int, link: Bytes)
    ensures var h := Header(name, size, flag, mode, mtimeMs, link);
      && h[..100] == Field(name, 100) && h[100..108] == OctalField(mode % 4096, 8)
      && h[124..136] == OctalField(size, 12) && h[136..148] == OctalField(FloorSeconds(mtimeMs), 12)
      && h[156] == flag && h[157..257] == Field(link, 100) && h[257..263] == USTAR + [0] && h[345..500] == Zeros(155)
  {
    FrontFields(name, size, mode, mtimeMs);
    BackFields(flag, link);
    var f, b := HeaderFront(name, size, mode, mtimeMs), HeaderBack(flag, link);
    var c := Checksum(f, b);
    var h := Header(name, size, flag, mode, mtimeMs, link);
    hide HeaderFront, HeaderBack, Checksum, Header;
    HeaderParts(name, size, flag, mode, mtimeMs, link);
    assert h[..148] == f && h[156..] == b;
    assert h[..100] == f[..100] && h[100..108] == f[100..108] && h[124..136] == f[124..136] && h[136..148] == f[136..148];
    assert h[157..257] == b[1..101] && h[257..263] == b[101..107] && h[345..500] == b[189..344];
  }

  /** Reading a written header: its numbers, its type flag, and names that fit their fields. */
  lemma HeaderReads(name: Bytes, size: nat, flag: byte, mode: nat, mtimeMs: int, link: Bytes)
    requires size < Pow(8, 11) && FloorSeconds(mtimeMs) < Pow(8, 11) && flag != 0
    ensures var h := Header(name, size, flag, mode, mtimeMs, link);
      && ReadNumber(h[124..136]) == Int(size) && ReadNumber(h[100..108]) == Int(mode % 4096)
      && Times(ReadNumber(h[136..148]), 1000) == Int(ReadBackMtime(mtimeMs))
      && FlagOf(h) == flag && !ZeroBlock(h)
      && USTAR <= ReadString(h[257..263]) && ReadString(h[345..500]) == []
      && (|name| <= 100 && 0 !in name ==> ReadString(h[..100]) == SkipMark(name))
      && (|link| <= 100 && 0 !in link ==> ReadString(h[157..257]) == SkipMark(link))
  {
    hide Header, HeaderFront, HeaderBack, OctalField, ReadNumber, ReadString, Field, Pow;
    HeaderFields(name, size, flag, mode, mtimeMs, link);
    OctalRoundTrip(size, 12);
    ModeFits(mode);
    if mtimeMs < 0 { OctalNegative(FloorSeconds(mtimeMs), 12); } else { OctalRoundTrip(FloorSeconds(mtimeMs), 12); }
    MagicReads();
    EmptyField();
    if |name| <= 100 && 0 !in name { FieldReads(name, 100); }
    if |link| <= 100 && 0 !in link { FieldReads(link, 100); }
  }

  lemma MagicReads()
    ensures ReadString(USTAR + [0]) == USTAR
  {
    CStringOf(USTAR, [0]);
    HeadNotBlank(USTAR);
  }

  lemma EmptyField()
    ensures ReadString(Zeros(155)) == []
  {
    CStringOf([], Zeros(155));
    assert [] + Zeros(155) == Zeros(155);
  }

  lemma ModeFits(mode: nat)
    ensures ReadNumber(OctalField(mode % 4096, 8)) == Int(mode % 4096)
  {
    assert Pow(8, 7) == 2097152;
    OctalRoundTrip(mode % 4096, 8);
  }

  // --- PAX records -----------------------------------------------------------------------------------

  lemma FindFirst(s: Bytes, b: byte, from: nat, k: nat)
    requires from <= k < |s| && s[k] == b && forall j :: from <= j < k ==> s[j] != b
    ensures IndexOf(s, b, from) == k
  {
  }

  lemma Subslice(s: Bytes, i: nat, n: nat, from: nat, to: nat)
    requires i + n <= |s| && from <= to <= n
    ensures s[i + from..i + to] == s[i..i + n][from..to]
  {
    var l, r := s[i + from..i + to], s[i..i + n][from..to];
    forall k | 0 <= k < to - from ensures l[k] == r[k] { assert l[k] == s[i + from + k] == s[i..i + n][from + k]; }
  }

  function RecordText(key: Bytes, value: Bytes): Bytes {
    key + [EQUALS] + value
  }

  /** The three parts of a record, and its total length. */
  lemma RecordParts(key: Bytes, value: Bytes)
    ensures var r, total := PaxRecord(key, value), |PaxRecord(key, value)|;
      var digits := Digits(total, 10);
      && |digits| + 1 <= total - 1
      && r[..|digits|] == digits && r[|digits|] == SPACE
      && r[|digits| + 1..total - 1] == RecordText(key, value)
  {
    var record := key + [EQUALS] + value + [NEWLINE];
    var total := PaxLength(|record|);
    var digits := Digits(total, 10);
    assert PaxRecord(key, value) == digits + [SPACE] + record;
    assert record[..|record| - 1] == RecordText(key, value);
  }

  lemma TextParts(key: Bytes, value: Bytes)
    requires EQUALS !in key
    ensures var text := RecordText(key, value); var eq := IndexOf(text, EQUALS, 0);
      eq == |key| && text[..eq] == key && text[eq + 1..] == value
  {
    var text := RecordText(key, value);
    forall j | 0 <= j < |key| ensures text[j] != EQUALS { assert text[j] == key[j]; }
    FindFirst(text, EQUALS, 0, |key|);
  }

  /** A key of ASCII text, so that no mark leads its record. */
  predicate PlainKey(key: Bytes) {
    EQUALS !in key && key != [] && 32 < key[0] < 0x80
  }

  /** One record at position `i` of a PAX body. */
  lemma PaxStep(content: Bytes, i: nat, key: Bytes, value: Bytes, out: PaxMap)
    requires PlainKey(key) && i + |PaxRecord(key, value)| <= |content|
    requires content[i..i + |PaxRecord(key, value)|] == PaxRecord(key, value)
    ensures ParsePaxFrom(content, i, out) == ParsePaxFrom(content, i + |PaxRecord(key, value)|, out[key := value])
  {
    hide PaxRecord, PaxRecordAt;
    RecordRead(content, i, key, value);
    assert out + map[key := value] == out[key := value];
  }

  lemma FindAfter(content: Bytes, i: nat, text: Bytes)
    requires i + |text| < |content| && content[i..i + |text|] == text && content[i + |text|] == SPACE && SPACE !in text
    ensures IndexOf(content, SPACE, i) == i + |text|
  {
    forall j | i <= j < i + |text| ensures content[j] != SPACE { assert content[j] == text[j - i]; }
    FindFirst(content, SPACE, i, i + |text|);
  }

  /** Where the parts of a record at `i` sit in the content. */
  lemma RecordSlices(content: Bytes, i: nat, key: Bytes, value: Bytes)
    requires i + |PaxRecord(key, value)| <= |content|
    requires content[i..i + |PaxRecord(key, value)|] == PaxRecord(key, value)
    ensures var total := |PaxRecord(key, value)|; var digits := Digits(total, 10); var space := i + |digits|;
      && space + 1 <= i + total - 1
      && content[i..space] == digits && content[space] == SPACE
      && content[space + 1..i + total - 1] == RecordText(key, value)
  {
    hide PaxRecord, RecordText, Digits;
    var r, total := PaxRecord(key, value), |PaxRecord(key, value)|;
    var digits := Digits(total, 10);
    RecordParts(key, value);
    Subslice(content, i, total, 0, |digits|);
    Subslice(content, i, total, |digits| + 1, total - 1);
    assert content[i..i + total][|digits|] == content[i + |digits|];
  }

  lemma RecordRead(content: Bytes, i: nat, key: Bytes, value: Bytes)
    requires PlainKey(key) && i + |PaxRecord(key, value)| <= |content|
    requires content[i..i + |PaxRecord(key, value)|] == PaxRecord(key, value)
    ensures i < |content| && PaxRecordAt(content, i) == RecordAt(|PaxRecord(key, value)|, map[key := value])
  {
    hide *;
    RecordSlices(content, i, key, value);
    var total := |PaxRecord(key, value)|;
    var digits := Digits(total, 10);
    NoSpaceInDigits(total);
    FindAfter(content, i, digits);
    ValueOfDigits(total, 10);
    ParseDigits(digits, 10);
    DigitsNotBlank(digits, 10);
    PaxAtIs(content, i, i + |digits|, total, key, value);
  }

  lemma PaxAtIs(content: Bytes, i: nat, space: nat, total: nat, key: Bytes, value: Bytes)
    requires IndexOf(content, SPACE, i) == space && i <= space && total > 0
    requires space + 1 <= i + total - 1 <= |content| && PlainKey(key)
    requires ParseInt(SkipMark(content[i..space]), 10) == Int(total) && content[space + 1..i + total - 1] == RecordText(key, value)
    ensures PaxRecordAt(content, i) == RecordAt(total, map[key := value])
  {
    hide IndexOf, ParseInt, RecordText, Sub, SkipMark, PlainKey;
    SubIs(content, space + 1, i + total - 1);
    KeyLeads(key, value);
    KeyNoEquals(key);
    TextParts(key, value);
  }

  lemma KeyNoEquals(key: Bytes)
    requires PlainKey(key)
    ensures EQUALS !in key
  {
  }

  lemma KeyLeads(key: Bytes, value: Bytes)
    requires PlainKey(key)
    ensures SkipMark(RecordText(key, value)) == RecordText(key, value)
  {
    assert RecordText(key, value)[0] == key[0];
    HeadNotBlank(RecordText(key, value));
  }

  lemma SubIs(s: Bytes, from: nat, to: nat)
    requires from <= to <= |s|
    ensures Sub(s, from, to) == s[from..to]
  {
  }

  lemma NoSpaceInDigits(n: nat)
    ensures SPACE !in Digits(n, 10) && Digits(n, 10) != [] && AllDigits(Digits(n, 10), 10)
  {
  }

  /** The overrides the indexer sees for `e`. */
  function PaxOf(e: TarEntry): PaxMap {
    var m := if |StoredName(e)| > 100 then map[PATH_KEY := StoredName(e)] else map[];
    if e.link.Some? && |e.link.value| > 100 then m[LINK_KEY := e.link.value] else m
  }

  lemma OverridesRead(e: TarEntry)
    ensures ParsePax(Overrides(e)) == PaxOf(e)
    ensures Overrides(e) == [] ==> PaxOf(e) == map[]
  {
    var name, link := StoredName(e), LinkName(e);
    var longName, longLink := |name| > 100, e.link.Some? && |link| > 100;
    hide PaxRecord, StoredName, LinkName, ParsePaxFrom;
    var r1 := if longName then PaxRecord(PATH_KEY, name) else [];
    var r2 := if longLink then PaxRecord(LINK_KEY, link) else [];
    var m1: PaxMap := if longName then map[PATH_KEY := name] else map[];
    LinkNameIs(e);
    assert Overrides(e) == r1 + r2;
    RecordNonEmpty(PATH_KEY, name);
    RecordNonEmpty(LINK_KEY, link);
    if longName {
      assert (r1 + r2)[0..|r1|] == r1;
      PaxStep(r1 + r2, 0, PATH_KEY, name, map[]);
    }
    if longLink {
      assert (r1 + r2)[|r1|..|r1| + |r2|] == r2;
      PaxStep(r1 + r2, |r1|, LINK_KEY, link, m1);
    }
    PaxEnd(r1 + r2, PaxOf(e));
  }

  lemma LinkNameIs(e: TarEntry)
    ensures e.link.Some? ==> LinkName(e) == e.link.value
  {
  }

  lemma PaxEnd(content: Bytes, out: PaxMap)
    ensures ParsePaxFrom(content, |content|, out) == out
  {
  }

  lemma RecordNonEmpty(key: Bytes, value: Bytes)
    ensures PaxRecord(key, value) != []
  {
  }

  // --- names ---------------------------------------------------------------------------------------------

  lemma NormalizeStored(e: TarEntry)
    requires NormalPath(e.path)
    ensures NormalizeTarPath(StoredName(e)) == e.path && 0 !in StoredName(e)
  {
    var name := e.path[1..];
    assert name[|name| - 1] == e.path[|e.path| - 1];
    assert StripSlashes(name) == name;
    if e.kind.DirEntry? {
      assert (name + [47])[..|name + [47]| - 1] == name;
      assert StripSlashes(name + [47]) == name;
    }
    assert [47] + name == e.path;
  }

  // --- one entry ------------------------------------------------------------------------------------------

  lemma BlockStep(bytes: Bytes, at: nat, h: Bytes, size: nat, s: Scan)
    requires |h| == BLOCK && at + BLOCK <= |bytes| && bytes[at..at + BLOCK] == h
    requires !ZeroBlock(h) && ReadNumber(h[124..136]) == Int(size)
    ensures IndexFrom(bytes, at, s) == IndexFrom(bytes, at + BLOCK + Pad512(size), Step(bytes, h, at, s))
  {
    hide Step, ZeroBlock, ReadNumber;
  }

  /** `part` occurs in `bytes` at `at`. */
  predicate At(bytes: Bytes, at: nat, part: Bytes) {
    at + |part| <= |bytes| && bytes[at..at + |part|] == part
  }

  lemma AtSplit(bytes: Bytes, at: nat, a: Bytes, b: Bytes)
    requires At(bytes, at, a + b)
    ensures At(bytes, at, a) && At(bytes, at + |a|, b)
  {
    Subslice(bytes, at, |a + b|, 0, |a|);
    Subslice(bytes, at, |a + b|, |a|, |a + b|);
  }

  lemma AtPadded(bytes: Bytes, at: nat, part: Bytes)
    requires At(bytes, at, Padded(part))
    ensures At(bytes, at, part) && DataAt(bytes, at, Int(|part|)) == part
  {
    AtSplit(bytes, at, part, Zeros(Pad512(|part|) - |part|));
  }

  /** Between entries the indexer carries no overrides. */
  predicate Clean(s: Scan) {
    s.pax.None? && s.longName.None? && s.longLink.None? && s.global == map[]
  }

  lemma StorableMeans(e: TarEntry)
    requires Storable(e)
    ensures |Overrides(e)| < Pow(8, 11) && FloorSeconds(e.mtimeMs) < Pow(8, 11)
  {
    hide Overrides, Pow;
  }

  lemma PaxScan(bytes: Bytes, at: nat, e: TarEntry, s: Scan)
    requires Storable(e) && Overrides(e) != [] && Clean(s) && At(bytes, at, PaxBlocks(e))
    ensures IndexFrom(bytes, at, s) == IndexFrom(bytes, at + |PaxBlocks(e)|, s.(pax := Some(PaxOf(e))))
  {
    hide Header, Overrides, Padded, ReadNumber, FlagOf, ZeroBlock, ReadString, ParsePax, IndexFrom, Pow, PaxOf, EntryAt, Storable, StoredName;
    StorableMeans(e);
    var pax := Overrides(e);
    var h := Header(PAX_NAME, |pax|, 120, 420, e.mtimeMs, []);
    HeaderReads(PAX_NAME, |pax|, 120, 420, e.mtimeMs, []);
    AtSplit(bytes, at, h, Padded(pax));
    AtPadded(bytes, at + BLOCK, pax);
    BlockStep(bytes, at, h, |pax|, s);
    OverridesRead(e);
    assert s.global + PaxOf(e) == PaxOf(e);
  }

  lemma PlainName(e: TarEntry, h: Bytes, s: Scan, data: nat)
    requires Storable(e) && s.longName.None? && s.longLink.None? && s.global == map[]
    requires if Overrides(e) == [] then s.pax.None? else s.pax == Some(PaxOf(e))
    requires h == Header(StoredName(e), |Body(e)|, TypeFlag(e.kind), e.mode, e.mtimeMs, LinkName(e))
    ensures EntryAt(h, data, s) == Reports(e, data)
  {
    hide Header, Overrides, ReadNumber, ReadString, Pow, StoredName, NormalizeTarPath, Body, ReadBackMtime, Times, PaxOf, LinkName, FlagOf, ReadName, ReadLink;
    HeaderReads(StoredName(e), |Body(e)|, TypeFlag(e.kind), e.mode, e.mtimeMs, LinkName(e));
    NormalizeStored(e);
    NamesFromPax(e, s, ReadString(h[..100]), ReadString(h[157..257]));
    BodyEmpty(e);
  }

  /** Long names come from the overrides, short ones from the header. */
  lemma NamesFromPax(e: TarEntry, s: Scan, rawName: Bytes, linkname: Bytes)
    requires s.global == map[] && if Overrides(e) == [] then s.pax.None? else s.pax == Some(PaxOf(e))
    requires |StoredName(e)| <= 100 ==> rawName == SkipMark(StoredName(e))
    requires |LinkName(e)| <= 100 ==> linkname == SkipMark(LinkName(e))
    ensures var pax := if s.pax.Some? then s.pax.value else s.global;
      Lookup(pax, PATH_KEY, rawName) == ReadName(e) && Lookup(pax, LINK_KEY, linkname) == ReadLink(e) && SIZE_KEY !in pax
  {
    hide Overrides, StoredName, SkipMark;
    OverridesRead(e);
  }

  lemma PathNotRoot(e: TarEntry)
    requires NormalPath(e.path)
    ensures e.path != [47]
  {
  }

  lemma BodyEmpty(e: TarEntry)
    ensures !e.kind.FileEntry? ==> Body(e) == []
  {
  }

  lemma PlainScan(bytes: Bytes, at: nat, e: TarEntry, s: Scan)
    requires Storable(e) && s.longName.None? && s.longLink.None? && s.global == map[]
    requires if Overrides(e) == [] then s.pax.None? else s.pax == Some(PaxOf(e))
    requires var h := Header(StoredName(e), |Body(e)|, TypeFlag(e.kind), e.mode, e.mtimeMs, LinkName(e));
             At(bytes, at, h + Padded(Body(e)))
    ensures IndexFrom(bytes, at, s)
         == IndexFrom(bytes, at + BLOCK + |Padded(Body(e))|,
              s.(entries := s.entries + Reports(e, at + BLOCK), pax := None, longName := None, longLink := None))
    ensures At(bytes, at + BLOCK, Body(e))
  {
    hide Header, Overrides, ReadNumber, ZeroBlock, CString, Pow, StoredName, Body, EntryAt, Reports, IndexFrom, FlagOf, Padded;
    var h := Header(StoredName(e), |Body(e)|, TypeFlag(e.kind), e.mode, e.mtimeMs, LinkName(e));
    HeaderReads(StoredName(e), |Body(e)|, TypeFlag(e.kind), e.mode, e.mtimeMs, LinkName(e));
    AtSplit(bytes, at, h, Padded(Body(e)));
    AtPadded(bytes, at + BLOCK, Body(e));
    BlockStep(bytes, at, h, |Body(e)|, s);
    PlainName(e, h, s, at + BLOCK);
  }

  lemma EntryScan(bytes: Bytes, at: nat, e: TarEntry, s: Scan)
    requires Storable(e) && Clean(s) && At(bytes, at, EntryBlocks(e))
    ensures var s' := s.(entries := s.entries + Reports(e, DataStart(e, at)));
            Clean(s') && IndexFrom(bytes, at, s) == IndexFrom(bytes, at + |EntryBlocks(e)|, s')
    ensures At(bytes, DataStart(e, at), Body(e))
  {
    hide Header, Overrides, PaxBlocks, Padded, IndexFrom, Reports, Storable;
    var h := Header(StoredName(e), |Body(e)|, TypeFlag(e.kind), e.mode, e.mtimeMs, LinkName(e));
    assert EntryBlocks(e) == PaxBlocks(e) + (h + Padded(Body(e)));
    AtSplit(bytes, at, PaxBlocks(e), h + Padded(Body(e)));
    NoPax(e);
    if Overrides(e) == [] {
      PlainScan(bytes, at, e, s);
    } else {
      PaxScan(bytes, at, e, s);
      PlainScan(bytes, at + |PaxBlocks(e)|, e, s.(pax := Some(PaxOf(e))));
    }
  }

  lemma NoPax(e: TarEntry)
    ensures Overrides(e) == [] ==> PaxBlocks(e) == []
  {
  }

  // --- the whole tar ------------------------------------------------------------------------------------------

  predicate AllStorable(es: seq<TarEntry>) {
    forall i :: 0 <= i < |es| ==> Storable(es[i])
  }

  lemma EndScan(bytes: Bytes, at: nat, s: Scan)
    requires At(bytes, at, Zeros(1024))
    ensures IndexFrom(bytes, at, s) == Indexed(s.entries)
  {
    hide Step, ReadNumber;
    var h := bytes[at..at + BLOCK];
    forall i | 0 <= i < |h| ensures h[i] == 0 { assert h[i] == bytes[at..at + |Zeros(1024)|][i] == 0; }
    assert ZeroBlock(h);
  }

  lemma ReadBackStep(es: seq<TarEntry>, at: nat)
    requires es != []
    ensures ReadBackAll(es, at) == Reports(es[0], DataStart(es[0], at)) + ReadBackAll(es[1..], at + |EntryBlocks(es[0])|)
    ensures WriteTar(es) == EntryBlocks(es[0]) + WriteTar(es[1..])
  {
    hide EntryBlocks, Reports, DataStart;
  }

  lemma ReadBackNone(at: nat)
    ensures ReadBackAll([], at) == [] && WriteTar([]) == Zeros(1024)
  {
  }

  lemma {:induction false} ScanAll(bytes: Bytes, at: nat, es: seq<TarEntry>, s: Scan)
    requires AllStorable(es) && Clean(s) && At(bytes, at, WriteTar(es))
    ensures IndexFrom(bytes, at, s) == Indexed(s.entries + ReadBackAll(es, at))
    decreases |es|
  {
    hide IndexFrom, EntryBlocks, Reports, DataStart, ReadBackAll, WriteTar, At, Storable, Body;
    if es == [] {
      ReadBackNone(at);
      EndScan(bytes, at, s);
      assert s.entries + [] == s.entries;
    } else {
      ReadBackStep(es, at);
      AtSplit(bytes, at, EntryBlocks(es[0]), WriteTar(es[1..]));
      EntryScan(bytes, at, es[0], s);
      var one := Reports(es[0], DataStart(es[0], at));
      var rest := ReadBackAll(es[1..], at + |EntryBlocks(es[0])|);
      ScanAll(bytes, at + |EntryBlocks(es[0])|, es[1..], s.(entries := s.entries + one));
      assert s.entries + one + rest == s.entries + (one + rest);
    }
  }

  /** Indexing a written tar reports its entries in order, each as its header and overrides carry it. */
  lemma IndexOfWritten(es: seq<TarEntry>)
    requires AllStorable(es)
    ensures IndexTar(WriteTar(es)) == Indexed(ReadBackAll(es, 0))
  {
    hide IndexFrom, WriteTar, ReadBackAll;
    assert WriteTar(es)[0..|WriteTar(es)|] == WriteTar(es);
    ScanAll(WriteTar(es), 0, es, START);
    assert [] + ReadBackAll(es, 0) == ReadBackAll(es, 0);
  }

  predicate AllReported(es: seq<TarEntry>) {
    forall i :: 0 <= i < |es| ==> Reported(es[i])
  }

  lemma {:induction false} ReadBackCount(es: seq<TarEntry>, at: nat)
    requires AllReported(es)
    ensures |ReadBackAll(es, at)| == |es|
    decreases |es|
  {
    hide EntryBlocks, ReadBack, DataStart, ReadBackAll, WriteTar, Reported;
    if es == [] {
      ReadBackNone(at);
    } else {
      ReadBackStep(es, at);
      assert Reported(es[0]);
      ReadBackCount(es[1..], at + |EntryBlocks(es[0])|);
    }
  }

  /** The paths that are reported are those of the reported entries. */
  lemma {:induction false} ReadBackPaths(es: seq<TarEntry>, at: nat)
    ensures forall x :: x in ReadBackAll(es, at) ==> exists i :: 0 <= i < |es| && Reported(es[i]) && x.path == ReadPath(es[i])
    ensures forall i :: 0 <= i < |es| && Reported(es[i]) ==> exists x :: x in ReadBackAll(es, at) && x.path == ReadPath(es[i])
    decreases |es|
  {
    hide EntryBlocks, DataStart, ReadBackAll, WriteTar, ReadPath, ReadLink;
    if es == [] {
      ReadBackNone(at);
    } else {
      ReadBackStep(es, at);
      var next := at + |EntryBlocks(es[0])|;
      var one, rest := Reports(es[0], DataStart(es[0], at)), ReadBackAll(es[1..], next);
      ReadBackPaths(es[1..], next);
      forall x: LayerEntry | x in one + rest ensures exists i :: 0 <= i < |es| && Reported(es[i]) && x.path == ReadPath(es[i]) {
        if x in rest {
          var i :| 0 <= i < |es[1..]| && Reported(es[1..][i]) && x.path == ReadPath(es[1..][i]);
          assert es[i + 1] == es[1..][i];
        } else {
          assert Reported(es[0]) && x.path == ReadPath(es[0]);
        }
      }
      forall i | 0 <= i < |es| && Reported(es[i]) ensures exists x: LayerEntry :: x in one + rest && x.path == ReadPath(es[i]) {
        if i == 0 {
          assert one[0] in one + rest;
        } else {
          assert es[i] == es[1..][i - 1];
          var x :| x in rest && x.path == ReadPath(es[1..][i - 1]);
          assert x in one + rest;
        }
      }
    }
  }

  /** Whatever is reported is one of the entries, at its own bytes. */
  lemma {:induction false} ReportsKnown(bytes: Bytes, at: nat, es: seq<TarEntry>)
    requires AllStorable(es) && At(bytes, at, WriteTar(es))
    ensures forall x :: x in ReadBackAll(es, at) ==> exists e :: e in es && Reported(e) && x == ReadBack(e, x.offset) && At(bytes, x.offset, Body(e))
    decreases |es|
  {
    hide EntryBlocks, ReadBack, DataStart, ReadBackAll, WriteTar, At, Storable, Body, IndexFrom, Reported;
    if es == [] {
      ReadBackNone(at);
    } else {
      ReadBackStep(es, at);
      AtSplit(bytes, at, EntryBlocks(es[0]), WriteTar(es[1..]));
      EntryScan(bytes, at, es[0], START);
      ReadBackOffset(es[0], DataStart(es[0], at));
      ReportsKnown(bytes, at + |EntryBlocks(es[0])|, es[1..]);
      var one, rest := Reports(es[0], DataStart(es[0], at)), ReadBackAll(es[1..], at + |EntryBlocks(es[0])|);
      forall x: LayerEntry | x in one + rest ensures exists e :: e in es && Reported(e) && x == ReadBack(e, x.offset) && At(bytes, x.offset, Body(e)) {
        if x in rest {
          var e :| e in es[1..] && Reported(e) && x == ReadBack(e, x.offset) && At(bytes, x.offset, Body(e));
          assert e in es;
        } else {
          assert es[0] in es;
        }
      }
    }
  }

  /** Every reported offset points at the entry's own bytes. */
  lemma {:induction false} ContentsOfWritten(bytes: Bytes, at: nat, es: seq<TarEntry>, i: nat)
    requires AllStorable(es) && AllReported(es) && At(bytes, at, WriteTar(es)) && i < |es|
    ensures |ReadBackAll(es, at)| == |es|
    ensures var e := ReadBackAll(es, at)[i];
      e == ReadBack(es[i], e.offset) && At(bytes, e.offset, Body(es[i]))
    decreases |es|
  {
    hide EntryBlocks, ReadBack, DataStart, ReadBackAll, WriteTar, At, Storable, Body, IndexFrom, Reported;
    ReadBackCount(es, at);
    ReadBackStep(es, at);
    assert Reported(es[0]);
    AtSplit(bytes, at, EntryBlocks(es[0]), WriteTar(es[1..]));
    if i == 0 {
      EntryScan(bytes, at, es[0], START);
      ReadBackOffset(es[0], DataStart(es[0], at));
    } else {
      ContentsOfWritten(bytes, at + |EntryBlocks(es[0])|, es[1..], i - 1);
    }
  }

  lemma ReadBackOffset(e: TarEntry, data: nat)
    ensures ReadBack(e, data).offset == data
  {
  }

  /** The normal paths are exactly those the indexer reports unchanged. */
  lemma NormalPathsSurvive(p: Bytes)
    requires |p| >= 2 && p[0] == 47 && 0 !in p
    ensures NormalizeTarPath(p[1..]) == p <==> NormalPath(p)
  {
    var name := p[1..];
    StripShortens(name);
    if p[|p| - 1] != 47 {
      assert name[|name| - 1] == p[|p| - 1];
      assert StripSlashes(name) == name;
      assert [47] + name == p;
    }
  }

  lemma {:induction false} StripShortens(p: Bytes)
    ensures |StripSlashes(p)| <= |p| && (p != [] && p[|p| - 1] == 47 ==> |StripSlashes(p)| < |p|)
  {
    if p != [] && p[|p| - 1] == 47 { StripShortens(p[..|p| - 1]); }
  }

  /** A header's checksum field holds the sum of its bytes with that field blank. */
  lemma ChecksumReads(name: Bytes, size: nat, flag: byte, mode: nat, mtimeMs: int, link: Bytes)
    ensures var h := Header(name, size, flag, mode, mtimeMs, link);
      ReadNumber(h[148..156]) == Int(Sum(h[..148] + BLANKS + h[156..]))
  {
    var f, b := HeaderFront(name, size, mode, mtimeMs), HeaderBack(flag, link);
    var h := Header(name, size, flag, mode, mtimeMs, link);
    HeaderParts(name, size, flag, mode, mtimeMs, link);
    hide Header, HeaderFront, HeaderBack, ReadNumber, Checksum, Sum;
    assert h[..148] == f && h[148..156] == Checksum(f, b) && h[156..] == b;
    ChecksumField(f, b);
  }

  lemma ChecksumField(f: Bytes, b: Bytes)
    requires |f + BLANKS + b| == BLOCK
    ensures ReadNumber(Checksum(f, b)) == Int(Sum(f + BLANKS + b))
  {
    var sum := Sum(f + BLANKS + b);
    SumBound(f + BLANKS + b);
    hide Sum;
    assert Pow(8, 6) == 262144;
    OctalRoundTrip(sum, 7);
    DigitCount(sum, 8, 6);
    var s := PadStart(Digits(sum, 8), 6);
    hide Digits, PadStart;
    assert OctalField(sum, 7) == s + [0];
    assert Checksum(f, b) == s + [0, 32];
    PaddedDigits(sum, 6);
    TrailingBlank(s);
  }

  lemma PaddedDigits(n: nat, k: nat)
    ensures AllDigits(PadStart(Digits(n, 8), k), 8)
  {
  }

  /** A space after the terminating NUL is not read. */
  lemma TrailingBlank(s: Bytes)
    requires AllDigits(s, 8) && s != []
    ensures ReadNumber(s + [0, 32]) == ReadNumber(s + [0])
  {
    assert 0 !in s;
    CStringOf(s, [0]);
    var f := s + [0, 32];
    FindFirst(f, 0, 0, |s|);
    assert f[..|s|] == s;
  }

  /** The sum of a block fits the six digits of its checksum field. */
  lemma {:induction false} SumBound(s: Bytes)
    ensures Sum(s) <= 255 * |s|
  {
    if s != [] { SumBound(s[..|s| - 1]); }
  }
}
