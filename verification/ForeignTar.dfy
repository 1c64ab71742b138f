/** Layer archives of other writers: what the indexer makes of prefixes, long names and links, and PAX records in any order. */
module ForeignTar {
  import opened Bytes
  import opened Numerals
  import opened Tar
  import opened TarRoundTrip

  // --- number fields -------------------------------------------------------------------------------

  /** Octal text, or base 256 under a set top bit. */
  datatype Number = Octal(value: nat) | Binary(value: nat)

  function BigEndian(n: nat, k: nat): (b: Bytes)
    ensures |b| == k
  {
    if k == 0 then [] else BigEndian(n / 256, k - 1) + [n % 256]
  }

  function NumberField(n: Number, k: nat): (f: Bytes)
    requires k > 0
    ensures |f| == k
  {
    match n
    case Octal(v) => OctalField(v, k)
    case Binary(v) => var b := BigEndian(v, k); [128 + b[0] % 128] + b[1..]
  }

  predicate InRange(n: Number, k: nat)
    requires k > 0
  {
    n.value < match n
      case Octal(_) => Pow(8, k - 1)
      case Binary(_) => 128 * Pow(256, k - 1)
  }

  lemma {:induction false} Base256Below(f: Bytes)
    requires f != []
    ensures Base256(f) < 128 * Pow(256, |f| - 1)
  {
    if |f| > 1 {
      Base256Below(f[..|f| - 1]);
      assert Pow(256, |f| - 1) == 256 * Pow(256, |f| - 2);
    }
  }

  lemma {:induction false} BinaryReads(n: nat, k: nat)
    requires k > 0 && n < 128 * Pow(256, k - 1)
    ensures Base256(NumberField(Binary(n), k)) == n
  {
    var b := BigEndian(n, k);
    if k == 1 {
      assert Pow(256, 0) == 1 && b == [] + [n % 256];
    } else {
      var c := BigEndian(n / 256, k - 1);
      assert Pow(256, k - 1) == 256 * Pow(256, k - 2);
      BinaryReads(n / 256, k - 1);
      assert b == c + [n % 256] && b[0] == c[0];
      var f := NumberField(Binary(n), k);
      assert f[..k - 1] == NumberField(Binary(n / 256), k - 1);
    }
  }

  /** A field holds a number exactly when the number is in its range, whichever way it is written. */
  lemma NumberReads(n: Number, k: nat)
    requires k > 1
    ensures ReadNumber(NumberField(n, k)) == Int(n.value) <==> InRange(n, k)
  {
    match n
    case Octal(v) => OctalRoundTrip(v, k);
    case Binary(v) =>
      var f := NumberField(n, k);
      Base256Below(f);
      if v < 128 * Pow(256, k - 1) { BinaryReads(v, k); }
      hide Pow, Base256, BigEndian;
  }

  // --- headers -------------------------------------------------------------------------------------

  /** A header block; `owner`, `sum`, `ids` and `tail` are fields that nothing reads. */
  datatype Head = Head(
    name: Bytes, mode: Number, owner: Bytes, binarySize: bool, mtime: Number, sum: Bytes,
    link: Bytes, magic: Bytes, ids: Bytes, prefix: Bytes, tail: Bytes)

  function SizeOf(h: Head, size: nat): Number {
    if h.binarySize then Binary(size) else Octal(size)
  }

  predicate FormedHead(h: Head, size: nat) {
    && |h.name| <= 100 && 0 !in h.name && |h.link| <= 100 && 0 !in h.link && |h.prefix| <= 155 && 0 !in h.prefix
    && InRange(h.mode, 8) && InRange(h.mtime, 12) && InRange(SizeOf(h, size), 12)
    && |h.owner| == 16 && |h.sum| == 8 && |h.magic| == 6 && |h.ids| == 82 && |h.tail| == 12
  }

  function Front(h: Head, size: nat): (f: Bytes)
    requires FormedHead(h, size)
    ensures |f| == 156
  {
    Field(h.name, 100) + NumberField(h.mode, 8) + h.owner + NumberField(SizeOf(h, size), 12) + NumberField(h.mtime, 12) + h.sum
  }

  function Back(h: Head, flag: byte, size: nat): (b: Bytes)
    requires FormedHead(h, size)
    ensures |b| == 356
  {
    [flag] + Field(h.link, 100) + h.magic + h.ids + Field(h.prefix, 155) + h.tail
  }

  function HeadBlock(h: Head, flag: byte, size: nat): (b: Bytes)
    requires FormedHead(h, size)
    ensures |b| == BLOCK
  {
    Front(h, size) + Back(h, flag, size)
  }

  lemma FrontParts(h: Head, size: nat)
    requires FormedHead(h, size)
    ensures var f := Front(h, size);
      && f[..100] == Field(h.name, 100) && f[100..108] == NumberField(h.mode, 8)
      && f[124..136] == NumberField(SizeOf(h, size), 12) && f[136..148] == NumberField(h.mtime, 12)
  {
    hide NumberField, Field, InRange;
  }

  lemma BackParts(h: Head, flag: byte, size: nat)
    requires FormedHead(h, size)
    ensures var b := Back(h, flag, size);
      b[0] == flag && b[1..101] == Field(h.link, 100) && b[101..107] == h.magic && b[189..344] == Field(h.prefix, 155)
  {
    hide Field, InRange;
  }

  lemma BlockParts(h: Head, flag: byte, size: nat)
    requires FormedHead(h, size)
    ensures var b := HeadBlock(h, flag, size);
      && b[..100] == Field(h.name, 100) && b[100..108] == NumberField(h.mode, 8)
      && b[124..136] == NumberField(SizeOf(h, size), 12) && b[136..148] == NumberField(h.mtime, 12)
      && b[156] == flag && b[157..257] == Field(h.link, 100) && b[257..263] == h.magic && b[345..500] == Field(h.prefix, 155)
  {
    FrontParts(h, size);
    BackParts(h, flag, size);
    var f, k, b := Front(h, size), Back(h, flag, size), HeadBlock(h, flag, size);
    hide Front, Back, FormedHead, NumberField, Field;
    assert b[..156] == f && b[156..] == k;
    assert b[..100] == f[..100] && b[100..108] == f[100..108] && b[124..136] == f[124..136] && b[136..148] == f[136..148];
    assert b[157..257] == k[1..101] && b[257..263] == k[101..107] && b[345..500] == k[189..344];
  }

  /** Text up to a NUL, whatever follows. */
  lemma TextReads(text: Bytes, rest: Bytes)
    requires 0 !in text && (rest == [] || rest[0] == 0)
    ensures ReadString(text + rest) == SkipMark(text)
  {
    var f := text + rest;
    forall j | 0 <= j < |text| ensures f[j] != 0 { assert f[j] == text[j]; }
    if rest == [] {
      assert f == text;
    } else {
      FindFirst(f, 0, 0, |text|);
      assert f[..|text|] == text;
    }
  }

  /** The magic field starts with "ustar" exactly when its text does. */
  lemma MagicIs(magic: Bytes)
    requires |magic| == 6
    ensures USTAR <= ReadString(magic) <==> USTAR <= magic
  {
    var text := CString(magic);
    if USTAR <= magic {
      forall j | 0 <= j < 5 ensures magic[j] != 0 { assert magic[j] == USTAR[j]; }
      assert |text| >= 5 && text[..5] == magic[..5] == USTAR;
      HeadNotBlank(text);
    }
    if BOM <= text { assert |SkipMark(text)| <= 3; }
  }

  lemma SizeNotZero(n: Number)
    ensures exists i :: 0 <= i < 12 && NumberField(n, 12)[i] != 0
  {
    match n
    case Binary(v) => assert NumberField(n, 12)[0] >= 128;
    case Octal(v) =>
      var s := PadStart(Digits(v, 8), 11);
      assert NumberField(n, 12)[0] == s[0];
      if |Digits(v, 8)| >= 11 { assert IsDigit(Digits(v, 8)[0], 8); }
  }

  lemma HeadNotZero(h: Head, flag: byte, size: nat)
    requires FormedHead(h, size)
    ensures !ZeroBlock(HeadBlock(h, flag, size))
  {
    BlockParts(h, flag, size);
    SizeNotZero(SizeOf(h, size));
    var b := HeadBlock(h, flag, size);
    hide HeadBlock, NumberField, Field, FormedHead;
    var i :| 0 <= i < 12 && NumberField(SizeOf(h, size), 12)[i] != 0;
    assert b[124..136][i] == b[124 + i];
  }

  /** What a header says. */
  lemma HeadReads(h: Head, flag: byte, size: nat)
    requires FormedHead(h, size)
    ensures var b := HeadBlock(h, flag, size);
      && |b| == 512
      && ReadNumber(b[100..108]) == Int(h.mode.value) && ReadNumber(b[124..136]) == Int(size) && ReadNumber(b[136..148]) == Int(h.mtime.value)
      && FlagOf(b) == (if flag == 0 then 48 else flag)
      && ReadString(b[..100]) == SkipMark(h.name) && ReadString(b[157..257]) == SkipMark(h.link) && ReadString(b[345..500]) == SkipMark(h.prefix)
      && (USTAR <= ReadString(b[257..263]) <==> USTAR <= h.magic)
  {
    BlockParts(h, flag, size);
    hide HeadBlock, NumberField, Field, ReadNumber, ReadString, InRange;
    NumberReads(h.mode, 8);
    NumberReads(SizeOf(h, size), 12);
    NumberReads(h.mtime, 12);
    FieldReads(h.name, 100);
    FieldReads(h.link, 100);
    FieldReads(h.prefix, 155);
    MagicIs(h.magic);
  }

  // --- attachments -----------------------------------------------------------------------------------

  datatype Record = Record(key: Bytes, value: Bytes)

  /** PAX records for all later entries, or for the next one; the next entry's name or link, `rest` being what follows the text. */
  datatype Note =
    | Shared(records: seq<Record>)
    | Own(records: seq<Record>)
    | LongName(text: Bytes, rest: Bytes)
    | LongLink(text: Bytes, rest: Bytes)

  datatype Attachment = Attachment(head: Head, note: Note)

  function RecordBytes(rs: seq<Record>): Bytes {
    if rs == [] then [] else RecordBytes(rs[..|rs| - 1]) + PaxRecord(rs[|rs| - 1].key, rs[|rs| - 1].value)
  }

  /** Of two records with one key the later counts. */
  function Meaning(rs: seq<Record>): PaxMap {
    if rs == [] then map[] else Meaning(rs[..|rs| - 1])[rs[|rs| - 1].key := rs[|rs| - 1].value]
  }

  function NoteBytes(n: Note): Bytes {
    if n.Shared? || n.Own? then RecordBytes(n.records) else n.text + n.rest
  }

  function NoteFlag(n: Note): byte {
    match n
    case Shared(_) => 103
    case Own(_) => 120
    case LongName(_, _) => 76
    case LongLink(_, _) => 75
  }

  predicate FormedNote(n: Note) {
    if n.Shared? || n.Own? then forall r :: r in n.records ==> PlainKey(r.key)
    else 0 !in n.text && (n.rest == [] || n.rest[0] == 0)
  }

  predicate FormedAttachment(a: Attachment) {
    FormedNote(a.note) && FormedHead(a.head, |NoteBytes(a.note)|)
  }

  predicate AllFormed(attached: seq<Attachment>) {
    forall i :: 0 <= i < |attached| ==> FormedAttachment(attached[i])
  }

  function NoteBlocks(a: Attachment): Bytes
    requires FormedAttachment(a)
  {
    HeadBlock(a.head, NoteFlag(a.note), |NoteBytes(a.note)|) + Padded(NoteBytes(a.note))
  }

  function Attachments(attached: seq<Attachment>): Bytes
    requires AllFormed(attached)
  {
    if attached == [] then [] else Attachments(attached[..|attached| - 1]) + NoteBlocks(attached[|attached| - 1])
  }

  // --- what they mean for the next entry ----------------------------------------------------------------

  /** The shared records after these attachments. */
  function SharedAfter(before: PaxMap, attached: seq<Attachment>): PaxMap {
    if attached == [] then before
    else
      var rest, last := attached[..|attached| - 1], attached[|attached| - 1].note;
      SharedAfter(before, rest) + if last.Shared? then Meaning(last.records) else map[]
  }

  /** The last list of its own records, over the records shared by then. */
  function OwnAfter(before: PaxMap, attached: seq<Attachment>): Option<PaxMap> {
    if attached == [] then None
    else
      var rest, last := attached[..|attached| - 1], attached[|attached| - 1].note;
      if last.Own? then Some(SharedAfter(before, rest) + Meaning(last.records)) else OwnAfter(before, rest)
  }

  function LastLongName(attached: seq<Attachment>): Option<Bytes> {
    if attached == [] then None
    else if attached[|attached| - 1].note.LongName? then Some(SkipMark(attached[|attached| - 1].note.text))
    else LastLongName(attached[..|attached| - 1])
  }

  function LastLongLink(attached: seq<Attachment>): Option<Bytes> {
    if attached == [] then None
    else if attached[|attached| - 1].note.LongLink? then Some(SkipMark(attached[|attached| - 1].note.text))
    else LastLongLink(attached[..|attached| - 1])
  }

  /** An entry with what is attached to it; its flag is none of the attachments' own. */
  datatype Member = Member(attached: seq<Attachment>, head: Head, flag: byte, data: Bytes)

  predicate FormedMember(m: Member) {
    AllFormed(m.attached) && FormedHead(m.head, |m.data|) && m.flag !in {103, 120, 76, 75}
  }

  /** Its own records if it has any, else the shared ones. */
  function InForce(before: PaxMap, m: Member): PaxMap {
    match OwnAfter(before, m.attached)
    case Some(pax) => pax
    case None => SharedAfter(before, m.attached)
  }

  /** The header's name, behind its prefix in an archive of the ustar kind. */
  function HeadName(h: Head): Bytes {
    var name, prefix := SkipMark(h.name), SkipMark(h.prefix);
    if USTAR <= h.magic && prefix != [] then prefix + [47] + name else name
  }

  /** A record in force comes before a long name, a long name before the header. */
  function NameOf(before: PaxMap, m: Member): Bytes {
    var pax := InForce(before, m);
    if PATH_KEY in pax then pax[PATH_KEY]
    else match LastLongName(m.attached)
      case Some(name) => name
      case None => HeadName(m.head)
  }

  function LinkOf(before: PaxMap, m: Member): Bytes {
    var pax := InForce(before, m);
    if LINK_KEY in pax then pax[LINK_KEY]
    else match LastLongLink(m.attached)
      case Some(link) => link
      case None => SkipMark(m.head.link)
  }

  function SizeReported(before: PaxMap, m: Member): Num {
    var pax := InForce(before, m);
    if SIZE_KEY in pax then ParseInt(pax[SIZE_KEY], 10) else Int(|m.data|)
  }

  /** Files, contiguous files, links and directories; devices and pipes have no place in a pod. */
  function KindOf(flag: byte): Option<EntryType> {
    if flag in {0, 48, 55} then Some(FileEntry)
    else if flag == 49 then Some(HardlinkEntry)
    else if flag == 50 then Some(SymlinkEntry)
    else if flag == 53 then Some(DirEntry)
    else None
  }

  /** What is reported for a member whose data start at `data`. */
  function Described(before: PaxMap, m: Member, data: nat): seq<LayerEntry> {
    var path, kind := NormalizeTarPath(NameOf(before, m)), KindOf(m.flag);
    if kind.None? || path == [47] then []
    else
      [LayerEntry(path, kind.value, if kind.value.FileEntry? then SizeReported(before, m) else Int(0), data,
        Int(m.head.mode.value), Int(m.head.mtime.value * 1000),
        match kind.value
        case SymlinkEntry => Some(LinkOf(before, m))
        case HardlinkEntry => Some(NormalizeTarPath(LinkOf(before, m)))
        case FileEntry => None
        case DirEntry => None)]
  }

  function MemberBlocks(m: Member): Bytes
    requires FormedMember(m)
  {
    Attachments(m.attached) + (HeadBlock(m.head, m.flag, |m.data|) + Padded(m.data))
  }

  predicate FormedMembers(ms: seq<Member>) {
    forall i :: 0 <= i < |ms| ==> FormedMember(ms[i])
  }

  function Members(ms: seq<Member>): Bytes
    requires FormedMembers(ms)
  {
    if ms == [] then [] else MemberBlocks(ms[0]) + Members(ms[1..])
  }

  /** The report of an archive whose first block is at `at`: long names and own records serve one entry, shared records all that follow. */
  function Listing(before: PaxMap, ms: seq<Member>, at: nat): seq<LayerEntry>
    requires FormedMembers(ms)
    decreases |ms|
  {
    if ms == [] then []
    else
      Described(before, ms[0], at + |Attachments(ms[0].attached)| + BLOCK)
      + Listing(SharedAfter(before, ms[0].attached), ms[1..], at + |MemberBlocks(ms[0])|)
  }

  /** Less than a block, or a zero block and anything behind it. */
  predicate Ends(end: Bytes) {
    |end| < BLOCK || ZeroBlock(end[..BLOCK])
  }

  function Archive(ms: seq<Member>, loose: seq<Attachment>, end: Bytes): Bytes
    requires FormedMembers(ms) && AllFormed(loose)
  {
    Members(ms) + (Attachments(loose) + end)
  }

  // --- names -------------------------------------------------------------------------------------------

  function Slashes(n: nat): Bytes {
    seq(n, i => 47)
  }

  lemma {:induction false} SlashesStripped(p: Bytes, n: nat)
    requires p == [] || p[|p| - 1] != 47
    ensures StripSlashes(p + Slashes(n)) == p
  {
    var s := p + Slashes(n);
    if n > 0 {
      assert s[..|s| - 1] == p + Slashes(n - 1);
      SlashesStripped(p, n - 1);
    } else {
      assert s == p;
    }
  }

  /** A relative name of at least one component, not spelled with a leading "./". */
  predicate Relative(r: Bytes) {
    r != [] && r[0] != 47 && r[|r| - 1] != 47 && r != [46] && !([46, 47] <= r)
  }

  /** With or without a leading slash or "./", and however many slashes behind it, a name is the same absolute path. */
  lemma SamePath(r: Bytes, n: nat)
    requires Relative(r)
    ensures NormalizeTarPath(r + Slashes(n)) == NormalizeTarPath([47] + r + Slashes(n)) == NormalizeTarPath([46, 47] + r + Slashes(n)) == [47] + r
  {
    SlashesStripped(r, n);
    SlashesStripped([47] + r, n);
    SlashesStripped([46, 47] + r, n);
    assert ([46, 47] + r)[2..] == r;
    hide StripSlashes;
  }

  /** Names of the archive's root, which is not reported. */
  lemma RootNames(n: nat)
    ensures NormalizeTarPath(Slashes(n)) == NormalizeTarPath([46] + Slashes(n)) == [47]
  {
    SlashesStripped([], n);
    SlashesStripped([46], n);
    assert [] + Slashes(n) == Slashes(n);
    hide StripSlashes;
  }

  // --- reading them ------------------------------------------------------------------------------------

  lemma {:induction false} RecordsRead(content: Bytes, rs: seq<Record>)
    requires (forall r :: r in rs ==> PlainKey(r.key)) && RecordBytes(rs) <= content
    ensures ParsePaxFrom(content, 0, map[]) == ParsePaxFrom(content, |RecordBytes(rs)|, Meaning(rs))
  {
    hide PaxRecord, ParsePaxFrom, PlainKey;
    if rs != [] {
      var n := |rs| - 1;
      var k, r := |RecordBytes(rs[..n])|, PaxRecord(rs[n].key, rs[n].value);
      assert RecordBytes(rs)[..k] == RecordBytes(rs[..n]) && RecordBytes(rs)[k..] == r;
      assert RecordBytes(rs[..n]) <= content;
      RecordsRead(content, rs[..n]);
      assert content[k..k + |r|] == RecordBytes(rs)[k..];
      PaxStep(content, k, rs[n].key, rs[n].value, Meaning(rs[..n]));
    }
  }

  lemma RecordsMean(rs: seq<Record>)
    requires forall r :: r in rs ==> PlainKey(r.key)
    ensures ParsePax(RecordBytes(rs)) == Meaning(rs)
  {
    hide PlainKey;
    RecordsRead(RecordBytes(rs), rs);
    PaxEnd(RecordBytes(rs), Meaning(rs));
    hide ParsePaxFrom, Meaning, RecordBytes;
  }

  /** The scan after attachments: the reports so far and what the attachments mean. */
  function Carrying(entries: seq<LayerEntry>, before: PaxMap, attached: seq<Attachment>): Scan {
    Scan(entries, OwnAfter(before, attached), LastLongName(attached), LastLongLink(attached), SharedAfter(before, attached))
  }

  /** A block of PAX records. */
  lemma RecordStep(bytes: Bytes, at: nat, s: Scan, n: Note, h: Bytes)
    requires (n.Shared? || n.Own?) && FormedNote(n) && |h| == BLOCK && FlagOf(h) == NoteFlag(n)
    requires DataAt(bytes, at + BLOCK, ReadNumber(h[124..136])) == NoteBytes(n)
    ensures Step(bytes, h, at, s) ==
      if n.Own? then s.(pax := Some(s.global + Meaning(n.records))) else s.(global := s.global + Meaning(n.records))
  {
    RecordsMean(n.records);
    hide EntryAt, ReadNumber, FlagOf, ReadString, ParsePax, Meaning, PlainKey, DataAt, RecordBytes;
  }

  /** A long name or link. */
  lemma LongStep(bytes: Bytes, at: nat, s: Scan, n: Note, h: Bytes)
    requires (n.LongName? || n.LongLink?) && FormedNote(n) && |h| == BLOCK && FlagOf(h) == NoteFlag(n)
    requires DataAt(bytes, at + BLOCK, ReadNumber(h[124..136])) == NoteBytes(n)
    ensures Step(bytes, h, at, s) == if n.LongName? then s.(longName := Some(SkipMark(n.text))) else s.(longLink := Some(SkipMark(n.text)))
  {
    TextReads(n.text, n.rest);
    hide EntryAt, ReadNumber, FlagOf, ReadString, ParsePax, DataAt, SkipMark;
  }

  lemma NoteCarried(entries: seq<LayerEntry>, before: PaxMap, attached: seq<Attachment>)
    requires attached != []
    ensures var s, n := Carrying(entries, before, attached[..|attached| - 1]), attached[|attached| - 1].note;
      Carrying(entries, before, attached) == match n
        case Shared(rs) => s.(global := s.global + Meaning(rs))
        case Own(rs) => s.(pax := Some(s.global + Meaning(rs)))
        case LongName(text, _) => s.(longName := Some(SkipMark(text)))
        case LongLink(text, _) => s.(longLink := Some(SkipMark(text)))
  {
    hide Meaning, SkipMark;
    var below := SharedAfter(before, attached[..|attached| - 1]);
    assert below + map[] == below;
  }

  lemma NoteStep(bytes: Bytes, at: nat, entries: seq<LayerEntry>, before: PaxMap, attached: seq<Attachment>, h: Bytes)
    requires attached != [] && FormedNote(attached[|attached| - 1].note) && |h| == BLOCK
    requires var n := attached[|attached| - 1].note;
      && FlagOf(h) == NoteFlag(n) && ReadNumber(h[124..136]) == Int(|NoteBytes(n)|)
      && DataAt(bytes, at + BLOCK, Int(|NoteBytes(n)|)) == NoteBytes(n)
    ensures Step(bytes, h, at, Carrying(entries, before, attached[..|attached| - 1])) == Carrying(entries, before, attached)
  {
    hide *;
    var s, n := Carrying(entries, before, attached[..|attached| - 1]), attached[|attached| - 1].note;
    NoteCarried(entries, before, attached);
    if n.Shared? || n.Own? { RecordStep(bytes, at, s, n, h); } else { LongStep(bytes, at, s, n, h); }
  }

  lemma AttachmentSplit(attached: seq<Attachment>)
    requires attached != [] && AllFormed(attached)
    ensures AllFormed(attached[..|attached| - 1]) && FormedAttachment(attached[|attached| - 1])
    ensures Attachments(attached) == Attachments(attached[..|attached| - 1]) + NoteBlocks(attached[|attached| - 1])
    ensures var n := attached[|attached| - 1].note;
      NoteBlocks(attached[|attached| - 1]) == HeadBlock(attached[|attached| - 1].head, NoteFlag(n), |NoteBytes(n)|) + Padded(NoteBytes(n))
  {
    hide FormedAttachment, HeadBlock, Padded;
  }

  lemma {:induction false} AttachmentsScan(bytes: Bytes, at: nat, entries: seq<LayerEntry>, before: PaxMap, attached: seq<Attachment>)
    requires AllFormed(attached) && At(bytes, at, Attachments(attached))
    ensures IndexFrom(bytes, at, Scan(entries, None, None, None, before)) == IndexFrom(bytes, at + |Attachments(attached)|, Carrying(entries, before, attached))
    decreases |attached|
  {
    hide *;
    if attached == [] {
      NothingAttached(entries, before);
    } else {
      var rest, a := attached[..|attached| - 1], attached[|attached| - 1];
      AttachmentSplit(attached);
      AtSplit(bytes, at, Attachments(rest), NoteBlocks(a));
      AttachmentsScan(bytes, at, entries, before, rest);
      OneAttachment(bytes, at + |Attachments(rest)|, entries, before, attached);
    }
  }

  lemma NothingAttached(entries: seq<LayerEntry>, before: PaxMap)
    ensures Carrying(entries, before, []) == Scan(entries, None, None, None, before) && Attachments([]) == []
  {
  }

  lemma OneAttachment(bytes: Bytes, at: nat, entries: seq<LayerEntry>, before: PaxMap, attached: seq<Attachment>)
    requires attached != [] && AllFormed(attached) && FormedAttachment(attached[|attached| - 1]) && At(bytes, at, NoteBlocks(attached[|attached| - 1]))
    ensures IndexFrom(bytes, at, Carrying(entries, before, attached[..|attached| - 1]))
         == IndexFrom(bytes, at + |NoteBlocks(attached[|attached| - 1])|, Carrying(entries, before, attached))
  {
    hide *;
    AttachmentSplit(attached);
    FormedParts(attached[|attached| - 1]);
    var a := attached[|attached| - 1];
    var data := NoteBytes(a.note);
    var h := HeadBlock(a.head, NoteFlag(a.note), |data|);
    AtSplit(bytes, at, h, Padded(data));
    AtPadded(bytes, at + BLOCK, data);
    HeadReads(a.head, NoteFlag(a.note), |data|);
    HeadNotZero(a.head, NoteFlag(a.note), |data|);
    AtBlock(bytes, at, h);
    BlockStep(bytes, at, h, |data|, Carrying(entries, before, attached[..|attached| - 1]));
    FlagsPlain(a.note);
    NoteStep(bytes, at, entries, before, attached, h);
  }

  lemma FormedParts(a: Attachment)
    requires FormedAttachment(a)
    ensures FormedNote(a.note) && FormedHead(a.head, |NoteBytes(a.note)|)
  {
  }

  lemma FlagsPlain(n: Note)
    ensures NoteFlag(n) != 0
  {
  }

  lemma AtBlock(bytes: Bytes, at: nat, h: Bytes)
    requires |h| == BLOCK && At(bytes, at, h)
    ensures at + BLOCK <= |bytes| && bytes[at..at + BLOCK] == h
  {
  }

  /** The names of an entry, as a header and the scan so far give them. */
  lemma NamesRead(entries: seq<LayerEntry>, before: PaxMap, m: Member, rawName: Bytes, link: Bytes, prefix: Bytes)
    requires rawName == SkipMark(m.head.name) && link == SkipMark(m.head.link)
    requires prefix == if USTAR <= m.head.magic then SkipMark(m.head.prefix) else []
    ensures var s := Carrying(entries, before, m.attached); var pax := if s.pax.Some? then s.pax.value else s.global;
      && pax == InForce(before, m)
      && Lookup(pax, PATH_KEY, GetOr(s.longName, if prefix != [] then prefix + [47] + rawName else rawName)) == NameOf(before, m)
      && Lookup(pax, LINK_KEY, GetOr(s.longLink, link)) == LinkOf(before, m)
  {
    hide SkipMark, OwnAfter, SharedAfter, LastLongName, LastLongLink;
  }

  /** A header read under its attachments reports its member. */
  lemma MemberEntry(entries: seq<LayerEntry>, before: PaxMap, m: Member, h: Bytes, data: nat)
    requires FormedMember(m) && FormedHead(m.head, |m.data|) && h == HeadBlock(m.head, m.flag, |m.data|)
    ensures EntryAt(h, data, Carrying(entries, before, m.attached)) == Described(before, m, data)
  {
    hide *;
    HeadReads(m.head, m.flag, |m.data|);
    var magic := ReadString(h[257..263]);
    var prefix := if USTAR <= magic then ReadString(h[345..500]) else [];
    NamesRead(entries, before, m, ReadString(h[..100]), ReadString(h[157..257]), prefix);
    EntryIs(before, m, h, data, Carrying(entries, before, m.attached));
  }

  lemma EntryIs(before: PaxMap, m: Member, h: Bytes, data: nat, s: Scan)
    requires |h| == BLOCK && FlagOf(h) == (if m.flag == 0 then 48 else m.flag)
    requires ReadNumber(h[100..108]) == Int(m.head.mode.value) && ReadNumber(h[124..136]) == Int(|m.data|) && ReadNumber(h[136..148]) == Int(m.head.mtime.value)
    requires var prefix := if USTAR <= ReadString(h[257..263]) then ReadString(h[345..500]) else [];
      var pax := if s.pax.Some? then s.pax.value else s.global;
      && pax == InForce(before, m)
      && Lookup(pax, PATH_KEY, GetOr(s.longName, if prefix != [] then prefix + [47] + ReadString(h[..100]) else ReadString(h[..100]))) == NameOf(before, m)
      && Lookup(pax, LINK_KEY, GetOr(s.longLink, ReadString(h[157..257]))) == LinkOf(before, m)
    ensures EntryAt(h, data, s) == Described(before, m, data)
  {
    hide ReadNumber, ReadString, NormalizeTarPath, ParseInt, FlagOf, Lookup, GetOr, NameOf, LinkOf, InForce;
  }

  lemma MemberStep(bytes: Bytes, at: nat, entries: seq<LayerEntry>, before: PaxMap, m: Member, h: Bytes)
    requires FormedMember(m) && FormedHead(m.head, |m.data|) && h == HeadBlock(m.head, m.flag, |m.data|)
    ensures Step(bytes, h, at, Carrying(entries, before, m.attached))
      == Scan(entries + Described(before, m, at + BLOCK), None, None, None, SharedAfter(before, m.attached))
  {
    hide *;
    HeadReads(m.head, m.flag, |m.data|);
    MemberEntry(entries, before, m, h, at + BLOCK);
    FlagIsPlain(m);
    PlainStep(bytes, h, at, Carrying(entries, before, m.attached));
    CarryingEntries(entries, before, m.attached);
  }

  lemma FlagIsPlain(m: Member)
    requires FormedMember(m)
    ensures (if m.flag == 0 then 48 else m.flag) !in {103, 120, 76, 75}
  {
    hide FormedHead, AllFormed;
  }

  lemma PlainStep(bytes: Bytes, h: Bytes, at: nat, s: Scan)
    requires |h| == BLOCK && FlagOf(h) !in {103, 120, 76, 75}
    ensures Step(bytes, h, at, s) == Scan(s.entries + EntryAt(h, at + BLOCK, s), None, None, None, s.global)
  {
    hide EntryAt, FlagOf, ReadNumber, ParsePax, ReadString;
  }

  lemma MemberScan(bytes: Bytes, at: nat, entries: seq<LayerEntry>, before: PaxMap, m: Member)
    requires FormedMember(m) && At(bytes, at, MemberBlocks(m))
    ensures FormedMember(m) && AllFormed(m.attached)
    ensures IndexFrom(bytes, at, Scan(entries, None, None, None, before))
      == IndexFrom(bytes, at + |MemberBlocks(m)|,
           Scan(entries + Described(before, m, at + |Attachments(m.attached)| + BLOCK), None, None, None, SharedAfter(before, m.attached)))
  {
    hide *;
    MemberParts(m);
    var h := HeadBlock(m.head, m.flag, |m.data|);
    var k := at + |Attachments(m.attached)|;
    AtSplit(bytes, at, Attachments(m.attached), h + Padded(m.data));
    AtSplit(bytes, k, h, Padded(m.data));
    AttachmentsScan(bytes, at, entries, before, m.attached);
    HeadReads(m.head, m.flag, |m.data|);
    HeadNotZero(m.head, m.flag, |m.data|);
    AtBlock(bytes, k, h);
    BlockStep(bytes, k, h, |m.data|, Carrying(entries, before, m.attached));
    MemberStep(bytes, k, entries, before, m, h);
  }

  lemma MemberParts(m: Member)
    requires FormedMember(m)
    ensures AllFormed(m.attached) && FormedHead(m.head, |m.data|)
    ensures MemberBlocks(m) == Attachments(m.attached) + (HeadBlock(m.head, m.flag, |m.data|) + Padded(m.data))
  {
  }

  lemma {:induction false} MembersScan(bytes: Bytes, at: nat, entries: seq<LayerEntry>, before: PaxMap, ms: seq<Member>, loose: seq<Attachment>, end: Bytes)
    requires FormedMembers(ms) && AllFormed(loose) && Ends(end)
    requires At(bytes, at, Archive(ms, loose, end)) && at + |Archive(ms, loose, end)| == |bytes|
    ensures IndexFrom(bytes, at, Scan(entries, None, None, None, before)) == Indexed(entries + Listing(before, ms, at))
    decreases |ms|
  {
    hide *;
    if ms == [] {
      NoMembers(before, at, loose, end);
      AtSplit(bytes, at, Attachments(loose), end);
      AttachmentsScan(bytes, at, entries, before, loose);
      ArchiveEnds(bytes, at + |Attachments(loose)|, Carrying(entries, before, loose), end);
      CarryingEntries(entries, before, loose);
      assert entries + [] == entries;
    } else {
      FirstMember(before, ms, at, loose, end);
      AtSplit(bytes, at, MemberBlocks(ms[0]), Archive(ms[1..], loose, end));
      MemberScan(bytes, at, entries, before, ms[0]);
      var one := Described(before, ms[0], at + |Attachments(ms[0].attached)| + BLOCK);
      MembersScan(bytes, at + |MemberBlocks(ms[0])|, entries + one, SharedAfter(before, ms[0].attached), ms[1..], loose, end);
      var rest := Listing(SharedAfter(before, ms[0].attached), ms[1..], at + |MemberBlocks(ms[0])|);
      assert entries + one + rest == entries + (one + rest);
    }
  }

  lemma NoMembers(before: PaxMap, at: nat, loose: seq<Attachment>, end: Bytes)
    requires AllFormed(loose)
    ensures FormedMembers([]) && Listing(before, [], at) == [] && Archive([], loose, end) == Attachments(loose) + end
  {
    assert [] + (Attachments(loose) + end) == Attachments(loose) + end;
  }

  lemma FirstMember(before: PaxMap, ms: seq<Member>, at: nat, loose: seq<Attachment>, end: Bytes)
    requires ms != [] && FormedMembers(ms) && AllFormed(loose)
    ensures FormedMember(ms[0]) && AllFormed(ms[0].attached) && FormedMembers(ms[1..])
    ensures Archive(ms, loose, end) == MemberBlocks(ms[0]) + Archive(ms[1..], loose, end)
    ensures Listing(before, ms, at) == Described(before, ms[0], at + |Attachments(ms[0].attached)| + BLOCK)
      + Listing(SharedAfter(before, ms[0].attached), ms[1..], at + |MemberBlocks(ms[0])|)
  {
    hide MemberBlocks, Described, SharedAfter, Attachments;
    var tail := Attachments(loose) + end;
    assert MemberBlocks(ms[0]) + Members(ms[1..]) + tail == MemberBlocks(ms[0]) + (Members(ms[1..]) + tail);
  }

  lemma CarryingEntries(entries: seq<LayerEntry>, before: PaxMap, attached: seq<Attachment>)
    ensures Carrying(entries, before, attached).entries == entries && Carrying(entries, before, attached).global == SharedAfter(before, attached)
  {
  }

  lemma ArchiveEnds(bytes: Bytes, at: nat, s: Scan, end: Bytes)
    requires Ends(end) && At(bytes, at, end) && at + |end| == |bytes|
    ensures IndexFrom(bytes, at, s) == Indexed(s.entries)
  {
    hide Step, ReadNumber, ZeroBlock;
    if |end| >= BLOCK { Subslice(bytes, at, |end|, 0, BLOCK); }
  }

  /** Indexing any such archive reports exactly its members, each under the name, link and size that are in force for it. */
  lemma IndexOfForeign(ms: seq<Member>, loose: seq<Attachment>, end: Bytes)
    requires FormedMembers(ms) && AllFormed(loose) && Ends(end)
    ensures IndexTar(Archive(ms, loose, end)) == Indexed(Listing(map[], ms, 0))
  {
    hide *;
    var bytes := Archive(ms, loose, end);
    WholeTar(bytes);
    MembersScan(bytes, 0, [], map[], ms, loose, end);
    assert [] + Listing(map[], ms, 0) == Listing(map[], ms, 0);
  }

  lemma WholeTar(bytes: Bytes)
    ensures At(bytes, 0, bytes) && IndexTar(bytes) == IndexFrom(bytes, 0, Scan([], None, None, None, map[]))
  {
    hide IndexFrom;
    assert bytes[0..|bytes|] == bytes;
  }
}
