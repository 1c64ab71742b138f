/** A chunk of input does what its units do one by one, outside reverse search. */
module Chunking {
  import opened Bytes
  import opened Screen
  import opened Terminal

  // --- a character at a time -----------------------------------------------------------------------

  /** One input unit: it extends the pending escape, or is a key of its own. */
  function Unit(h: Host, r: Received, c: Code): Received
    requires Valid(r.session)
  {
    var p := r.partialEscape;
    if p == [] then Alone(h, r.session, c)
    else if p == [ESC] then
      if c == BRACKET then r.(partialEscape := [ESC, BRACKET]) else Alone(h, Press(h, r.session, [ESC]), c)
    else if IsFinal(c) then Received(Press(h, r.session, p + [c]), [])
    else r.(partialEscape := p + [c])
  }

  function Press(h: Host, s: Session, key: Text): (s': Session)
    requires key != [] && Valid(s)
    ensures Valid(s')
  {
    KeyKeepsValid(h, s, key);
    Key(h, s, key).session
  }

  function Alone(h: Host, s: Session, c: Code): Received
    requires Valid(s)
  {
    if c == ESC then Received(s, [ESC])
    else Received(Press(h, s, [if c == LF then CR else c]), [])
  }

  function Units(h: Host, r: Received, t: Text): (r': Received)
    requires Valid(r.session)
    ensures Valid(r'.session)
  {
    if t == [] then r else Unit(h, Units(h, r, t[..|t| - 1]), t[|t| - 1])
  }

  lemma {:induction false} UnitsConcat(h: Host, r: Received, a: Text, b: Text)
    requires Valid(r.session)
    ensures Units(h, r, a + b) == Units(h, Units(h, r, a), b)
    decreases |b|
  {
    hide Unit;
    if b == [] {
      assert a + b == a;
    } else {
      assert (a + b)[..|a + b| - 1] == a + b[..|b| - 1];
      UnitsConcat(h, r, a, b[..|b| - 1]);
    }
  }

  lemma UnitsStep(h: Host, r: Received, c: Code, t: Text)
    requires Valid(r.session)
    ensures Valid(Unit(h, r, c).session) && Units(h, r, [c] + t) == Units(h, Unit(h, r, c), t)
  {
    hide Unit;
    UnitsConcat(h, r, [c], t);
    assert [c][..0] == [];
    assert Units(h, r, [c][..0]) == r;
  }

  // --- outside reverse search -------------------------------------------------------------------------

  predicate Plain(s: Session) {
    Valid(s) && s.search.None?
  }

  lemma PressPlain(h: Host, s: Session, key: Text)
    requires key != [] && key != [CTRL_R] && Plain(s)
    ensures Plain(Press(h, s, key))
  {
    KeyKeepsValid(h, s, key);
    hide Trim, CommonPrefix, Sequence;
  }

  /** A second Enter on the empty line changes nothing. */
  lemma EnterTwice(h: Host, s: Session)
    requires Plain(s)
    ensures Press(h, Press(h, s, [CR]), [CR]) == Press(h, s, [CR])
  {
    hide Trim;
    TrimEmpty();
  }

  lemma TrimEmpty()
    ensures Trim([]) == []
  {
  }

  /** A run of printable units inserted at once, or one by one. */
  lemma {:induction false} RunByUnits(h: Host, s: Session, run: Text)
    requires Plain(s) && run != [] && AllPrintable(run)
    ensures Units(h, Received(s, []), run) == Received(Press(h, s, run), [])
    decreases |run|
  {
    var n := |run| - 1;
    assert run == run[..n] + [run[n]];
    if n == 0 {
      assert run[..n] == [] && run == [run[0]];
    } else {
      RunByUnits(h, s, run[..n]);
      PressRun(h, s, run[..n], run[n]);
    }
  }

  lemma PressRun(h: Host, s: Session, run: Text, c: Code)
    requires Plain(s) && run != [] && AllPrintable(run) && Printable(c)
    ensures Press(h, Press(h, s, run), [c]) == Press(h, s, run + [c])
  {
    PrintableInserts(h, s, run);
    PrintableInserts(h, s, run + [c]);
    var t := Press(h, s, run);
    PrintableInserts(h, t, [c]);
    if !s.exited {
      assert t.buffer[..t.cursor] == s.buffer[..s.cursor] + run && t.buffer[t.cursor..] == s.buffer[s.cursor..];
    }
    hide Press;
  }

  lemma PrintableInserts(h: Host, s: Session, run: Text)
    requires Plain(s) && run != [] && AllPrintable(run)
    ensures Press(h, s, run) == if s.exited then s else s.(buffer := s.buffer[..s.cursor] + run + s.buffer[s.cursor..], cursor := s.cursor + |run|)
    ensures Plain(Press(h, s, run))
  {
    assert run[0] >= 32 && run[0] != DEL;
    hide Sequence;
  }

  // --- keys and units --------------------------------------------------------------------------------------

  /** What a chunk boundary may hold back: nothing, or an escape that has no final byte yet. */
  predicate Pending(p: Text) {
    p == [] || p == [ESC] || (OpensCsi(p) && forall i :: 2 <= i < |p| ==> !IsFinal(p[i]))
  }

  lemma {:induction false} PendingUnits(h: Host, s: Session, p: Text)
    requires Valid(s) && Pending(p)
    ensures Units(h, Received(s, []), p) == Received(s, p)
    decreases |p|
  {
    if p != [] {
      var n := |p| - 1;
      assert p == p[..n] + [p[n]];
      if n > 1 { assert OpensCsi(p[..n]); } else if n == 1 { assert p[..n] == [ESC]; }
      PendingUnits(h, s, p[..n]);
    }
  }

  lemma {:induction false} FirstFed(h: Host, s: Session, keys: seq<Text>)
    requires Valid(s) && keys != [] && forall i :: 0 <= i < |keys| ==> keys[i] != []
    ensures FeedKeys(h, s, keys).session == FeedKeys(h, Press(h, s, keys[0]), keys[1..]).session
    decreases |keys|
  {
    hide Key;
    var n := |keys| - 1;
    if n == 0 {
      assert keys[..n] == [] && keys[1..] == [];
    } else {
      FirstFed(h, s, keys[..n]);
      assert keys[..n][1..] == keys[1..][..n - 1] && keys[1..][n - 1] == keys[n];
    }
  }

  /** A chunk is its first key, then the rest of the chunk. */
  lemma ChunkStep(h: Host, s: Session, t: Text)
    requires Valid(s) && t != []
    ensures var (key, n) := FirstKey(t);
      && key != []
      && if n == |t| && IsIncompleteEscape(key) then Chunk(h, s, [], t) == Received(s, key)
         else Chunk(h, s, [], t) == Chunk(h, Press(h, s, key), [], t[n..])
  {
    hide *;
    KeysStep(t);
    var (key, n) := FirstKey(t);
    var rest := t[n..];
    KeysNonEmpty(t);
    KeysNonEmpty(rest);
    ChunkOf(h, s, t);
    ChunkOf(h, Press(h, s, key), rest);
    RestEmpty(t);
    FedFirst(h, s, Keys(t));
  }

  lemma KeysStep(t: Text)
    requires t != []
    ensures FirstKey(t).0 != [] && Keys(t) == [FirstKey(t).0] + Keys(t[FirstKey(t).1..])
  {
  }

  lemma RestEmpty(t: Text)
    requires t != []
    ensures FirstKey(t).1 == |t| <==> Keys(t[FirstKey(t).1..]) == []
  {
    hide FirstKey;
  }

  /** A chunk with nothing held back before it. */
  lemma ChunkOf(h: Host, s: Session, t: Text)
    requires Valid(s) && forall i :: 0 <= i < |Keys(t)| ==> Keys(t)[i] != []
    ensures var keys := Keys(t);
      Chunk(h, s, [], t) == if |keys| > 0 && IsIncompleteEscape(keys[|keys| - 1])
        then Received(FeedKeys(h, s, keys[..|keys| - 1]).session, keys[|keys| - 1]) else Received(FeedKeys(h, s, keys).session, [])
  {
    assert [] + t == t;
    hide FirstKey, Keys, IsIncompleteEscape, FeedKeys;
  }

  /** Keys fed are the first, then the others; whether or not the last is dropped. */
  lemma FedFirst(h: Host, s: Session, keys: seq<Text>)
    requires Valid(s) && keys != [] && forall i :: 0 <= i < |keys| ==> keys[i] != []
    ensures FeedKeys(h, s, keys).session == FeedKeys(h, Press(h, s, keys[0]), keys[1..]).session
    ensures |keys| == 1 ==> FeedKeys(h, s, keys[..0]).session == s
    ensures |keys| > 1 ==> keys[1..][|keys| - 2] == keys[|keys| - 1]
    ensures |keys| > 1 ==> FeedKeys(h, s, keys[..|keys| - 1]).session == FeedKeys(h, Press(h, s, keys[0]), keys[1..][..|keys| - 2]).session
  {
    hide Key, Press;
    FirstFed(h, s, keys);
    if |keys| > 1 {
      FirstFed(h, s, keys[..|keys| - 1]);
      assert keys[..|keys| - 1][1..] == keys[1..][..|keys| - 2];
    }
  }

  lemma CsiByUnits(h: Host, s: Session, key: Text)
    requires Valid(s) && OpensCsi(key) && |key| > 2 && IsFinal(key[|key| - 1]) && forall i :: 2 <= i < |key| - 1 ==> !IsFinal(key[i])
    ensures Units(h, Received(s, []), key) == Received(Press(h, s, key), [])
  {
    var n := |key| - 1;
    assert OpensCsi(key[..n]);
    PendingUnits(h, s, key[..n]);
    assert key[..n] + [key[n]] == key;
  }

  /** The units of the first key do what the key does. */
  lemma FirstKeyUnits(h: Host, s: Session, t: Text)
    requires Plain(s) && t != [] && t[0] != ESC
    ensures var (key, n) := FirstKey(t); key != [] && Units(h, Received(s, []), t[..n]) == Received(Press(h, s, key), [])
  {
    var (key, n) := FirstKey(t);
    if t[0] == CR || t[0] == LF {
      UnitsStep(h, Received(s, []), t[0], t[1..n]);
      assert t[..n] == [t[0]] + t[1..n];
      if n == 2 {
        assert t[1..n] == [LF] + [];
        UnitsStep(h, Received(Press(h, s, [CR]), []), LF, []);
        EnterTwice(h, s);
      }
    } else if !Printable(t[0]) {
      assert t[..1] == [t[0]] + [];
      UnitsStep(h, Received(s, []), t[0], []);
    } else {
      RunByUnits(h, s, t[..n]);
    }
    hide Press;
  }

  lemma EscapeUnits(h: Host, s: Session, t: Text)
    requires Plain(s) && t != [] && t[0] == ESC && !(FirstKey(t).1 == |t| && IsIncompleteEscape(FirstKey(t).0))
    ensures var (key, n) := FirstKey(t); key != [] && Units(h, Received(s, []), t) == Units(h, Received(Press(h, s, key), []), t[n..])
  {
    hide Press, Units, Valid;
    var (key, n) := FirstKey(t);
    assert t == t[..n] + t[n..];
    if OpensCsi(t) {
      CsiByUnits(h, s, key);
      UnitsConcat(h, Received(s, []), t[..n], t[n..]);
    } else {
      assert key == [ESC] && n == 1 && |t| > 1 && t[1] != BRACKET;
      var rest := t[2..];
      assert t == [ESC] + ([t[1]] + rest) && t[1..] == [t[1]] + rest;
      UnitsStep(h, Received(s, []), ESC, [t[1]] + rest);
      UnitsStep(h, Received(s, [ESC]), t[1], rest);
      UnitsStep(h, Received(Press(h, s, [ESC]), []), t[1], rest);
    }
  }

  ghost predicate Waiting(r: Received) {
    Plain(r.session) && Pending(r.partialEscape) && CTRL_R !in r.partialEscape
  }

  lemma WaitingIs(s: Session, p: Text)
    requires Plain(s) && Pending(p) && CTRL_R !in p
    ensures Waiting(Received(s, p)) && Valid(s)
  {
  }

  lemma EmptyChunk(h: Host, s: Session)
    requires Plain(s)
    ensures Valid(s) && Chunk(h, s, [], []) == Received(s, []) == Units(h, Received(s, []), []) && Pending([])
  {
    var none: Text := [];
    assert [] + none == none;
    assert Keys(none) == [];
  }

  /** A chunk does what its units do, and holds back an escape without final byte. */
  lemma {:induction false} ChunkIsUnits(h: Host, s: Session, t: Text)
    requires Plain(s) && CTRL_R !in t
    ensures Valid(s) && Chunk(h, s, [], t) == Units(h, Received(s, []), t) && Waiting(Chunk(h, s, [], t))
    decreases |t|
  {
    hide *;
    EmptyChunk(h, s);
    if t == [] {
      WaitingIs(s, []);
    } else {
      var (key, n) := FirstKey(t);
      ChunkStep(h, s, t);
      FirstKeyChars(t);
      if n == |t| && IsIncompleteEscape(key) {
        IncompleteIsPending(t);
        PendingUnits(h, s, t);
        WaitingIs(s, t);
      } else {
        PressPlain(h, s, key);
        ChunkIsUnits(h, Press(h, s, key), t[n..]);
        if t[0] == ESC { EscapeUnits(h, s, t); } else { OtherUnits(h, s, t); }
      }
    }
  }

  lemma OtherUnits(h: Host, s: Session, t: Text)
    requires Plain(s) && t != [] && t[0] != ESC
    ensures var (key, n) := FirstKey(t); key != [] && Units(h, Received(s, []), t) == Units(h, Received(Press(h, s, key), []), t[n..])
  {
    hide Press, Units, FirstKey, Valid;
    FirstKeyUnits(h, s, t);
    var n := FirstKey(t).1;
    assert t == t[..n] + t[n..];
    UnitsConcat(h, Received(s, []), t[..n], t[n..]);
  }

  lemma FirstKeyChars(t: Text)
    requires t != [] && CTRL_R !in t
    ensures FirstKey(t).0 != [] && FirstKey(t).0 != [CTRL_R]
  {
    assert t[0] in t;
  }

  lemma IncompleteIsPending(t: Text)
    requires t != [] && FirstKey(t).1 == |t| && IsIncompleteEscape(FirstKey(t).0)
    ensures FirstKey(t).0 == t && Pending(t)
  {
    if !OpensCsi(t) { assert t == [t[0]] || t == [CR, LF]; }
  }

  // --- chunks -----------------------------------------------------------------------------------------------

  function Flat(chunks: seq<Text>): Text {
    if chunks == [] then [] else Flat(chunks[..|chunks| - 1]) + chunks[|chunks| - 1]
  }

  /** Chunks handled one after the other. */
  function Fed(h: Host, r: Received, chunks: seq<Text>): (r': Received)
    requires Valid(r.session)
    ensures Valid(r'.session)
  {
    if chunks == [] then r
    else
      var before := Fed(h, r, chunks[..|chunks| - 1]);
      ChunkValid(h, before.session, before.partialEscape, chunks[|chunks| - 1]);
      Chunk(h, before.session, before.partialEscape, chunks[|chunks| - 1])
  }

  lemma ChunkValid(h: Host, s: Session, p: Text, data: Text)
    requires Valid(s)
    ensures Valid(Chunk(h, s, p, data).session)
  {
    KeysNonEmpty(p + data);
  }

  lemma {:induction false} FedIsUnits(h: Host, r: Received, chunks: seq<Text>)
    requires Waiting(r) && CTRL_R !in Flat(chunks)
    ensures Fed(h, r, chunks) == Units(h, r, Flat(chunks)) && Waiting(Fed(h, r, chunks))
    decreases |chunks|
  {
    hide Waiting, Units, Chunk;
    WaitingMeans(r);
    if chunks != [] {
      var n := |chunks| - 1;
      var flat := Flat(chunks[..n]);
      assert forall c :: c in flat || c in chunks[n] ==> c in Flat(chunks);
      FedIsUnits(h, r, chunks[..n]);
      hide *;
      ChunkWaiting(h, Fed(h, r, chunks[..n]), chunks[n]);
      UnitsConcat(h, r, flat, chunks[n]);
      LastChunk(h, r, chunks);
    } else {
      NoUnits(h, r);
    }
  }

  lemma NoUnits(h: Host, r: Received)
    requires Valid(r.session)
    ensures Units(h, r, []) == r
  {
  }

  lemma WaitingMeans(r: Received)
    requires Waiting(r)
    ensures Valid(r.session) && Plain(r.session) && Pending(r.partialEscape) && CTRL_R !in r.partialEscape
  {
  }

  lemma LastChunk(h: Host, r: Received, chunks: seq<Text>)
    requires Valid(r.session) && chunks != []
    ensures var before := Fed(h, r, chunks[..|chunks| - 1]); var last := chunks[|chunks| - 1];
      Fed(h, r, chunks) == Chunk(h, before.session, before.partialEscape, last) && Flat(chunks) == Flat(chunks[..|chunks| - 1]) + last
  {
  }

  lemma ChunkWaiting(h: Host, r: Received, data: Text)
    requires Waiting(r) && CTRL_R !in data
    ensures Valid(r.session) && Chunk(h, r.session, r.partialEscape, data) == Units(h, r, data) && Waiting(Chunk(h, r.session, r.partialEscape, data))
  {
    hide *;
    WaitingMeans(r);
    var p := r.partialEscape;
    ChunkIsUnits(h, r.session, p + data);
    PendingUnits(h, r.session, p);
    UnitsConcat(h, Received(r.session, []), p, data);
    Regroup(h, r.session, p, data);
  }

  lemma Regroup(h: Host, s: Session, p: Text, data: Text)
    requires Valid(s)
    ensures Chunk(h, s, p, data) == Chunk(h, s, [], p + data)
  {
    assert [] + (p + data) == p + data;
    hide IsIncompleteEscape, Keys;
  }

  /** In a search a cut can matter: after stepping to an older match, a query typed in two chunks can find a newer line. */
  lemma SearchSeesCuts(h: Host)
    ensures var s := Session([], 0, [[97], [97, 98, 99]], 2, Some(Search([97], 0, [])), false);
      && Valid(s)
      && Press(h, Press(h, s, [98]), [99]).search == Some(Search([97, 98, 99], 1, []))
      && Press(h, s, [98, 99]).search == Some(Search([97, 98, 99], -1, []))
  {
    var history: seq<Text> := [[97], [97, 98, 99]];
    assert [97] + [98] == [97, 98] && [97, 98] + [99] == [97, 98, 99] && [97] + [98, 99] == [97, 98, 99];
    TooLong([97], [97, 98]);
    TooLong([97], [97, 98, 99]);
    assert Drop([97, 98, 99], 0) == [97, 98, 99] && StartsWith(Drop([97, 98, 99], 0), [97, 98, 99]);
    assert Includes([97, 98, 99], [97, 98, 99]);
    hide Includes;
    assert FindMatch(history, [97, 98], 0) == -1 && FindMatch(history, [97, 98, 99], 0) == -1;
    assert FindMatch(history, [97, 98, 99], 1) == 1;
    hide FindMatch;
  }

  lemma TooLong(t: Text, q: Text)
    requires |q| > |t|
    ensures !Includes(t, q)
  {
  }
}
