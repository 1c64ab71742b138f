/** Cutting the input into chunks, searches included: which cuts are safe, and exactly what an unsafe one changes. */
module Cuts {
  import opened Bytes
  import opened Screen
  import opened Terminal
  import opened Chunking

  // --- a run in two pieces ------------------------------------------------------------------------------

  /** A search is open and still takes keys. */
  predicate Open(s: Session) {
    s.search.Some? && !s.exited
  }

  /** Outside a search a run of printable text may come in two pieces. */
  lemma RunsJoin(h: Host, s: Session, a: Text, b: Text)
    requires Valid(s) && !Open(s) && a != [] && b != [] && AllPrintable(a) && AllPrintable(b)
    ensures Press(h, Press(h, s, a), b) == Press(h, s, a + b)
  {
    assert a[0] >= 32 && a[0] != DEL && b[0] >= 32 && b[0] != DEL;
    if s.exited {
    } else {
      PrintableInserts(h, s, a);
      PrintableInserts(h, s, a + b);
      var t := Press(h, s, a);
      PrintableInserts(h, t, b);
      assert t.buffer[..t.cursor] == s.buffer[..s.cursor] + a && t.buffer[t.cursor..] == s.buffer[s.cursor..];
      hide Press;
    }
  }

  lemma IncludesLess(t: Text, q: Text, r: Text)
    requires Includes(t, q + r)
    ensures Includes(t, q)
  {
    var k :| 0 <= k <= |t| && StartsWith(Drop(t, k), q + r);
    assert StartsWith(Drop(t, k), q) by {
      assert Drop(t, k)[..|q|] == Drop(t, k)[..|q + r|][..|q|] == (q + r)[..|q|] == q;
    }
  }

  /** The downward search finds the newest line, or says there is none. */
  lemma {:induction false} FindDownIs(history: seq<Text>, query: Text, from: int, i: int)
    requires from < |history| && i == FindDown(history, query, from)
    ensures if i >= 0 then i <= from && Includes(history[i], query) && forall j :: i < j <= from ==> !Includes(history[j], query)
            else i == -1 && forall j :: 0 <= j <= from ==> !Includes(history[j], query)
    decreases from
  {
    hide Includes;
    if from >= 0 && !Includes(history[from], query) { FindDownIs(history, query, from - 1, i); }
  }

  /** The next search position: what a query of a search grows to. */
  function Typed(s: Session, search: Search, key: Text): Search {
    search.(query := search.query + key,
            matchIndex := FindMatch(s.history, search.query + key, if search.matchIndex >= 0 then search.matchIndex else |s.history| - 1))
  }

  lemma TypedIs(h: Host, s: Session, key: Text)
    requires Valid(s) && Open(s) && key != [] && AllPrintable(key)
    ensures Press(h, s, key) == s.(search := Some(Typed(s, s.search.value, key)))
  {
    assert key[0] >= 32 && key[0] != DEL;
    assert key != [CTRL_R] && key != [CTRL_C] && key != [CTRL_D] && key != [CR];
    hide FindMatch, SearchLine;
  }

  /** The first piece alone is found nowhere from the current match down, the whole somewhere above it. */
  predicate Misses(s: Session, search: Search, a: Text, b: Text) {
    && 0 <= search.matchIndex < |s.history| - 1
    && (forall i :: 0 <= i <= search.matchIndex ==> !Includes(s.history[i], search.query + a))
    && exists i :: search.matchIndex < i < |s.history| && Includes(s.history[i], search.query + a + b)
  }

  /** In an open search a query typed in two pieces ends elsewhere than typed at once if and only if the first piece misses. */
  lemma SearchCutIff(h: Host, s: Session, a: Text, b: Text)
    requires Valid(s) && Open(s) && a != [] && b != [] && AllPrintable(a) && AllPrintable(b)
    ensures Press(h, Press(h, s, a), b) != Press(h, s, a + b) <==> Misses(s, s.search.value, a, b)
  {
    SearchIndex(s);
    hide *;
    TypedIs(h, s, a);
    TypedIs(h, s, a + b);
    PressedOpen(h, s, a);
    TypedIs(h, Press(h, s, a), b);
    TypedTwice(s, s.search.value, a, b);
    TypedAgain(s, s.search.value, a, b);
  }

  /** What is typed next depends on the history and the search. */
  lemma TypedAgain(s: Session, search: Search, a: Text, b: Text)
    ensures Typed(s.(search := Some(Typed(s, search, a))), Typed(s, search, a), b) == Typed(s, Typed(s, search, a), b)
  {
    hide FindMatch;
  }

  /** Where a search looks from. */
  function LooksFrom(s: Session, search: Search): int {
    if search.matchIndex >= 0 then search.matchIndex else |s.history| - 1
  }

  lemma TypedFinds(s: Session, search: Search, key: Text)
    requires -1 <= search.matchIndex < |s.history| && key != []
    ensures LooksFrom(s, search) < |s.history|
    ensures Typed(s, search, key) == search.(query := search.query + key, matchIndex := FindDown(s.history, search.query + key, LooksFrom(s, search)))
  {
    hide FindDown;
  }

  lemma TypedTwice(s: Session, search: Search, a: Text, b: Text)
    requires -1 <= search.matchIndex < |s.history| && a != [] && b != []
    ensures Typed(s, Typed(s, search, a), b) != Typed(s, search, a + b) <==> Misses(s, search, a, b)
  {
    hide *;
    var q, from := search.query, LooksFrom(s, search);
    assert q + a + b == q + (a + b);
    TypedFinds(s, search, a);
    TypedFinds(s, search, a + b);
    FoundIs(s.history, q + a, from);
    TypedFinds(s, Typed(s, search, a), b);
    LooksFromIs(s, Typed(s, search, a));
    TwiceFound(s, search, a, b);
  }

  /** The downward search, as a result with its meaning. */
  lemma FoundIs(history: seq<Text>, query: Text, from: int)
    requires from < |history|
    ensures var i := FindDown(history, query, from);
      && -1 <= i < |history| && (i >= 0 ==> i <= from && Includes(history[i], query))
      && forall j :: (if i >= 0 then i + 1 else 0) <= j <= from ==> !Includes(history[j], query)
  {
    FindDownIs(history, query, from, FindDown(history, query, from));
    hide Includes, FindDown;
  }

  /** Looking for the longer query from where the shorter one was found, or from the newest line when it was not. */
  lemma TwiceFound(s: Session, search: Search, a: Text, b: Text)
    requires -1 <= search.matchIndex < |s.history|
    ensures var q, from := search.query, LooksFrom(s, search); var first := FindDown(s.history, q + a, from);
      var again := if first >= 0 then first else |s.history| - 1;
      again < |s.history| && (FindDown(s.history, q + a + b, again) != FindDown(s.history, q + a + b, from) <==> Misses(s, search, a, b))
  {
    hide *;
    var q, from, n := search.query, LooksFrom(s, search), |s.history|;
    LooksFromIs(s, search);
    FoundIs(s.history, q + a, from);
    var first := FindDown(s.history, q + a, from);
    var again := if first >= 0 then first else n - 1;
    FoundIs(s.history, q + a + b, from);
    FoundIs(s.history, q + a + b, again);
    forall j | 0 <= j < n && Includes(s.history[j], q + a + b) ensures Includes(s.history[j], q + a) { IncludesLess(s.history[j], q + a, b); }
    MissesIs(s, search, a, b);
  }

  lemma LooksFromIs(s: Session, search: Search)
    ensures LooksFrom(s, search) == if search.matchIndex >= 0 then search.matchIndex else |s.history| - 1
  {
  }

  lemma MissesIs(s: Session, search: Search, a: Text, b: Text)
    ensures Misses(s, search, a, b) <==>
      && 0 <= search.matchIndex < |s.history| - 1
      && (forall i :: 0 <= i <= search.matchIndex ==> !Includes(s.history[i], search.query + a))
      && exists i :: search.matchIndex < i < |s.history| && Includes(s.history[i], search.query + a + b)
  {
    hide Includes;
  }

  /** The newest line that includes the whole query, where there is one. */
  function Newest(s: Session, query: Text): int {
    FindDown(s.history, query, |s.history| - 1)
  }

  /** After a first piece that missed, the cut query has found the newest line, and the whole one nothing. */
  lemma MissedEnds(h: Host, s: Session, a: Text, b: Text)
    requires Valid(s) && Open(s) && a != [] && b != [] && AllPrintable(a) && AllPrintable(b) && Misses(s, s.search.value, a, b)
    ensures var found := s.search.value.(query := s.search.value.query + a + b);
      && Press(h, Press(h, s, a), b) == s.(search := Some(found.(matchIndex := Newest(s, found.query))))
      && Press(h, s, a + b) == s.(search := Some(found.(matchIndex := -1)))
      && 0 <= Newest(s, found.query) < |s.history|
  {
    SearchIndex(s);
    hide *;
    TypedIs(h, s, a);
    TypedIs(h, s, a + b);
    PressedOpen(h, s, a);
    TypedIs(h, Press(h, s, a), b);
    TypedAgain(s, s.search.value, a, b);
    MissedTyped(s, s.search.value, a, b);
  }

  lemma MissedTyped(s: Session, search: Search, a: Text, b: Text)
    requires -1 <= search.matchIndex < |s.history| && a != [] && b != [] && Misses(s, search, a, b)
    ensures var found := search.(query := search.query + a + b);
      && Typed(s, Typed(s, search, a), b) == found.(matchIndex := Newest(s, found.query))
      && Typed(s, search, a + b) == found.(matchIndex := -1) && 0 <= Newest(s, found.query) < |s.history|
  {
    hide *;
    var q := search.query;
    assert q + a + b == q + (a + b);
    TypedFinds(s, search, a);
    TypedFinds(s, search, a + b);
    FoundIs(s.history, q + a, LooksFrom(s, search));
    TypedFinds(s, Typed(s, search, a), b);
    LooksFromIs(s, Typed(s, search, a));
    MissedIndexes(s, search, a, b);
  }

  lemma SearchIndex(s: Session)
    requires Valid(s) && Open(s)
    ensures s.search.Some? && -1 <= s.search.value.matchIndex < |s.history|
  {
  }

  lemma PressedOpen(h: Host, s: Session, key: Text)
    requires Valid(s) && Open(s) && key != [] && AllPrintable(key)
    ensures Open(Press(h, s, key)) && Press(h, s, key).history == s.history && Press(h, s, key).search == Some(Typed(s, s.search.value, key))
  {
    TypedIs(h, s, key);
    hide Press, Typed;
  }

  /** Both searches of a first piece that missed. */
  lemma MissedIndexes(s: Session, search: Search, a: Text, b: Text)
    requires -1 <= search.matchIndex < |s.history| && Misses(s, search, a, b)
    ensures var q, from := search.query, LooksFrom(s, search);
      && FindDown(s.history, q + a, from) == -1 && FindDown(s.history, q + a + b, from) == -1
      && 0 <= Newest(s, q + a + b) < |s.history| && Newest(s, q + a + b) == FindDown(s.history, q + a + b, |s.history| - 1)
  {
    MissesIs(s, search, a, b);
    LooksFromIs(s, search);
    hide Misses, Includes, FindDown, LooksFrom;
    var q, from, n := search.query, LooksFrom(s, search), |s.history|;
    FoundIs(s.history, q + a, from);
    FoundIs(s.history, q + a + b, from);
    FoundIs(s.history, q + a + b, n - 1);
    forall j | 0 <= j < n && Includes(s.history[j], q + a + b) ensures Includes(s.history[j], q + a) { IncludesLess(s.history[j], q + a, b); }
  }

  /** The next key hides the difference: it clears the line or shortens the query, finds no older line, or leaves the search for the same line. */
  predicate Hides(s: Session, query: Text, key: Text)
    requires key != [] && s.search.Some? && 0 <= Newest(s, query) < |s.history|
  {
    if key == [CTRL_C] || key[0] == DEL then true
    else if key == [CTRL_R] then FindDown(s.history, query, Newest(s, query) - 1) < 0
    else s.history[Newest(s, query)] == s.search.value.savedBuffer
  }

  /** After one more key that is neither text nor Enter, a query in two pieces has ended elsewhere if and only if the first piece missed and the key does not hide it. */
  lemma NextKeyIff(h: Host, s: Session, a: Text, b: Text, key: Text)
    requires Valid(s) && Open(s) && a != [] && b != [] && AllPrintable(a) && AllPrintable(b)
    requires key != [] && !Printable(key[0]) && key != [CR]
    ensures Press(h, Press(h, Press(h, s, a), b), key) != Press(h, Press(h, s, a + b), key) <==>
      Misses(s, s.search.value, a, b) && 0 <= Newest(s, s.search.value.query + a + b) < |s.history| && !Hides(s, s.search.value.query + a + b, key)
  {
    SearchCutIff(h, s, a, b);
    if Misses(s, s.search.value, a, b) {
      MissedEnds(h, s, a, b);
      var q := s.search.value.query + a + b;
      FindDownIs(s.history, q, Newest(s, q) - 1, FindDown(s.history, q, Newest(s, q) - 1));
      HiddenBy(h, s, q, key);
    }
    hide Press, Misses, Hides, Newest, FindDown;
  }

  lemma HiddenBy(h: Host, s: Session, query: Text, key: Text)
    requires Valid(s) && Open(s) && query != [] && 0 <= Newest(s, query) < |s.history| && key != [] && !Printable(key[0]) && key != [CR]
    ensures var search := s.search.value.(query := query);
      Press(h, s.(search := Some(search.(matchIndex := Newest(s, query)))), key) == Press(h, s.(search := Some(search.(matchIndex := -1))), key) <==> Hides(s, query, key)
  {
    var i := Newest(s, query);
    var search := s.search.value.(query := query);
    if key == [CTRL_R] {
      AgainIs(h, s, search.(matchIndex := i));
      AgainIs(h, s, search.(matchIndex := -1));
      NewestIs(s, query);
      FoundIs(s.history, query, i - 1);
      hide Press, Includes, FindDown, Newest;
    } else if key == [CTRL_C] || key[0] == DEL {
      Forgets(h, s, search, i, key);
      hide Press, Newest;
    } else {
      Leaves(h, s, search.(matchIndex := i), key);
      Leaves(h, s, search.(matchIndex := -1), key);
      hide Press, Newest;
    }
  }

  /** Ctrl+C and Backspace do not look at the match. */
  lemma Forgets(h: Host, s: Session, search: Search, i: int, key: Text)
    requires Valid(s) && Open(s) && 0 <= i < |s.history| && (key == [CTRL_C] || (key != [] && key[0] == DEL))
    ensures Press(h, s.(search := Some(search.(matchIndex := i))), key) == Press(h, s.(search := Some(search.(matchIndex := -1))), key)
  {
    assert [CR][0] != DEL && [CTRL_D][0] != DEL && [CTRL_R][0] != DEL;
    hide FindMatch, SearchLine;
  }

  /** Any other control key but Enter and Ctrl+R leaves the search for its line. */
  lemma Leaves(h: Host, s: Session, search: Search, key: Text)
    requires Valid(s) && Open(s) && -1 <= search.matchIndex < |s.history|
    requires key != [] && key[0] < 32 && key != [CR] && key != [CTRL_R] && key != [CTRL_C]
    ensures var line := if search.matchIndex >= 0 then s.history[search.matchIndex] else search.savedBuffer;
      Press(h, s.(search := Some(search)), key) == s.(search := None, buffer := line, cursor := |line|)
  {
    assert key[0] != DEL;
    hide FindMatch, SearchLine;
  }

  lemma NewestIs(s: Session, query: Text)
    ensures Newest(s, query) == FindDown(s.history, query, |s.history| - 1)
  {
  }

  /** Ctrl+R in a search: the next older line, if there is one. */
  lemma AgainIs(h: Host, s: Session, search: Search)
    requires Valid(s) && Open(s) && search.query != [] && -1 <= search.matchIndex < |s.history|
    ensures var i := FindDown(s.history, search.query, if search.matchIndex >= 0 then search.matchIndex - 1 else |s.history| - 1);
      Press(h, s.(search := Some(search)), [CTRL_R]) == s.(search := Some(if i >= 0 then search.(matchIndex := i) else search))
  {
    assert [CTRL_R] != [CTRL_C] && [CTRL_R] != [CTRL_D] && [CTRL_R] != [CR];
    hide FindDown, SearchLine;
  }

  // --- one cut ---------------------------------------------------------------------------------------------

  /** The input's last key is a run of printable text. */
  predicate EndsInRun(t: Text)
    decreases |t|
  {
    t != [] && if FirstKey(t).1 == |t| then Printable(t[0]) else EndsInRun(t[FirstKey(t).1..])
  }

  /** The cut after `t` splits a printable run, and a search is open then. */
  predicate Splits(s: Session, t: Text, b: Text) {
    EndsInRun(t) && b != [] && Printable(b[0]) && Open(s)
  }

  lemma FirstKeyKept(t: Text, b: Text)
    requires t != [] && FirstKey(t).1 < |t|
    ensures FirstKey(t + b) == FirstKey(t) && (t + b)[FirstKey(t).1..] == t[FirstKey(t).1..] + b
  {
    var n := FirstKey(t).1;
    assert forall i :: 0 <= i < |t| ==> (t + b)[i] == t[i];
    if OpensCsi(t) {
      FinalHere(t + b, 2, n - 1);
    } else if t[0] != CR && t[0] != LF && Printable(t[0]) {
      RunHere(t + b, 1, n);
    }
    assert (t + b)[..n] == t[..n];
  }

  /** A complete key is followed by the next one, unless the cut parts a run or CR from LF. */
  lemma FirstKeyWhole(t: Text, b: Text)
    requires t != [] && b != [] && FirstKey(t).1 == |t| && !IsIncompleteEscape(FirstKey(t).0)
    requires !(Printable(t[0]) && Printable(b[0])) && !(t == [CR] && b[0] == LF)
    ensures FirstKey(t + b) == FirstKey(t) && (t + b)[|t|..] == b
  {
    var n := |t|;
    assert forall i :: 0 <= i < |t| ==> (t + b)[i] == t[i];
    if OpensCsi(t) {
      FinalHere(t + b, 2, n - 1);
    } else if t[0] != CR && t[0] != LF && Printable(t[0]) {
      RunHere(t + b, 1, n);
    }
    assert (t + b)[..n] == t;
    assert t[..n] == t;
  }

  lemma FirstKeyJoined(t: Text, b: Text)
    requires t != [] && b != [] && FirstKey(t).1 == |t| && Printable(t[0]) && Printable(b[0])
    ensures AllPrintable(t) && FirstKey(t).0 == t && AllPrintable(FirstKey(b).0) && FirstKey(b).0 == b[..FirstKey(b).1]
    ensures FirstKey(t + b) == (t + FirstKey(b).0, |t| + FirstKey(b).1) && (t + b)[|t| + FirstKey(b).1..] == b[FirstKey(b).1..]
  {
    var j := FirstKey(b).1;
    assert t[..|t|] == t && !OpensCsi(t) && !OpensCsi(b) && !OpensCsi(t + b);
    assert (t + b)[0] == t[0];
    RunHere(t + b, 1, |t| + j);
    assert (t + b)[..|t| + j] == t + b[..j];
  }

  /** A second Enter changes nothing, whether the first one left a search or not. */
  lemma EnterAgain(h: Host, s: Session)
    requires Valid(s)
    ensures Press(h, Press(h, s, [CR]), [CR]) == Press(h, s, [CR])
  {
    if s.search.None? {
      EnterTwice(h, s);
    } else if !s.exited {
      var adopted := ExitSearch(h, s, s.search.value).session;
      assert [CR] != [CTRL_C] && [CR] != [CTRL_D];
      assert Press(h, s, [CR]) == (if adopted.exited then s else EditKey(h, adopted, [CR]).session);
      assert Press(h, adopted, [CR]) == EditKey(h, adopted, [CR]).session;
      EnterTwice(h, adopted);
    }
  }

  lemma ChunkNone(h: Host, s: Session)
    requires Valid(s)
    ensures Chunk(h, s, [], []) == Received(s, [])
  {
    var none: Text := [];
    assert [] + none == none;
    assert Keys(none) == [];
  }

  /** A key that is complete and fills its chunk. */
  lemma OneKey(h: Host, s: Session, t: Text)
    requires Valid(s) && t != [] && FirstKey(t).1 == |t| && !IsIncompleteEscape(FirstKey(t).0)
    ensures FirstKey(t).0 != [] && Chunk(h, s, [], t) == Received(Press(h, s, FirstKey(t).0), [])
  {
    hide *;
    ChunkStep(h, s, t);
    assert t[|t|..] == [];
    ChunkNone(h, Press(h, s, FirstKey(t).0));
  }

  /** Two chunks do what one does, unless the cut splits a run in an open search. */
  lemma {:induction false} OneCut(h: Host, s: Session, t: Text, b: Text)
    requires Valid(s) && t != []
    ensures var r := Chunk(h, s, [], t);
      Valid(r.session) && (!Splits(r.session, t, b) ==> Chunk(h, r.session, r.partialEscape, b) == Chunk(h, s, [], t + b))
    decreases |t|
  {
    hide *;
    ChunkValid(h, s, [], t);
    ChunkStep(h, s, t);
    var (key, n) := FirstKey(t);
    if b == [] {
      CutAtEnd(h, s, t);
    } else if n < |t| {
      FirstKeyKept(t, b);
      LongStep(t, b);
      ChunkStep(h, s, t + b);
      OneCut(h, Press(h, s, key), t[n..], b);
      SplitsTail(Chunk(h, s, [], t).session, t, b);
    } else if IsIncompleteEscape(key) {
      IncompleteIsPending(t);
      Regroup(h, s, t, b);
    } else {
      OneKey(h, s, t);
      LastKeyCut(h, s, t, b);
    }
  }

  lemma LongStep(t: Text, b: Text)
    requires t != [] && FirstKey(t).1 < |t|
    ensures t + b != [] && |t + b| != FirstKey(t).1
  {
  }

  lemma SplitsTail(s: Session, t: Text, b: Text)
    requires t != [] && FirstKey(t).1 < |t|
    ensures t[FirstKey(t).1..] != [] && (Splits(s, t, b) <==> Splits(s, t[FirstKey(t).1..], b))
  {
    hide FirstKey;
  }

  /** An empty chunk changes nothing, whatever is held back. */
  lemma CutAtEnd(h: Host, s: Session, t: Text)
    requires Valid(s)
    ensures t + [] == t && var r := Chunk(h, s, [], t); Valid(r.session) && Chunk(h, r.session, r.partialEscape, []) == r
  {
    hide *;
    assert t + [] == t;
    ChunkValid(h, s, [], t);
    var r := Chunk(h, s, [], t);
    KeysNonEmpty(t);
    ChunkOf(h, s, t);
    var p := r.partialEscape;
    Regroup(h, r.session, p, []);
    assert p + [] == p;
    if p == [] {
      ChunkNone(h, r.session);
    } else {
      HeldIsKey(h, s, t);
      HeldAgain(h, r.session, p);
    }
  }

  /** What a chunk holds back is an incomplete key. */
  lemma HeldIsKey(h: Host, s: Session, t: Text)
    requires Valid(s) && Chunk(h, s, [], t).partialEscape != []
    ensures IsIncompleteEscape(Chunk(h, s, [], t).partialEscape) && Pending(Chunk(h, s, [], t).partialEscape)
  {
    hide *;
    KeysNonEmpty(t);
    ChunkOf(h, s, t);
    LastIncomplete(t);
  }

  lemma {:induction false} LastIncomplete(t: Text)
    ensures var keys := Keys(t); |keys| > 0 && IsIncompleteEscape(keys[|keys| - 1]) ==> Pending(keys[|keys| - 1])
    decreases |t|
  {
    hide IsIncompleteEscape, FirstKey, Pending;
    if t != [] {
      var n := FirstKey(t).1;
      LastIncomplete(t[n..]);
      if n == |t| {
        assert t[n..] == [];
        if IsIncompleteEscape(FirstKey(t).0) { IncompleteIsPending(t); }
      } else {
        assert Keys(t[n..]) != [];
      }
    }
  }

  lemma HeldAgain(h: Host, s: Session, p: Text)
    requires Valid(s) && p != [] && IsIncompleteEscape(p) && Pending(p)
    ensures Chunk(h, s, [], p) == Received(s, p)
  {
    PendingIsKey(p);
    hide *;
    ChunkStep(h, s, p);
  }

  lemma PendingIsKey(p: Text)
    requires p != [] && IsIncompleteEscape(p) && Pending(p)
    ensures FirstKey(p) == (p, |p|)
  {
    if OpensCsi(p) { FinalHere(p, 2, |p|); }
    assert p[..|p|] == p;
  }

  /** A chunk of one complete key, and what comes next. */
  lemma LastKeyCut(h: Host, s: Session, t: Text, b: Text)
    requires Valid(s) && t != [] && b != [] && FirstKey(t).1 == |t| && !IsIncompleteEscape(FirstKey(t).0)
    ensures FirstKey(t).0 != [] && var u := Press(h, s, FirstKey(t).0); !Splits(u, t, b) ==> Chunk(h, u, [], b) == Chunk(h, s, [], t + b)
  {
    KeyIs(t);
    hide *;
    OneKey(h, s, t);
    var u := Press(h, s, FirstKey(t).0);
    if Printable(t[0]) && Printable(b[0]) {
      FirstKeyJoined(t, b);
      RunCut(h, s, t, b);
    } else if t == [CR] && b[0] == LF {
      CrLf(t, b);
      assert b[1..] == (t + b)[2..];
      ChunkStep(h, s, t + b);
      ChunkStep(h, u, b);
      EnterAgain(h, s);
    } else {
      FirstKeyWhole(t, b);
      Longer(t, b);
      ChunkStep(h, s, t + b);
    }
  }

  lemma Longer(t: Text, b: Text)
    requires b != []
    ensures |t| < |t + b|
  {
  }

  lemma KeyIs(t: Text)
    requires t != [] && FirstKey(t).1 == |t|
    ensures FirstKey(t).0 != [] && (t == [CR] ==> FirstKey(t).0 == [CR])
  {
  }

  lemma CrLf(t: Text, b: Text)
    requires t == [CR] && b != [] && b[0] == LF
    ensures FirstKey(t + b) == ([CR], 2) && FirstKey(b) == ([CR], 1) && !IsIncompleteEscape([CR])
  {
    assert (t + b)[0] == CR && (t + b)[1] == LF;
  }

  lemma RunCut(h: Host, s: Session, t: Text, b: Text)
    requires Valid(s) && t != [] && b != [] && FirstKey(t).1 == |t| && Printable(t[0]) && Printable(b[0])
    ensures var u := Press(h, s, t); !Splits(u, t, b) ==> Chunk(h, u, [], b) == Chunk(h, s, [], t + b)
  {
    hide *;
    FirstKeyJoined(t, b);
    var run := FirstKey(b).0;
    RunFacts(t, b);
    RunOpen(h, s, t);
    ChunkStep(h, s, t + b);
    ChunkStep(h, Press(h, s, t), b);
    if !Open(s) { RunsJoin(h, s, t, run); }
    SplitsIs(Press(h, s, t), t, b);
  }

  lemma RunFacts(t: Text, b: Text)
    requires t != [] && b != [] && FirstKey(t).1 == |t| && Printable(t[0]) && Printable(b[0])
    ensures FirstKey(b).0 != [] && !IsIncompleteEscape(FirstKey(b).0) && !IsIncompleteEscape(t + FirstKey(b).0) && EndsInRun(t)
  {
    FirstKeyJoined(t, b);
    var run := FirstKey(b).0;
    assert run[0] == b[0] && (t + run)[0] == t[0];
    hide FirstKey;
  }

  lemma SplitsIs(s: Session, t: Text, b: Text)
    requires EndsInRun(t) && b != [] && Printable(b[0])
    ensures Splits(s, t, b) <==> Open(s)
  {
  }

  /** Printable text neither opens nor closes a search. */
  lemma RunOpen(h: Host, s: Session, run: Text)
    requires Valid(s) && run != [] && AllPrintable(run)
    ensures Open(Press(h, s, run)) <==> Open(s)
  {
    assert run[0] >= 32 && run[0] != DEL;
    if Open(s) {
      TypedIs(h, s, run);
    } else if !s.exited {
      PrintableInserts(h, s, run);
    }
    hide Press;
  }

  // --- any number of cuts -----------------------------------------------------------------------------------

  /** No cut between these chunks falls inside a printable run while a search is open. */
  ghost predicate Whole(h: Host, r: Received, chunks: seq<Text>)
    requires Valid(r.session)
  {
    forall i :: 0 <= i < |chunks| ==> !Splits(Fed(h, r, chunks[..i]).session, r.partialEscape + Flat(chunks[..i]), chunks[i])
  }

  /** A state between chunks: the editor is valid, and what is held back is an escape without final byte. */
  predicate Between(r: Received) {
    Valid(r.session) && Pending(r.partialEscape)
  }

  lemma FedNone(h: Host, r: Received)
    requires Between(r)
    ensures Fed(h, r, []) == r && Flat([]) == [] && Chunk(h, r.session, r.partialEscape, []) == r
  {
    var p := r.partialEscape;
    Regroup(h, r.session, p, []);
    assert p + [] == p;
    if p == [] {
      ChunkNone(h, r.session);
    } else {
      PendingIsKept(p);
      HeldAgain(h, r.session, p);
    }
    hide *;
    FedEmpty(h, r);
  }

  lemma FedEmpty(h: Host, r: Received)
    requires Valid(r.session)
    ensures Fed(h, r, []) == r && Flat([]) == []
  {
  }

  lemma PendingIsKept(p: Text)
    requires p != [] && Pending(p)
    ensures IsIncompleteEscape(p)
  {
  }

  /** Whole chunks do what the whole input does at once. */
  lemma {:induction false} WholeIsOne(h: Host, r: Received, chunks: seq<Text>)
    requires Between(r) && Whole(h, r, chunks)
    ensures Fed(h, r, chunks) == Chunk(h, r.session, r.partialEscape, Flat(chunks))
    decreases |chunks|
  {
    hide *;
    BetweenIs(r);
    if chunks == [] {
      FedNone(h, r);
    } else {
      var n := |chunks| - 1;
      WholePrefix(h, r, chunks);
      WholeIsOne(h, r, chunks[..n]);
      LastChunk(h, r, chunks);
      NextCut(h, r, Flat(chunks[..n]), chunks[n]);
    }
  }

  lemma BetweenIs(r: Received)
    requires Between(r)
    ensures Valid(r.session) && Pending(r.partialEscape)
  {
  }

  lemma WholePrefix(h: Host, r: Received, chunks: seq<Text>)
    requires Valid(r.session) && Whole(h, r, chunks) && chunks != []
    ensures Whole(h, r, chunks[..|chunks| - 1])
    ensures var n := |chunks| - 1; !Splits(Fed(h, r, chunks[..n]).session, r.partialEscape + Flat(chunks[..n]), chunks[n])
  {
    hide Splits, Fed, Flat;
    var rest := chunks[..|chunks| - 1];
    forall i | 0 <= i < |rest| ensures !Splits(Fed(h, r, rest[..i]).session, r.partialEscape + Flat(rest[..i]), rest[i]) {
      assert rest[..i] == chunks[..i];
    }
  }

  lemma NextCut(h: Host, r: Received, a: Text, b: Text)
    requires Between(r) && Valid(r.session)
    ensures var mid := Chunk(h, r.session, r.partialEscape, a);
      Valid(mid.session) && (!Splits(mid.session, r.partialEscape + a, b) ==>
        Chunk(h, mid.session, mid.partialEscape, b) == Chunk(h, r.session, r.partialEscape, a + b))
  {
    hide *;
    var t := r.partialEscape + a;
    Regroup(h, r.session, r.partialEscape, a);
    Regroup(h, r.session, r.partialEscape, a + b);
    assert r.partialEscape + (a + b) == t + b;
    if t == [] {
      ChunkNone(h, r.session);
      assert t + b == b;
    } else {
      OneCut(h, r.session, t, b);
    }
  }

  /** From any state, two ways of cutting the same input agree unless one cuts a printable run while a search is open. */
  lemma CutsDoNotMatter(h: Host, r: Received, chunks: seq<Text>, chunks': seq<Text>)
    requires Between(r) && Flat(chunks) == Flat(chunks') && Whole(h, r, chunks) && Whole(h, r, chunks')
    ensures Fed(h, r, chunks) == Fed(h, r, chunks')
  {
    WholeIsOne(h, r, chunks);
    WholeIsOne(h, r, chunks');
  }

  /** While no search is ever opened, no cut can matter. */
  lemma WholeOutsideSearch(h: Host, r: Received, chunks: seq<Text>)
    requires Waiting(r) && CTRL_R !in Flat(chunks)
    ensures Between(r) && Whole(h, r, chunks)
  {
    WaitingMeans(r);
    forall i | 0 <= i < |chunks| ensures !Splits(Fed(h, r, chunks[..i]).session, r.partialEscape + Flat(chunks[..i]), chunks[i]) {
      FlatPrefix(chunks, i);
      FedIsUnits(h, r, chunks[..i]);
      WaitingMeans(Fed(h, r, chunks[..i]));
      hide Fed, Flat, EndsInRun, Waiting;
    }
  }

  lemma {:induction false} FlatPrefix(chunks: seq<Text>, i: nat)
    requires i <= |chunks|
    ensures forall c :: c in Flat(chunks[..i]) ==> c in Flat(chunks)
  {
    if i < |chunks| {
      FlatPrefix(chunks[..|chunks| - 1], i);
      assert chunks[..|chunks| - 1][..i] == chunks[..i];
    } else {
      assert chunks[..i] == chunks;
    }
  }

  /** Cutting the input before a printable rest changes what it does if and only if it splits a run in a search whose first piece misses. */
  lemma CutIff(h: Host, r: Received, a: Text, b: Text)
    requires Between(r) && b != [] && AllPrintable(b)
    ensures var mid := Chunk(h, r.session, r.partialEscape, a);
      Valid(mid.session) && (Chunk(h, mid.session, mid.partialEscape, b) != Chunk(h, r.session, r.partialEscape, a + b) <==>
        Splits(mid.session, r.partialEscape + a, b) && MissedAt(h, r.session, r.partialEscape + a, b))
  {
    hide *;
    BetweenIs(r);
    var t := r.partialEscape + a;
    NextCut(h, r, a, b);
    Regroup(h, r.session, r.partialEscape, a);
    Regroup(h, r.session, r.partialEscape, a + b);
    assert r.partialEscape + (a + b) == t + b;
    if Splits(Chunk(h, r.session, r.partialEscape, a).session, t, b) { SplitIff(h, r.session, t, b); }
  }

  /** The run at the end of the input `t` is the first piece of a query whose second is `b`, and it misses. */
  ghost predicate MissedAt(h: Host, s: Session, t: Text, b: Text)
    requires Valid(s)
    decreases |t|
  {
    t != [] && var (key, n) := FirstKey(t);
      if n == |t| then Open(s) && Misses(s, s.search.value, t, b) else key != [] && MissedAt(h, Press(h, s, key), t[n..], b)
  }

  lemma {:induction false} SplitIff(h: Host, s: Session, t: Text, b: Text)
    requires Valid(s) && b != [] && AllPrintable(b)
    requires Splits(Chunk(h, s, [], t).session, t, b)
    ensures var mid := Chunk(h, s, [], t);
      Valid(mid.session) && (Chunk(h, mid.session, mid.partialEscape, b) != Chunk(h, s, [], t + b) <==> MissedAt(h, s, t, b))
    decreases |t|
  {
    hide *;
    SplitsMeans(Chunk(h, s, [], t).session, t, b);
    ChunkValid(h, s, [], t);
    ChunkStep(h, s, t);
    MissedIs(h, s, t, b);
    var (key, n) := FirstKey(t);
    if n < |t| {
      FirstKeyKept(t, b);
      LongStep(t, b);
      ChunkStep(h, s, t + b);
      SplitsTail(Chunk(h, s, [], t).session, t, b);
      SplitIff(h, Press(h, s, key), t[n..], b);
    } else {
      LastRun(t, b);
      FirstKeyJoined(t, b);
      RunKey(b);
      OneKey(h, s, t);
      OneKey(h, Press(h, s, t), b);
      OneKey(h, s, t + b);
      RunOpen(h, s, t);
      SearchCutIff(h, s, t, b);
    }
  }

  lemma SplitsMeans(s: Session, t: Text, b: Text)
    requires Splits(s, t, b)
    ensures t != [] && EndsInRun(t) && b != [] && Printable(b[0]) && Open(s)
  {
  }

  lemma MissedIs(h: Host, s: Session, t: Text, b: Text)
    requires Valid(s) && t != []
    ensures var (key, n) := FirstKey(t);
      MissedAt(h, s, t, b) <==> if n == |t| then Open(s) && Misses(s, s.search.value, t, b) else key != [] && MissedAt(h, Press(h, s, key), t[n..], b)
  {
    hide Misses, Press, FirstKey;
  }

  lemma RunKey(b: Text)
    requires b != [] && AllPrintable(b)
    ensures FirstKey(b) == (b, |b|) && !IsIncompleteEscape(b)
  {
    RunHere(b, 1, |b|);
    assert b[..|b|] == b && Printable(b[0]);
  }

  lemma LastRun(t: Text, b: Text)
    requires EndsInRun(t) && t != [] && FirstKey(t).1 == |t| && b != [] && AllPrintable(b)
    ensures Printable(t[0]) && Printable(b[0]) && AllPrintable(t) && AllPrintable(t + b) && !IsIncompleteEscape(t) && !IsIncompleteEscape(t + b)
    ensures FirstKey(t + b) == (t + b, |t + b|) && t + b != []
  {
    FirstKeyJoined(t, b);
    RunKey(b);
    hide FirstKey;
  }
}
