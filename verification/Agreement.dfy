/** The screen agrees with the editor: incremental repaints leave the row a full redraw would. */
module Agreement {
  import opened Bytes
  import opened Screen
  import opened Terminal

  // --- what the host must write -------------------------------------------------------------------

  /** Output that does not stop inside an escape sequence. */
  ghost predicate Settles(t: Text) {
    forall s: Screen :: s.mode == Ground ==> Draw(s, t).mode == Ground
  }

  ghost predicate PrintablePrompts(h: Host) {
    forall ran :: AllPrintable(h.prompt(ran))
  }

  ghost predicate PrintableCompletions(h: Host) {
    forall ran, buffer, i :: 0 <= i < |h.complete(ran, buffer).0| ==> AllPrintable(h.complete(ran, buffer).0[i])
  }

  ghost predicate SettledOutput(h: Host) {
    && (forall ran :: Settles(h.report(ran))) && (forall candidates :: Settles(h.listing(candidates))) && Settles(h.refusal)
  }

  ghost predicate WellBehaved(h: Host) {
    PrintablePrompts(h) && PrintableCompletions(h) && SettledOutput(h)
  }

  /** The text of the state is printable. */
  predicate Neat(s: Session) {
    && AllPrintable(s.buffer) && (forall i :: 0 <= i < |s.history| ==> AllPrintable(s.history[i]))
    && (s.search.Some? ==> AllPrintable(s.search.value.query) && AllPrintable(s.search.value.savedBuffer))
  }

  predicate IsKey(key: Text) {
    key != [] && (Printable(key[0]) ==> AllPrintable(key))
  }

  lemma {:induction false} KeysAreKeys(t: Text)
    ensures forall i :: 0 <= i < |Keys(t)| ==> IsKey(Keys(t)[i])
    decreases |t|
  {
    if t != [] { KeysAreKeys(t[FirstKey(t).1..]); }
  }

  /** The row is what printing `prompt + buffer` on a blank row gives, cursor at the editing position. */
  ghost predicate Shows(c: Screen, prompt: Text, buffer: Text, cursor: nat) {
    c.mode == Ground && Same(c.row, prompt + buffer) && c.col == |prompt| + cursor
  }

  /** Outside a search the screen shows the line; in a search it is only between escape sequences. */
  ghost predicate Agrees(h: Host, s: Session, c: Screen) {
    c.mode == Ground && (s.search.None? && !s.exited ==> Shows(c, PromptText(h, s), s.buffer, s.cursor))
  }

  // --- pieces of output -----------------------------------------------------------------------------

  lemma DrawNewLine(c: Screen)
    requires c.mode == Ground
    ensures Draw(c, NEW_LINE) == Screen([], 0, Ground)
  {
    assert NEW_LINE == [CR] + [LF];
    DrawStep(c, CR, [LF]);
    DrawLast(c.(col := 0), LF);
  }

  lemma DrawClearRow(c: Screen)
    requires c.mode == Ground
    ensures Draw(c, CLEAR_ROW) == Screen([], 0, Ground)
  {
    assert CLEAR_ROW == [CR] + [ESC, BRACKET, ERASE];
    DrawStep(c, CR, [ESC, BRACKET, ERASE]);
    DrawShort(c.(col := 0), ERASE);
  }

  /** Printing on a blank row. */
  lemma DrawOnBlank(prompt: Text, text: Text)
    requires AllPrintable(prompt) && AllPrintable(text)
    ensures Shows(Draw(Screen([], 0, Ground), prompt + text), prompt, text, |text|)
  {
    DrawPrintable(Screen([], 0, Ground), prompt + text);
    hide Draw;
  }

  lemma DrawPrompt(c: Screen, prompt: Text)
    requires c.mode == Ground && AllPrintable(prompt)
    ensures Shows(Draw(c, NEW_LINE + prompt), prompt, [], 0)
  {
    DrawNewLine(c);
    DrawConcat(c, NEW_LINE, prompt);
    assert prompt + [] == prompt;
    DrawOnBlank(prompt, []);
  }

  lemma DrawSetLine(c: Screen, prompt: Text, text: Text)
    requires c.mode == Ground && AllPrintable(prompt) && AllPrintable(text)
    ensures Shows(Draw(c, CLEAR_ROW + prompt + text), prompt, text, |text|)
  {
    DrawClearRow(c);
    assert CLEAR_ROW + prompt + text == CLEAR_ROW + (prompt + text);
    DrawConcat(c, CLEAR_ROW, prompt + text);
    DrawOnBlank(prompt, text);
    hide *;
  }

  /** Text over the tail of the line, then back to `cursor`. */
  lemma DrawTail(c: Screen, prompt: Text, buffer: Text, at: nat, text: Text, back: nat, after: Text)
    requires Shows(c, prompt, buffer, at) && at <= |buffer| && AllPrintable(text) && back <= |text|
    requires Same(after, buffer[..at] + text) && at + |text| >= |buffer|
    ensures Shows(Draw(c, text + if back > 0 then Sequence(back, BACK) else []), prompt, after, at + |text| - back)
  {
    DrawPrintable(c, text);
    var d := Draw(c, text);
    DrawConcat(c, text, if back > 0 then Sequence(back, BACK) else []);
    if back > 0 { DrawSequence(d, back, BACK); } else { assert text + [] == text; }
    hide Draw, Sequence;
    forall i: nat ensures Cell(d.row, i) == Cell(prompt + after, i) {
      assert Cell(c.row, i) == Cell(prompt + buffer, i);
      if i >= |prompt| { assert Cell(after, i - |prompt|) == Cell(buffer[..at] + text, i - |prompt|); }
    }
  }

  lemma SameSelf(a: Text)
    ensures Same(a, a)
  {
  }

  // --- one key at a time ----------------------------------------------------------------------------------

  /** The key's effect keeps the state printable and the screen in agreement. */
  ghost predicate Keeps(h: Host, e: Effect, c: Screen) {
    Neat(e.session) && Agrees(h, e.session, Draw(c, e.text))
  }

  lemma SilentKeeps(h: Host, s: Session, c: Screen)
    requires Neat(s) && Agrees(h, s, c)
    ensures Keeps(h, Effect(s, []), c)
  {
  }

  lemma MoveKeeps(h: Host, s: Session, cursor: nat, text: Text, c: Screen)
    requires WellBehaved(h) && Neat(s) && Agrees(h, s, c) && s.search.None? && !s.exited && s.cursor <= |s.buffer|
    requires || (cursor < s.cursor && text == Sequence(s.cursor - cursor, BACK)) || (cursor > s.cursor && text == Sequence(cursor - s.cursor, FORWARD))
             || (cursor + 1 == s.cursor && text == LEFT) || (cursor == s.cursor + 1 && text == RIGHT)
    ensures Keeps(h, Effect(s.(cursor := cursor), text), c)
  {
    if cursor < s.cursor && text == Sequence(s.cursor - cursor, BACK) {
      DrawSequence(c, s.cursor - cursor, BACK);
    } else if cursor > s.cursor && text == Sequence(cursor - s.cursor, FORWARD) {
      DrawSequence(c, cursor - s.cursor, FORWARD);
    } else if cursor < s.cursor {
      DrawShort(c, BACK);
    } else {
      DrawShort(c, FORWARD);
    }
    hide Draw, Sequence;
  }

  lemma SetLineKeeps(h: Host, s: Session, text: Text, c: Screen)
    requires PrintablePrompts(h) && Neat(s) && c.mode == Ground && AllPrintable(text)
    ensures Keeps(h, SetLine(h, s, text), c)
  {
    DrawSetLine(c, PromptText(h, s), text);
    hide Draw;
  }

  lemma InsertKeeps(h: Host, s: Session, key: Text, c: Screen)
    requires WellBehaved(h) && Neat(s) && Agrees(h, s, c) && s.search.None? && !s.exited && s.cursor <= |s.buffer| && AllPrintable(key)
    ensures var tail := s.buffer[s.cursor..];
      Keeps(h, Effect(s.(buffer := s.buffer[..s.cursor] + key + tail, cursor := s.cursor + |key|), key + tail + if tail != [] then Sequence(|tail|, BACK) else []), c)
  {
    var tail := s.buffer[s.cursor..];
    var after := s.buffer[..s.cursor] + key + tail;
    assert after == s.buffer[..s.cursor] + (key + tail);
    SameSelf(after);
    DrawTail(c, PromptText(h, s), s.buffer, s.cursor, key + tail, |tail|, after);
    hide Draw, Sequence;
  }

  lemma DeleteKeeps(h: Host, s: Session, c: Screen)
    requires WellBehaved(h) && Neat(s) && Agrees(h, s, c) && s.search.None? && !s.exited && s.cursor < |s.buffer|
    ensures var tail := s.buffer[s.cursor..];
      Keeps(h, Effect(s.(buffer := s.buffer[..s.cursor] + tail[1..]), tail[1..] + [BLANK] + Sequence(|tail|, BACK)), c)
  {
    var tail := s.buffer[s.cursor..];
    var after := s.buffer[..s.cursor] + tail[1..];
    BlankAfter(after, s.buffer[..s.cursor], tail[1..]);
    DrawTail(c, PromptText(h, s), s.buffer, s.cursor, tail[1..] + [BLANK], |tail|, after);
    hide Draw, Sequence;
  }

  lemma BlankAfter(after: Text, a: Text, b: Text)
    requires after == a + b
    ensures Same(after, a + (b + [BLANK]))
  {
  }

  lemma BackspaceKeeps(h: Host, s: Session, c: Screen)
    requires WellBehaved(h) && Neat(s) && Agrees(h, s, c) && s.search.None? && !s.exited && 0 < s.cursor <= |s.buffer|
    ensures var tail := s.buffer[s.cursor..];
      Keeps(h, Effect(s.(buffer := s.buffer[..s.cursor - 1] + tail, cursor := s.cursor - 1), [BS] + tail + [BLANK] + Sequence(|tail| + 1, BACK)), c)
  {
    var tail := s.buffer[s.cursor..];
    var at := s.cursor - 1;
    var after := s.buffer[..at] + tail;
    BlankAfter(after, s.buffer[..at], tail);
    var rest := tail + [BLANK] + Sequence(|tail| + 1, BACK);
    assert [BS] + tail + [BLANK] + Sequence(|tail| + 1, BACK) == [BS] + rest;
    DrawStep(c, BS, rest);
    var d := DrawOne(c, BS);
    assert Shows(d, PromptText(h, s), s.buffer, at);
    DrawTail(d, PromptText(h, s), s.buffer, at, tail + [BLANK], |tail| + 1, after);
    hide Draw, Sequence;
  }

  lemma InsertedKeeps(h: Host, s: Session, insert: Text, c: Screen)
    requires WellBehaved(h) && Neat(s) && Agrees(h, s, c) && s.search.None? && !s.exited && s.cursor == |s.buffer| && AllPrintable(insert)
    ensures Keeps(h, Inserted(s, insert), c)
  {
    InsertKeeps(h, s, insert, c);
    assert s.buffer[s.cursor..] == [] && s.buffer[..s.cursor] == s.buffer;
    assert s.buffer + insert + [] == s.buffer + insert && insert + [] + [] == insert;
    hide Keeps;
  }

  lemma {:induction false} PrefixPrintable(items: seq<Text>)
    requires items != [] && forall i :: 0 <= i < |items| ==> AllPrintable(items[i])
    ensures AllPrintable(CommonPrefix(items))
  {
    if |items| > 1 {
      PrefixPrintable(items[..|items| - 1]);
      ShrinkPrintable(CommonPrefix(items[..|items| - 1]), items[|items| - 1]);
    }
  }

  lemma {:induction false} ShrinkPrintable(prefix: Text, item: Text)
    requires AllPrintable(prefix)
    ensures AllPrintable(Shrink(prefix, item))
    decreases |prefix|
  {
    if !StartsWith(item, prefix) { ShrinkPrintable(prefix[..|prefix| - 1], item); }
  }

  lemma CompletionKeeps(h: Host, s: Session, c: Screen)
    requires WellBehaved(h) && Neat(s) && Agrees(h, s, c) && s.search.None? && !s.exited && s.cursor == |s.buffer|
    ensures Keeps(h, Completion(h, s), c)
  {
    var (candidates, replaceStart) := h.complete(s.history, s.buffer);
    var token := Drop(s.buffer, replaceStart);
    assert forall i :: 0 <= i < |candidates| ==> AllPrintable(candidates[i]);
    hide WellBehaved, Keeps;
    if candidates == [] {
      SilentKeeps(h, s, c);
    } else if |candidates| == 1 {
      var chosen := candidates[0];
      InsertedKeeps(h, s, Drop(chosen, |token|) + if chosen != [] && chosen[|chosen| - 1] == SLASH then [] else [BLANK], c);
    } else {
      PrefixPrintable(candidates);
      var lcp := CommonPrefix(candidates);
      if |lcp| > |token| { InsertedKeeps(h, s, lcp[|token|..], c); } else { ListingKeeps(h, s, candidates, c); }
    }
  }

  lemma ListingKeeps(h: Host, s: Session, candidates: seq<Text>, c: Screen)
    requires WellBehaved(h) && Neat(s) && c.mode == Ground && s.search.None? && s.cursor == |s.buffer|
    ensures Keeps(h, Effect(s, NEW_LINE + h.listing(candidates) + NEW_LINE + PromptText(h, s) + s.buffer), c)
  {
    var list, line := h.listing(candidates), PromptText(h, s) + s.buffer;
    assert NEW_LINE + list + NEW_LINE + PromptText(h, s) + s.buffer == NEW_LINE + (list + (NEW_LINE + line));
    DrawConcat(c, NEW_LINE, list + (NEW_LINE + line));
    DrawNewLine(c);
    var d := Draw(c, NEW_LINE);
    DrawConcat(d, list, NEW_LINE + line);
    var e := Draw(d, list);
    assert Settles(list) && e.mode == Ground;
    DrawNewLine(e);
    DrawConcat(e, NEW_LINE, line);
    DrawOnBlank(PromptText(h, s), s.buffer);
    hide Draw, Settles;
  }

  /** Output, then a fresh prompt. */
  lemma PromptKeeps(h: Host, s: Session, text: Text, c: Screen)
    requires PrintablePrompts(h) && Neat(s) && c.mode == Ground && s.buffer == [] && s.cursor == 0
    requires Draw(c, text).mode == Ground
    ensures Keeps(h, Effect(s, text + (NEW_LINE + PromptText(h, s))), c)
  {
    DrawConcat(c, text, NEW_LINE + PromptText(h, s));
    DrawPrompt(Draw(c, text), PromptText(h, s));
    hide Draw;
  }

  lemma EnterKeeps(h: Host, s: Session, c: Screen)
    requires WellBehaved(h) && Neat(s) && c.mode == Ground && s.search.None?
    ensures Keeps(h, Enter(h, s), c)
  {
    var cleared := s.(buffer := [], cursor := 0);
    var ran := s.history + [s.buffer];
    var after := cleared.(history := ran, historyIndex := |ran|);
    DrawNewLine(c);
    DrawConcat(c, NEW_LINE, h.refusal);
    DrawConcat(c, NEW_LINE, h.report(ran));
    assert Settles(h.refusal) && Settles(h.report(ran));
    assert Draw(c, NEW_LINE + h.refusal).mode == Ground && Draw(c, NEW_LINE + h.report(ran)).mode == Ground;
    hide Draw, Trim, Settles, EXIT, LOGOUT;
    PromptKeeps(h, cleared, NEW_LINE, c);
    PromptKeeps(h, cleared, NEW_LINE + h.refusal, c);
    PromptKeeps(h, after, NEW_LINE + h.report(ran), c);
  }

  lemma LabelPrintable()
    ensures AllPrintable(SEARCH_LABEL) && AllPrintable(FAILING)
  {
  }

  lemma SearchingKeeps(h: Host, s: Session, search: Search, c: Screen)
    requires Neat(s) && c.mode == Ground && AllPrintable(search.query) && AllPrintable(search.savedBuffer)
    ensures Keeps(h, Searching(s, search), c)
  {
    hide *;
    var line := SearchText(s.history, search);
    SearchLineIs(s, search);
    DrawConcat(c, CLEAR_ROW, line);
    DrawClearRow(c);
    LineDrawn(line);
    SearchingIs(h, s, search, c);
  }

  /** The search prompt, the query and the match. */
  function SearchText(history: seq<Text>, search: Search): Text {
    [40] + (if search.query != [] && search.matchIndex < 0 then FAILING else []) + SEARCH_LABEL + [41, 96] + search.query + [39, 58, 32]
      + Terminal.Shown(history, search)
  }

  lemma SearchLineIs(s: Session, search: Search)
    requires Neat(s) && AllPrintable(search.query)
    ensures SearchLine(s.history, search) == CLEAR_ROW + SearchText(s.history, search) && AllPrintable(SearchText(s.history, search))
  {
    LabelPrintable();
    hide SEARCH_LABEL, FAILING, CLEAR_ROW;
    var lead := [40] + (if search.query != [] && search.matchIndex < 0 then FAILING else []) + SEARCH_LABEL + [41, 96];
    assert AllPrintable(lead);
    assert AllPrintable(lead + search.query + [39, 58, 32]);
  }

  lemma LineDrawn(line: Text)
    requires AllPrintable(line)
    ensures Draw(Screen([], 0, Ground), line).mode == Ground
  {
    DrawPrintable(Screen([], 0, Ground), line);
    hide Draw;
  }

  lemma SearchingIs(h: Host, s: Session, search: Search, c: Screen)
    requires Neat(s) && AllPrintable(search.query) && AllPrintable(search.savedBuffer) && Draw(c, SearchLine(s.history, search)).mode == Ground
    ensures Keeps(h, Searching(s, search), c)
  {
    hide Draw, SearchLine, AllPrintable;
  }

  lemma ExitKeeps(h: Host, s: Session, search: Search, c: Screen)
    requires PrintablePrompts(h) && Neat(s) && c.mode == Ground && s.search == Some(search)
    ensures Keeps(h, ExitSearch(h, s, search), c)
  {
    SetLineKeeps(h, s.(search := None), if 0 <= search.matchIndex < |s.history| then s.history[search.matchIndex] else search.savedBuffer, c);
    hide SetLine, Keeps;
  }

  lemma SearchKeyKeeps(h: Host, s: Session, search: Search, key: Text, c: Screen)
    requires PrintablePrompts(h) && Neat(s) && c.mode == Ground && s.search == Some(search) && IsKey(key)
    ensures Keeps(h, SearchKey(h, s, search, key), c)
  {
    ExitKeeps(h, s, search, c);
    hide Keeps, FindMatch, ExitSearch, Searching;
    var last := |s.history| - 1;
    if key == [CTRL_R] {
      var i := FindMatch(s.history, search.query, if search.matchIndex >= 0 then search.matchIndex - 1 else last);
      SearchingKeeps(h, s, if i >= 0 then search.(matchIndex := i) else search, c);
    } else if key[0] == DEL {
      var query := if search.query == [] then [] else search.query[..|search.query| - 1];
      SearchingKeeps(h, s, search.(query := query, matchIndex := FindMatch(s.history, query, last)), c);
    } else if key[0] >= 32 {
      var query := search.query + key;
      SearchingKeeps(h, s, search.(query := query, matchIndex := FindMatch(s.history, query, if search.matchIndex >= 0 then search.matchIndex else last)), c);
    }
  }

  lemma LineMoves(h: Host, s: Session, key: Text, c: Screen)
    requires WellBehaved(h) && Valid(s) && Neat(s) && Agrees(h, s, c) && s.search.None? && !s.exited
    requires key == [CTRL_A] || key == HOME || key == HOME_VT || key == [CTRL_E] || key == END || key == END_VT || key == LEFT || key == RIGHT
    ensures Keeps(h, EditKey(h, s, key), c)
  {
    SilentKeeps(h, s, c);
    hide Keeps, WellBehaved, Neat, Agrees, Sequence;
    if key == [CTRL_A] || key == HOME || key == HOME_VT {
      if s.cursor > 0 { MoveKeeps(h, s, 0, Sequence(s.cursor, BACK), c); } else { assert s.(cursor := 0) == s; }
    } else if key == [CTRL_E] || key == END || key == END_VT {
      if s.cursor < |s.buffer| { MoveKeeps(h, s, |s.buffer|, Sequence(|s.buffer| - s.cursor, FORWARD), c); } else { assert s.(cursor := |s.buffer|) == s; }
    } else if key == LEFT {
      if s.cursor > 0 { MoveKeeps(h, s, s.cursor - 1, LEFT, c); }
    } else {
      if s.cursor < |s.buffer| { MoveKeeps(h, s, s.cursor + 1, RIGHT, c); }
    }
  }

  lemma EditKeeps(h: Host, s: Session, key: Text, c: Screen)
    requires WellBehaved(h) && Valid(s) && Neat(s) && Agrees(h, s, c) && s.search.None? && !s.exited && IsKey(key)
    ensures Keeps(h, EditKey(h, s, key), c)
  {
    SilentKeeps(h, s, c);
    if key == [CTRL_R] {
      SearchingKeeps(h, s, Search([], -1, s.buffer), c);
    } else if key == [CTRL_A] || key == HOME || key == HOME_VT || key == [CTRL_E] || key == END || key == END_VT || key == LEFT || key == RIGHT {
      LineMoves(h, s, key, c);
    } else if key == DELETE {
      if s.cursor < |s.buffer| { DeleteKeeps(h, s, c); }
    } else if key == [TAB] {
      if s.cursor == |s.buffer| { CompletionKeeps(h, s, c); }
    } else if key == UP {
      if s.historyIndex > 0 { SetLineKeeps(h, s.(historyIndex := s.historyIndex - 1), s.history[s.historyIndex - 1], c); }
    } else if key == DOWN {
      if s.historyIndex < |s.history| {
        var i := s.historyIndex + 1;
        SetLineKeeps(h, s.(historyIndex := i), if i == |s.history| then [] else s.history[i], c);
      }
    } else if key[0] == CR {
      EnterKeeps(h, s, c);
    } else if key[0] == DEL {
      if s.cursor > 0 { BackspaceKeeps(h, s, c); }
    } else if key[0] >= 32 {
      InsertKeeps(h, s, key, c);
    }
    hide Keeps, WellBehaved, Agrees, Neat, Completion, Enter, SetLine, Searching, Sequence;
  }

  lemma ThenKeeps(h: Host, a: Effect, b: Effect, c: Screen)
    requires Keeps(h, b, Draw(c, a.text))
    ensures Keeps(h, Then(a, b), c)
  {
    DrawConcat(c, a.text, b.text);
  }

  /** One key, whatever the state: the screen still agrees. */
  lemma KeyKeeps(h: Host, s: Session, key: Text, c: Screen)
    requires WellBehaved(h) && Valid(s) && Neat(s) && Agrees(h, s, c) && IsKey(key)
    ensures Keeps(h, Key(h, s, key), c)
  {
    SilentKeeps(h, s, c);
    if s.exited {
    } else if key == [CTRL_C] {
      DrawPrintable(c, CARET_C);
      PromptKeeps(h, s.(search := None, buffer := [], cursor := 0), CARET_C, c);
      hide *;
    } else if key == [CTRL_D] && h.exits && s.buffer == [] && s.search.None? {
      DrawNewLine(c);
    } else if s.search.None? {
      EditKeeps(h, s, key, c);
    } else if key == [CR] {
      var search := s.search.value;
      ExitKeeps(h, s, search, c);
      var adopted := ExitSearch(h, s, search);
      ExitIsValid(h, s, search);
      EditKeeps(h, adopted.session, key, Draw(c, adopted.text));
      ThenKeeps(h, adopted, EditKey(h, adopted.session, key), c);
    } else {
      SearchKeyKeeps(h, s, s.search.value, key, c);
    }
    hide Keeps, WellBehaved, EditKey, SearchKey, ExitSearch;
  }

  // --- whole sessions ------------------------------------------------------------------------------------------

  const START: Session := Session([], 0, [], 0, None, false)

  /** From the banner on, over every sequence of keys: prompt, buffer and cursor are what the screen shows. */
  lemma {:induction false} ScreenAgrees(h: Host, banner: Text, keys: seq<Text>, c: Screen)
    requires WellBehaved(h) && Settles(banner) && c.mode == Ground
    requires forall i :: 0 <= i < |keys| ==> keys[i] != [] && IsKey(keys[i])
    ensures var e := FeedKeys(h, START, keys);
      Valid(e.session) && Neat(e.session) && Agrees(h, e.session, Draw(c, banner + (NEW_LINE + h.prompt([])) + e.text))
    decreases |keys|
  {
    hide *;
    StartValid();
    var written := banner + (NEW_LINE + h.prompt([]));
    if keys == [] {
      StartAgrees(h, banner, c);
      assert FeedKeys(h, START, []) == Effect(START, []) by { NoKeys(h, START); }
      assert written + [] == written;
    } else {
      var n := |keys| - 1;
      ScreenAgrees(h, banner, keys[..n], c);
      LastKey(h, START, keys);
      StepAgrees(h, written, FeedKeys(h, START, keys[..n]), keys[n], c);
    }
  }

  lemma StepAgrees(h: Host, written: Text, e: Effect, key: Text, c: Screen)
    requires WellBehaved(h) && Valid(e.session) && Neat(e.session) && Agrees(h, e.session, Draw(c, written + e.text)) && key != [] && IsKey(key)
    ensures var k := Key(h, e.session, key);
      Valid(k.session) && Neat(k.session) && Agrees(h, k.session, Draw(c, written + (e.text + k.text)))
  {
    hide *;
    var k := Key(h, e.session, key);
    KeyKeeps(h, e.session, key, Draw(c, written + e.text));
    KeyKeepsValid(h, e.session, key);
    KeepsMeans(h, k, Draw(c, written + e.text));
    DrawConcat(c, written + e.text, k.text);
    assert written + e.text + k.text == written + (e.text + k.text);
  }

  lemma StartValid()
    ensures Valid(START)
  {
  }

  lemma NoKeys(h: Host, s: Session)
    requires Valid(s)
    ensures FeedKeys(h, s, []) == Effect(s, [])
  {
  }

  lemma LastKey(h: Host, s: Session, keys: seq<Text>)
    requires Valid(s) && keys != [] && forall i :: 0 <= i < |keys| ==> keys[i] != []
    ensures var e := FeedKeys(h, s, keys[..|keys| - 1]);
      && Valid(e.session) && FeedKeys(h, s, keys).session == Key(h, e.session, keys[|keys| - 1]).session
      && FeedKeys(h, s, keys).text == e.text + Key(h, e.session, keys[|keys| - 1]).text
  {
    hide Key;
  }

  lemma KeepsMeans(h: Host, e: Effect, c: Screen)
    requires Keeps(h, e, c)
    ensures Neat(e.session) && Agrees(h, e.session, Draw(c, e.text))
  {
  }

  lemma StartAgrees(h: Host, banner: Text, c: Screen)
    requires WellBehaved(h) && Settles(banner) && c.mode == Ground
    ensures Valid(START) && Neat(START) && Agrees(h, START, Draw(c, banner + (NEW_LINE + h.prompt([]))))
  {
    PromptKeeps(h, START, banner, c);
    hide Draw;
  }
}
