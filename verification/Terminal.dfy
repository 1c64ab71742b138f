/** The terminal line discipline: keys in, buffer and history changed, text written. */
module Terminal {
  import opened Bytes
  import opened Screen

  // --- keys --------------------------------------------------------------------------------------

  const CTRL_A: Code := 1
  const CTRL_C: Code := 3
  const CTRL_D: Code := 4
  const CTRL_E: Code := 5
  const CTRL_R: Code := 18

  const HOME: Text := [ESC, BRACKET, 72]
  const HOME_VT: Text := [ESC, BRACKET, 49, 126]
  const END: Text := [ESC, BRACKET, 70]
  const END_VT: Text := [ESC, BRACKET, 52, 126]
  const LEFT: Text := [ESC, BRACKET, 68]
  const RIGHT: Text := [ESC, BRACKET, 67]
  const UP: Text := [ESC, BRACKET, 65]
  const DOWN: Text := [ESC, BRACKET, 66]
  const DELETE: Text := [ESC, BRACKET, 51, 126]

  /** First final byte at or after `j`, or the end. */
  function FinalAt(t: Text, j: nat): (k: nat)
    requires j <= |t|
    ensures j <= k <= |t| && (forall i :: j <= i < k ==> !IsFinal(t[i])) && (k < |t| ==> IsFinal(t[k]))
    decreases |t| - j
  {
    if j == |t| || IsFinal(t[j]) then j else FinalAt(t, j + 1)
  }

  /** First unprintable unit at or after `j`, or the end. */
  function RunEnd(t: Text, j: nat): (k: nat)
    requires j <= |t|
    ensures j <= k <= |t| && (forall i :: j <= i < k ==> Printable(t[i])) && (k < |t| ==> !Printable(t[k]))
    decreases |t| - j
  {
    if j == |t| || !Printable(t[j]) then j else RunEnd(t, j + 1)
  }

  predicate OpensCsi(t: Text) {
    |t| >= 2 && t[0] == ESC && t[1] == BRACKET
  }

  /** The first key of some input, and how much of the input it takes. */
  function FirstKey(t: Text): (r: (Text, nat))
    requires t != []
    ensures 0 < r.1 <= |t|
  {
    if OpensCsi(t) then
      var j := FinalAt(t, 2);
      if j < |t| then (t[..j + 1], j + 1) else (t, |t|)
    else if t[0] == CR || t[0] == LF then ([CR], if t[0] == CR && |t| > 1 && t[1] == LF then 2 else 1)
    else if !Printable(t[0]) then ([t[0]], 1)
    else var j := RunEnd(t, 1); (t[..j], j)
  }

  function Keys(t: Text): seq<Text>
    decreases |t|
  {
    if t == [] then [] else [FirstKey(t).0] + Keys(t[FirstKey(t).1..])
  }

  /** The first key of `data[i..]`, and where the next one starts. */
  method NextKey(data: Text, i: nat) returns (key: Text, next: nat)
    requires i < |data|
    ensures i < next <= |data| && FirstKey(data[i..]) == (key, next - i)
  {
    ghost var rest := data[i..];
    var ch := data[i];
    if ch == ESC && i + 1 < |data| && data[i + 1] == BRACKET {
      var j := i + 2;
      while j < |data| && !IsFinal(data[j])
        invariant i + 2 <= j <= |data| && forall k :: i + 2 <= k < j ==> !IsFinal(data[k])
      {
        j := j + 1;
      }
      next := if j + 1 < |data| then j + 1 else |data|;
      FinalHere(rest, 2, j - i);
      key := data[i..next];
      assert OpensCsi(rest) && key == rest[..next - i] && rest[..|rest|] == rest;
      assert FirstKey(rest) == (key, next - i);
    } else if ch == CR || ch == LF {
      key := [CR];
      next := if ch == CR && i + 1 < |data| && data[i + 1] == LF then i + 2 else i + 1;
      assert FirstKey(rest) == (key, next - i);
    } else if ch < 32 || ch == DEL {
      key := [ch];
      next := i + 1;
      assert FirstKey(rest) == (key, next - i);
    } else {
      var j := i + 1;
      while j < |data| && data[j] >= 32 && data[j] != DEL && data[j] != ESC
        invariant i + 1 <= j <= |data| && forall k :: i + 1 <= k < j ==> Printable(data[k])
      {
        j := j + 1;
      }
      RunHere(rest, 1, j - i);
      key := data[i..j];
      next := j;
      assert !OpensCsi(rest) && key == rest[..j - i];
      assert FirstKey(rest) == (key, next - i);
    }
  }

  method SplitKeys(data: Text) returns (keys: seq<Text>)
    ensures keys == Keys(data)
  {
    hide FirstKey;
    keys := [];
    var i := 0;
    while i < |data|
      invariant 0 <= i <= |data| && keys + Keys(data[i..]) == Keys(data)
    {
      var key, next := NextKey(data, i);
      assert data[i..][next - i..] == data[next..];
      assert keys + ([key] + Keys(data[next..])) == keys + [key] + Keys(data[next..]);
      keys := keys + [key];
      i := next;
    }
  }

  lemma {:induction false} FinalHere(t: Text, j: nat, k: nat)
    requires j <= k <= |t| && (forall i :: j <= i < k ==> !IsFinal(t[i])) && (k < |t| ==> IsFinal(t[k]))
    ensures FinalAt(t, j) == k
    decreases k - j
  {
    if j < k { FinalHere(t, j + 1, k); }
  }

  lemma {:induction false} RunHere(t: Text, j: nat, k: nat)
    requires j <= k <= |t| && (forall i :: j <= i < k ==> Printable(t[i])) && (k < |t| ==> !Printable(t[k]))
    ensures RunEnd(t, j) == k
    decreases k - j
  {
    if j < k { RunHere(t, j + 1, k); }
  }

  /** A trailing escape whose rest is in the next chunk. */
  predicate IsIncompleteEscape(key: Text) {
    key == [ESC] || (OpensCsi(key) && !(|key| > 2 && IsFinal(key[|key| - 1])))
  }

  // --- state ------------------------------------------------------------------------------------------

  datatype Search = Search(query: Text, matchIndex: int, savedBuffer: Text)

  datatype Session = Session(buffer: Text, cursor: nat, history: seq<Text>, historyIndex: nat, search: Option<Search>, exited: bool)

  /** The sandbox and the host's options; a command's effect depends on the commands run so far. */
  datatype Host = Host(
    prompt: seq<Text> -> Text,
    complete: (seq<Text>, Text) -> (seq<Text>, nat),
    listing: seq<Text> -> Text,
    report: seq<Text> -> Text,
    refusal: Text,
    readOnly: bool,
    exits: bool)

  /** The next state and what is written. */
  datatype Effect = Effect(session: Session, text: Text)

  const NEW_LINE: Text := [CR, LF]
  const CLEAR_ROW: Text := [CR, ESC, BRACKET, ERASE]

  function PromptText(h: Host, s: Session): Text {
    h.prompt(s.history)
  }

  function SetLine(h: Host, s: Session, text: Text): Effect {
    Effect(s.(buffer := text, cursor := |text|), CLEAR_ROW + PromptText(h, s) + text)
  }

  // --- reverse search ------------------------------------------------------------------------------------

  predicate Includes(t: Text, q: Text) {
    exists k :: 0 <= k <= |t| && StartsWith(Drop(t, k), q)
  }

  function FindDown(history: seq<Text>, query: Text, from: int): (i: int)
    requires from < |history|
    ensures -1 <= i <= from || i == -1
    decreases from
  {
    if from < 0 then -1 else if Includes(history[from], query) then from else FindDown(history, query, from - 1)
  }

  function FindMatch(history: seq<Text>, query: Text, from: int): (i: int)
    ensures -1 <= i < |history|
  {
    if query == [] then -1 else FindDown(history, query, if from < |history| then from else |history| - 1)
  }

  const SEARCH_LABEL: Text := [114, 101, 118, 101, 114, 115, 101, 45, 105, 45, 115, 101, 97, 114, 99, 104]
  const FAILING: Text := [102, 97, 105, 108, 105, 110, 103, 32]

  function Shown(history: seq<Text>, search: Search): Text {
    if 0 <= search.matchIndex < |history| then history[search.matchIndex] else []
  }

  function SearchLine(history: seq<Text>, search: Search): Text {
    CLEAR_ROW + [40] + (if search.query != [] && search.matchIndex < 0 then FAILING else []) + SEARCH_LABEL + [41, 96] + search.query + [39, 58, 32] + Shown(history, search)
  }

  function Searching(s: Session, search: Search): Effect {
    Effect(s.(search := Some(search)), SearchLine(s.history, search))
  }

  function ExitSearch(h: Host, s: Session, search: Search): Effect {
    SetLine(h, s.(search := None), if 0 <= search.matchIndex < |s.history| then s.history[search.matchIndex] else search.savedBuffer)
  }

  /** Any key but Enter while searching. */
  function SearchKey(h: Host, s: Session, search: Search, key: Text): Effect
    requires key != []
  {
    var last := |s.history| - 1;
    if key == [CTRL_R] then
      var i := FindMatch(s.history, search.query, if search.matchIndex >= 0 then search.matchIndex - 1 else last);
      Searching(s, if i >= 0 then search.(matchIndex := i) else search)
    else if key[0] == DEL then
      var query := if search.query == [] then [] else search.query[..|search.query| - 1];
      Searching(s, search.(query := query, matchIndex := FindMatch(s.history, query, last)))
    else if key[0] < 32 then ExitSearch(h, s, search)
    else
      var query := search.query + key;
      Searching(s, search.(query := query, matchIndex := FindMatch(s.history, query, if search.matchIndex >= 0 then search.matchIndex else last)))
  }

  // --- editing ---------------------------------------------------------------------------------------------

  function Drop(t: Text, n: nat): Text {
    if n <= |t| then t[n..] else []
  }

  predicate StartsWith(t: Text, p: Text) {
    |p| <= |t| && t[..|p|] == p
  }

  function Shrink(prefix: Text, item: Text): Text
    decreases |prefix|
  {
    if StartsWith(item, prefix) then prefix else Shrink(prefix[..|prefix| - 1], item)
  }

  function CommonPrefix(items: seq<Text>): Text
    requires items != []
  {
    if |items| == 1 then items[0] else Shrink(CommonPrefix(items[..|items| - 1]), items[|items| - 1])
  }

  const SLASH: Code := 47

  function Completion(h: Host, s: Session): Effect {
    var (candidates, replaceStart) := h.complete(s.history, s.buffer);
    var token := Drop(s.buffer, replaceStart);
    if candidates == [] then Effect(s, [])
    else if |candidates| == 1 then
      var chosen := candidates[0];
      Inserted(s, Drop(chosen, |token|) + if chosen != [] && chosen[|chosen| - 1] == SLASH then [] else [BLANK])
    else
      var lcp := CommonPrefix(candidates);
      if |lcp| > |token| then Inserted(s, lcp[|token|..])
      else Effect(s, NEW_LINE + h.listing(candidates) + NEW_LINE + PromptText(h, s) + s.buffer)
  }

  function Inserted(s: Session, insert: Text): Effect {
    Effect(s.(buffer := s.buffer + insert, cursor := |s.buffer + insert|), insert)
  }

  predicate IsSpace(c: Code) {
    9 <= c <= 13 || c == 32 || c == 160 || c == 0x1680 || 0x2000 <= c <= 0x200a || c in {0x2028, 0x2029, 0x202f, 0x205f, 0x3000, 0xfeff}
  }

  function TrimLeft(t: Text): Text {
    if t == [] || !IsSpace(t[0]) then t else TrimLeft(t[1..])
  }

  function TrimRight(t: Text): Text {
    if t == [] || !IsSpace(t[|t| - 1]) then t else TrimRight(t[..|t| - 1])
  }

  function Trim(t: Text): Text { TrimRight(TrimLeft(t)) }

  const EXIT: Text := [101, 120, 105, 116]
  const LOGOUT: Text := [108, 111, 103, 111, 117, 116]

  function Enter(h: Host, s: Session): Effect {
    var cmd := s.buffer;
    var cleared := s.(buffer := [], cursor := 0);
    if Trim(cmd) == [] then Effect(cleared, NEW_LINE + (NEW_LINE + PromptText(h, s)))
    else if h.exits && (Trim(cmd) == EXIT || Trim(cmd) == LOGOUT) then Effect(cleared.(exited := true), NEW_LINE)
    else if h.readOnly then Effect(cleared, NEW_LINE + h.refusal + (NEW_LINE + PromptText(h, s)))
    else
      var ran := s.history + [cmd];
      var after := cleared.(history := ran, historyIndex := |ran|);
      Effect(after, NEW_LINE + h.report(ran) + (NEW_LINE + PromptText(h, after)))
  }

  /** A key outside reverse search. */
  function EditKey(h: Host, s: Session, key: Text): Effect
    requires key != [] && s.cursor <= |s.buffer| && s.historyIndex <= |s.history|
  {
    var code := key[0];
    var tail := s.buffer[s.cursor..];
    if key == [CTRL_R] then Searching(s, Search([], -1, s.buffer))
    else if key == [CTRL_A] || key == HOME || key == HOME_VT then
      Effect(s.(cursor := 0), if s.cursor > 0 then Sequence(s.cursor, BACK) else [])
    else if key == [CTRL_E] || key == END || key == END_VT then
      Effect(s.(cursor := |s.buffer|), if |tail| > 0 then Sequence(|tail|, FORWARD) else [])
    else if key == LEFT then (if s.cursor > 0 then Effect(s.(cursor := s.cursor - 1), LEFT) else Effect(s, []))
    else if key == RIGHT then (if s.cursor < |s.buffer| then Effect(s.(cursor := s.cursor + 1), RIGHT) else Effect(s, []))
    else if key == DELETE then
      (if s.cursor < |s.buffer| then
         Effect(s.(buffer := s.buffer[..s.cursor] + tail[1..]), tail[1..] + [BLANK] + Sequence(|tail|, BACK))
       else Effect(s, []))
    else if key == [TAB] then
      (if s.buffer == [] || s.cursor != |s.buffer| then Effect(s, []) else Completion(h, s))
    else if key == UP then
      (if s.historyIndex > 0 then SetLine(h, s.(historyIndex := s.historyIndex - 1), s.history[s.historyIndex - 1]) else Effect(s, []))
    else if key == DOWN then
      (if s.historyIndex < |s.history| then
         var i := s.historyIndex + 1;
         SetLine(h, s.(historyIndex := i), if i == |s.history| then [] else s.history[i])
       else Effect(s, []))
    else if code == CR then Enter(h, s)
    else if code == DEL then
      (if s.cursor > 0 then
         Effect(s.(buffer := s.buffer[..s.cursor - 1] + tail, cursor := s.cursor - 1), [BS] + tail + [BLANK] + Sequence(|tail| + 1, BACK))
       else Effect(s, []))
    else if code < 32 then Effect(s, [])
    else
      Effect(s.(buffer := s.buffer[..s.cursor] + key + tail, cursor := s.cursor + |key|),
             key + tail + if tail != [] then Sequence(|tail|, BACK) else [])
  }

  predicate Valid(s: Session) {
    && s.cursor <= |s.buffer| && s.historyIndex <= |s.history|
    && (s.search.Some? ==> -1 <= s.search.value.matchIndex < |s.history|)
  }

  function Then(a: Effect, b: Effect): Effect {
    Effect(b.session, a.text + b.text)
  }

  const CARET_C: Text := [94, 67]

  /** What one key does while no command is running. */
  function Key(h: Host, s: Session, key: Text): Effect
    requires key != [] && Valid(s)
  {
    if s.exited then Effect(s, [])
    else if key == [CTRL_C] then
      Effect(s.(search := None, buffer := [], cursor := 0), CARET_C + (NEW_LINE + PromptText(h, s)))
    else if key == [CTRL_D] && h.exits && s.buffer == [] && s.search.None? then Effect(s.(exited := true), NEW_LINE)
    else match s.search
      case None => EditKey(h, s, key)
      case Some(search) =>
        if key == [CR] then
          var adopted := ExitSearch(h, s, search);
          Then(adopted, EditKey(h, adopted.session, key))
        else SearchKey(h, s, search, key)
  }

  /** Keys fed one after the other. */
  function FeedKeys(h: Host, s: Session, keys: seq<Text>): Effect
    requires Valid(s) && forall i :: 0 <= i < |keys| ==> keys[i] != []
    ensures Valid(FeedKeys(h, s, keys).session)
  {
    if keys == [] then Effect(s, [])
    else
      var before := FeedKeys(h, s, keys[..|keys| - 1]);
      KeyKeepsValid(h, before.session, keys[|keys| - 1]);
      Then(before, Key(h, before.session, keys[|keys| - 1]))
  }

  /** The cursor stays in the buffer and the history index in the history, in a search and out of it. */
  lemma KeyKeepsValid(h: Host, s: Session, key: Text)
    requires key != [] && Valid(s)
    ensures Valid(Key(h, s, key).session)
  {
    hide FindMatch, Trim, CommonPrefix, Sequence, SearchLine;
    if s.search.Some? {
      var e := ExitSearch(h, s, s.search.value);
      assert Valid(e.session);
      EditKeepsValid(h, e.session, key);
      SearchKeepsValid(h, s, s.search.value, key);
    } else {
      EditKeepsValid(h, s, key);
    }
    hide EditKey, SearchKey, ExitSearch;
  }

  lemma EditKeepsValid(h: Host, s: Session, key: Text)
    requires key != [] && Valid(s) && s.search.None?
    ensures Valid(EditKey(h, s, key).session)
  {
    hide Trim, CommonPrefix, Sequence, SearchLine;
  }

  lemma SearchKeepsValid(h: Host, s: Session, search: Search, key: Text)
    requires key != [] && Valid(s) && -1 <= search.matchIndex < |s.history|
    ensures Valid(SearchKey(h, s, search, key).session)
  {
    hide FindMatch, SearchLine;
  }

  // --- the session object ------------------------------------------------------------------------------------

  class TerminalSession {
    const host: Host
    var buffer: Text
    var cursor: nat
    var history: seq<Text>
    var historyIndex: nat
    var search: Option<Search>
    var exited: bool
    var partialEscape: Text
    /** Everything passed to `io.write`. */
    var written: Text

    function State(): Session
      reads this
    {
      Session(buffer, cursor, history, historyIndex, search, exited)
    }

    predicate Ready()
      reads this
    {
      Valid(State())
    }

    constructor (h: Host, banner: Text)
      ensures Ready() && host == h && State() == Session([], 0, [], 0, None, false) && partialEscape == []
      ensures written == banner + (NEW_LINE + h.prompt([]))
    {
      host := h;
      buffer, cursor, history, historyIndex, search, exited, partialEscape := [], 0, [], 0, None, false, [];
      written := banner + (NEW_LINE + h.prompt([]));
    }

    method Write(text: Text)
      modifies this`written
      ensures written == old(written) + text
    {
      written := written + text;
    }

    method Prompt()
      modifies this`written
      ensures written == old(written) + (NEW_LINE + host.prompt(history))
    {
      Write(NEW_LINE + host.prompt(history));
    }

    method ReplaceLine(text: Text)
      modifies this`buffer, this`cursor, this`written
      ensures Effect(State(), written) == Then(Effect(old(State()), old(written)), SetLine(host, old(State()), text))
    {
      buffer := text;
      cursor := |text|;
      Write(CLEAR_ROW + host.prompt(history) + text);
    }

    /** The newest entry at or before `from` that includes the query. */
    method Match(query: Text, from: int) returns (i: int)
      ensures i == FindMatch(history, query, from)
    {
      if query == [] { return -1; }
      i := if from < |history| then from else |history| - 1;
      ghost var start := i;
      while i >= 0
        invariant i < |history| && (i < 0 ==> FindDown(history, query, start) == -1) && (i >= 0 ==> FindDown(history, query, start) == FindDown(history, query, i))
      {
        if Includes(history[i], query) { return; }
        i := i - 1;
      }
      i := -1;
    }

    method RenderSearch()
      requires search.Some?
      modifies this`written
      ensures written == old(written) + SearchLine(history, search.value)
    {
      Write(SearchLine(history, search.value));
    }

    method LeaveSearch()
      requires Ready() && search.Some?
      modifies this`buffer, this`cursor, this`search, this`written
      ensures Effect(State(), written) == Then(Effect(old(State()), old(written)), ExitSearch(host, old(State()), old(search).value))
    {
      var s := search.value;
      search := None;
      ReplaceLine(if s.matchIndex >= 0 then history[s.matchIndex] else s.savedBuffer);
    }

    method HandleSearchKey(data: Text) returns (goOn: bool)
      requires data != [] && Ready() && search.Some?
      modifies this
      ensures goOn <==> data == [CR]
      ensures Effect(State(), written) == Then(Effect(old(State()), old(written)),
        if goOn then ExitSearch(host, old(State()), old(search).value) else SearchKey(host, old(State()), old(search).value, data))
      ensures partialEscape == old(partialEscape)
    {
      hide FindMatch, SearchLine;
      var s := search.value;
      if data == [CR] {
        LeaveSearch();
        return true;
      }
      if data == [CTRL_R] {
        var idx := Match(s.query, if s.matchIndex >= 0 then s.matchIndex - 1 else |history| - 1);
        if idx >= 0 { search := Some(s.(matchIndex := idx)); }
        RenderSearch();
        return false;
      }
      if data[0] == DEL {
        var query := if s.query == [] then [] else s.query[..|s.query| - 1];
        var idx := Match(query, |history| - 1);
        search := Some(s.(query := query, matchIndex := idx));
        RenderSearch();
        return false;
      }
      if data[0] < 32 {
        LeaveSearch();
        return false;
      }
      var query := s.query + data;
      var idx := Match(query, if s.matchIndex >= 0 then s.matchIndex else |history| - 1);
      search := Some(s.(query := query, matchIndex := idx));
      RenderSearch();
      return false;
    }
  
    method Complete()
      requires Ready() && buffer != [] && cursor == |buffer|
      modifies this`buffer, this`cursor, this`written
      ensures Effect(State(), written) == Then(Effect(old(State()), old(written)), Completion(host, old(State())))
    {
      var (candidates, replaceStart) := host.complete(history, buffer);
      if |candidates| == 0 { return; }
      var token := Drop(buffer, replaceStart);
      if |candidates| == 1 {
        var chosen := candidates[0];
        var suffix: Text := if chosen != [] && chosen[|chosen| - 1] == SLASH then [] else [BLANK];
        var insert := Drop(chosen, |token|) + suffix;
        buffer := buffer + insert;
        cursor := |buffer|;
        Write(insert);
      } else {
        var lcp := LongestPrefix(candidates);
        if |lcp| > |token| {
          var insert := lcp[|token|..];
          buffer := buffer + insert;
          cursor := |buffer|;
          Write(insert);
        } else {
          Write(NEW_LINE + host.listing(candidates) + NEW_LINE + host.prompt(history) + buffer);
        }
      }
    }

    method RunLine()
      requires Ready()
      modifies this`buffer, this`cursor, this`history, this`historyIndex, this`exited, this`written
      ensures Effect(State(), written) == Then(Effect(old(State()), old(written)), Enter(host, old(State())))
    {
      hide Trim;
      ghost var start := written;
      Write(NEW_LINE);
      var cmd := buffer;
      buffer := [];
      cursor := 0;
      if Trim(cmd) != [] {
        if host.exits && (Trim(cmd) == EXIT || Trim(cmd) == LOGOUT) {
          exited := true;
          return;
        }
        if host.readOnly {
          Write(host.refusal);
          Prompt();
          assert written == start + (NEW_LINE + host.refusal + (NEW_LINE + host.prompt(history)));
          return;
        }
        history := history + [cmd];
        historyIndex := |history|;
        Write(host.report(history));
        Prompt();
        assert written == start + (NEW_LINE + host.report(history) + (NEW_LINE + host.prompt(history)));
        return;
      }
      Prompt();
    }

    method HandleKey(data: Text)
      requires data != [] && Ready()
      modifies this
      ensures Ready() && Effect(State(), written) == Then(Effect(old(State()), old(written)), Key(host, old(State()), data))
      ensures partialEscape == old(partialEscape)
    {
      KeyKeepsValid(host, State(), data);
      hide EditKey, SearchKey, ExitSearch;
      if exited { return; }
      if data == [CTRL_C] {
        search := None;
        Write(CARET_C);
        buffer := [];
        cursor := 0;
        Prompt();
        return;
      }
      if data == [CTRL_D] && host.exits && buffer == [] && search.None? {
        Write(NEW_LINE);
        exited := true;
        return;
      }
      if search.Some? {
        ExitIsValid(host, State(), search.value);
        var goOn := HandleSearchKey(data);
        if !goOn { return; }
      }
      HandleEditKey(data);
    }

    method HandleEditKey(data: Text)
      requires data != [] && Ready() && search.None?
      modifies this
      ensures Effect(State(), written) == Then(Effect(old(State()), old(written)), EditKey(host, old(State()), data))
      ensures partialEscape == old(partialEscape)
    {
      hide Completion, Enter, Sequence, SearchLine;
      var code := data[0];
      if data == [CTRL_R] {
        search := Some(Search([], -1, buffer));
        RenderSearch();
      } else if data == [CTRL_A] || data == HOME || data == HOME_VT {
        if cursor > 0 { Write(Sequence(cursor, BACK)); }
        cursor := 0;
      } else if data == [CTRL_E] || data == END || data == END_VT {
        var n := |buffer| - cursor;
        if n > 0 { Write(Sequence(n, FORWARD)); }
        cursor := |buffer|;
      } else if data == LEFT {
        if cursor > 0 {
          cursor := cursor - 1;
          Write(LEFT);
        }
      } else if data == RIGHT {
        if cursor < |buffer| {
          cursor := cursor + 1;
          Write(RIGHT);
        }
      } else if data == DELETE {
        if cursor < |buffer| {
          var tail := buffer[cursor + 1..];
          assert tail == buffer[cursor..][1..];
          buffer := buffer[..cursor] + tail;
          Write(tail + [BLANK] + Sequence(|tail| + 1, BACK));
        }
      } else if data == [TAB] {
        if buffer != [] && cursor == |buffer| { Complete(); }
      } else if data == UP {
        if historyIndex > 0 {
          historyIndex := historyIndex - 1;
          ReplaceLine(history[historyIndex]);
        }
      } else if data == DOWN {
        if historyIndex < |history| {
          historyIndex := historyIndex + 1;
          ReplaceLine(if historyIndex == |history| then [] else history[historyIndex]);
        }
      } else if code == CR {
        RunLine();
      } else if code == DEL {
        if cursor > 0 {
          var tail := buffer[cursor..];
          buffer := buffer[..cursor - 1] + tail;
          cursor := cursor - 1;
          Write([BS] + tail + [BLANK] + Sequence(|tail| + 1, BACK));
        }
      } else if code >= 32 {
        var tail := buffer[cursor..];
        buffer := buffer[..cursor] + data + tail;
        cursor := cursor + |data|;
        Write(data + tail + if tail != [] then Sequence(|tail|, BACK) else []);
      }
    }

    /** A chunk of raw input; an escape cut at its end waits for the next chunk. */
    method HandleData(data: Text)
      requires Ready()
      modifies this
      ensures Ready() && Chunk(host, old(State()), old(partialEscape), data) == Received(State(), partialEscape)
      ensures written == old(written) + FeedKeys(host, old(State()), ChunkKeys(old(partialEscape), data)).text
    {
      hide Key, IsIncompleteEscape, FeedKeys;
      var keys := SplitKeys(partialEscape + data);
      KeysNonEmpty(partialEscape + data);
      partialEscape := [];
      if |keys| > 0 && IsIncompleteEscape(keys[|keys| - 1]) {
        partialEscape := keys[|keys| - 1];
        keys := keys[..|keys| - 1];
      }
      HandleKeys(keys);
    }

    method HandleKeys(keys: seq<Text>)
      requires Ready() && forall i :: 0 <= i < |keys| ==> keys[i] != []
      modifies this
      ensures Ready() && Effect(State(), written) == Then(Effect(old(State()), old(written)), FeedKeys(host, old(State()), keys))
      ensures partialEscape == old(partialEscape)
    {
      hide *;
      ghost var start, first := State(), written;
      ReadyIsValid();
      NothingFed(host, start, keys, first);
      for i := 0 to |keys|
        invariant Ready() && Valid(start) && partialEscape == old(partialEscape)
        invariant Effect(State(), written) == Then(Effect(start, first), FeedKeys(host, start, keys[..i]))
      {
        FedNext(host, start, keys, i, first);
        HandleKey(keys[i]);
      }
      assert keys[..|keys|] == keys;
    }

    lemma ReadyIsValid()
      ensures Ready() <==> Valid(State())
    {
    }
  }

  lemma ExitIsValid(h: Host, s: Session, search: Search)
    requires Valid(s)
    ensures Valid(ExitSearch(h, s, search).session) && ExitSearch(h, s, search).session.search.None?
  {
  }

  lemma {:induction false} KeysNonEmpty(t: Text)
    ensures forall i :: 0 <= i < |Keys(t)| ==> Keys(t)[i] != []
    decreases |t|
  {
    if t != [] { KeysNonEmpty(t[FirstKey(t).1..]); }
  }

  lemma NothingFed(h: Host, s: Session, keys: seq<Text>, first: Text)
    requires Valid(s)
    ensures Effect(s, first) == Then(Effect(s, first), FeedKeys(h, s, keys[..0]))
  {
    assert first + [] == first;
  }

  /** One more key, on top of text written before. */
  lemma FedNext(h: Host, s: Session, keys: seq<Text>, i: nat, first: Text)
    requires Valid(s) && i < |keys| && forall k :: 0 <= k < |keys| ==> keys[k] != []
    ensures var before := FeedKeys(h, s, keys[..i]); var start := Effect(s, first);
      && Valid(before.session) && before.session == Then(start, before).session
      && Then(start, FeedKeys(h, s, keys[..i + 1])) == Then(Then(start, before), Key(h, before.session, keys[i]))
  {
    assert keys[..i + 1][..i] == keys[..i];
    var before := FeedKeys(h, s, keys[..i]);
    var k := Key(h, before.session, keys[i]);
    assert first + (before.text + k.text) == first + before.text + k.text;
    hide Key;
  }

  /** The keys a chunk completes. */
  function ChunkKeys(partial: Text, data: Text): (keys: seq<Text>)
    ensures forall i :: 0 <= i < |keys| ==> keys[i] != []
  {
    var keys := Keys(partial + data);
    KeysNonEmpty(partial + data);
    if |keys| > 0 && IsIncompleteEscape(keys[|keys| - 1]) then keys[..|keys| - 1] else keys
  }

  datatype Received = Received(session: Session, partialEscape: Text)

  /** What a chunk does to the state: its keys in order, a cut escape held back. */
  function Chunk(h: Host, s: Session, partial: Text, data: Text): Received
    requires Valid(s)
  {
    var keys := Keys(partial + data);
    KeysNonEmpty(partial + data);
    if |keys| > 0 && IsIncompleteEscape(keys[|keys| - 1]) then Received(FeedKeys(h, s, keys[..|keys| - 1]).session, keys[|keys| - 1])
    else Received(FeedKeys(h, s, keys).session, [])
  }

  method LongestPrefix(items: seq<Text>) returns (prefix: Text)
    requires items != []
    ensures prefix == CommonPrefix(items)
  {
    hide StartsWith;
    prefix := items[0];
    assert items[..1] == [items[0]];
    for i := 1 to |items|
      invariant prefix == CommonPrefix(items[..i])
    {
      assert items[..i + 1][..i] == items[..i];
      ghost var start := prefix;
      while !StartsWith(items[i], prefix)
        invariant Shrink(start, items[i]) == Shrink(prefix, items[i])
        decreases |prefix|
      {
        NonEmptyPrefix(items[i], prefix);
        prefix := prefix[..|prefix| - 1];
      }
    }
    assert items[..|items|] == items;
  }

  lemma NonEmptyPrefix(t: Text, p: Text)
    requires !StartsWith(t, p)
    ensures p != []
  {
  }
}
