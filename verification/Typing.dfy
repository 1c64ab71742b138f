/** The line editor against a typist's own picture: text left and right of the cursor, older and newer commands. */
module Typing {
  import opened Bytes
  import opened Screen
  import opened Terminal
  import opened Editing

  // --- the picture -----------------------------------------------------------------------------------

  datatype Line = Line(left: Text, right: Text)

  datatype Typist = Typist(line: Line, older: seq<Text>, newer: seq<Text>)

  function Of(s: Session): Typist
    requires Valid(s)
  {
    Typist(Line(s.buffer[..s.cursor], s.buffer[s.cursor..]), s.history[..s.historyIndex], s.history[s.historyIndex..])
  }

  datatype Press = Type(text: Text) | Erase | Delete | Back | Forward | ToStart | ToEnd | Older | Newer | Abort | Nothing

  function Pressed(p: Press, t: Typist): Typist {
    var l := t.line;
    match p
    case Type(text) => t.(line := Line(l.left + text, l.right))
    case Erase => if l.left == [] then t else t.(line := Line(l.left[..|l.left| - 1], l.right))
    case Delete => if l.right == [] then t else t.(line := Line(l.left, l.right[1..]))
    case Back => if l.left == [] then t else t.(line := Line(l.left[..|l.left| - 1], [l.left[|l.left| - 1]] + l.right))
    case Forward => if l.right == [] then t else t.(line := Line(l.left + [l.right[0]], l.right[1..]))
    case ToStart => t.(line := Line([], l.left + l.right))
    case ToEnd => t.(line := Line(l.left + l.right, []))
    case Older =>
      if t.older == [] then t
      else var n := |t.older| - 1; Typist(Line(t.older[n], []), t.older[..n], [t.older[n]] + t.newer)
    case Newer =>
      if t.newer == [] then t
      else Typist(Line(if |t.newer| == 1 then [] else t.newer[1], []), t.older + [t.newer[0]], t.newer[1..])
    case Abort => t.(line := Line([], []))
    case Nothing => t
  }

  /** What a key presses; completion, Enter, search and the end of input are told apart below. */
  function PressOf(key: Text): Option<Press>
    requires key != []
  {
    if key in {[CTRL_A], HOME, HOME_VT} then Some(ToStart)
    else if key in {[CTRL_E], END, END_VT} then Some(ToEnd)
    else if key == LEFT then Some(Back)
    else if key == RIGHT then Some(Forward)
    else if key == DELETE then Some(Delete)
    else if key == UP then Some(Older)
    else if key == DOWN then Some(Newer)
    else if key == [CTRL_C] then Some(Abort)
    else if key[0] == DEL then Some(Erase)
    else if key[0] >= 32 then Some(Type(key))
    else if key[0] == CR || key in {[TAB], [CTRL_R], [CTRL_D]} then None
    else Some(Nothing)
  }

  /** The editor awaits a key outside of a search. */
  predicate Awake(s: Session) {
    Valid(s) && !s.exited && s.search.None?
  }

  lemma JumpsRefine(h: Host, s: Session, key: Text)
    requires Awake(s) && key in {[CTRL_A], HOME, HOME_VT, [CTRL_E], END, END_VT}
    ensures PressOf(key).Some?
    ensures var u := EditKey(h, s, key).session;
      && u.cursor <= |u.buffer| && u == s.(buffer := u.buffer, cursor := u.cursor)
      && Line(u.buffer[..u.cursor], u.buffer[u.cursor..]) == Pressed(PressOf(key).value, Of(s)).line
  {
    hide Sequence, Completion, Enter, Searching, SetLine;
    var l := Of(s).line;
    assert s.buffer == l.left + l.right;
  }

  lemma MovesAre(h: Host, s: Session)
    requires Awake(s)
    ensures EditKey(h, s, LEFT).session == if s.cursor == 0 then s else s.(cursor := s.cursor - 1)
    ensures EditKey(h, s, RIGHT).session == if s.cursor == |s.buffer| then s else s.(cursor := s.cursor + 1)
    ensures EditKey(h, s, DELETE).session == if s.cursor == |s.buffer| then s else s.(buffer := s.buffer[..s.cursor] + s.buffer[s.cursor + 1..])
  {
    hide Sequence, Completion, Enter, Searching, SetLine;
    if s.cursor < |s.buffer| { assert s.buffer[s.cursor..][1..] == s.buffer[s.cursor + 1..]; }
  }

  lemma MovePresses()
    ensures PressOf(LEFT) == Some(Back) && PressOf(RIGHT) == Some(Forward) && PressOf(DELETE) == Some(Delete)
    ensures LEFT != RIGHT && RIGHT != DELETE && DELETE != LEFT
  {
  }

  lemma LeftRefines(h: Host, s: Session)
    requires Awake(s)
    ensures var u := EditKey(h, s, LEFT).session;
      && u.cursor <= |u.buffer| && u == s.(buffer := u.buffer, cursor := u.cursor)
      && Line(u.buffer[..u.cursor], u.buffer[u.cursor..]) == Pressed(Back, Of(s)).line
  {
    MovesAre(h, s);
    hide EditKey, LEFT, RIGHT, DELETE;
    var l := Of(s).line;
    assert s.buffer == l.left + l.right;
    if s.cursor > 0 { assert s.buffer[s.cursor - 1..] == [l.left[s.cursor - 1]] + l.right; }
  }

  lemma RightRefines(h: Host, s: Session)
    requires Awake(s)
    ensures var u := EditKey(h, s, RIGHT).session;
      && u.cursor <= |u.buffer| && u == s.(buffer := u.buffer, cursor := u.cursor)
      && Line(u.buffer[..u.cursor], u.buffer[u.cursor..]) == Pressed(Forward, Of(s)).line
  {
    MovesAre(h, s);
    hide EditKey, LEFT, RIGHT, DELETE;
    var l := Of(s).line;
    assert s.buffer == l.left + l.right;
    if s.cursor < |s.buffer| { assert s.buffer[..s.cursor + 1] == l.left + [l.right[0]]; }
  }

  lemma DeleteRefines(h: Host, s: Session)
    requires Awake(s)
    ensures var u := EditKey(h, s, DELETE).session;
      && u.cursor <= |u.buffer| && u == s.(buffer := u.buffer, cursor := u.cursor)
      && Line(u.buffer[..u.cursor], u.buffer[u.cursor..]) == Pressed(Delete, Of(s)).line
  {
    MovesAre(h, s);
    hide EditKey, LEFT, RIGHT, DELETE;
    var l := Of(s).line;
    assert s.buffer == l.left + l.right;
  }

  lemma MovesRefine(h: Host, s: Session, key: Text)
    requires Awake(s) && key in {LEFT, RIGHT, DELETE}
    ensures PressOf(key).Some?
    ensures var u := EditKey(h, s, key).session;
      && u.cursor <= |u.buffer| && u == s.(buffer := u.buffer, cursor := u.cursor)
      && Line(u.buffer[..u.cursor], u.buffer[u.cursor..]) == Pressed(PressOf(key).value, Of(s)).line
  {
    LeftRefines(h, s);
    RightRefines(h, s);
    DeleteRefines(h, s);
    MovePresses();
    hide EditKey, PressOf, LEFT, RIGHT, DELETE, Pressed, Of;
  }

  lemma TypingRefines(h: Host, s: Session, key: Text)
    requires Awake(s) && key != [] && key[0] >= 32
    ensures PressOf(key).Some?
    ensures var u := EditKey(h, s, key).session;
      && u.cursor <= |u.buffer| && u == s.(buffer := u.buffer, cursor := u.cursor)
      && Line(u.buffer[..u.cursor], u.buffer[u.cursor..]) == Pressed(PressOf(key).value, Of(s)).line
  {
    hide Sequence;
    var l := Of(s).line;
    assert s.buffer == l.left + l.right;
    if key[0] == DEL {
      if s.cursor > 0 { assert s.buffer[..s.cursor - 1] == l.left[..s.cursor - 1]; }
    } else {
      assert s.buffer[..s.cursor] + key + s.buffer[s.cursor..] == (l.left + key) + l.right;
    }
  }

  lemma UpIs(h: Host, s: Session)
    requires Awake(s)
    ensures EditKey(h, s, UP).session ==
      if s.historyIndex == 0 then s
      else s.(historyIndex := s.historyIndex - 1, buffer := s.history[s.historyIndex - 1], cursor := |s.history[s.historyIndex - 1]|)
  {
    hide Completion, Enter, Sequence, Searching, PromptText;
  }

  lemma DownIs(h: Host, s: Session)
    requires Awake(s)
    ensures var i := s.historyIndex + 1;
      EditKey(h, s, DOWN).session ==
        if s.historyIndex == |s.history| then s
        else if i == |s.history| then s.(historyIndex := i, buffer := [], cursor := 0)
        else s.(historyIndex := i, buffer := s.history[i], cursor := |s.history[i]|)
  {
    hide Completion, Enter, Sequence, Searching, PromptText;
  }

  lemma RecallPresses()
    ensures PressOf(UP) == Some(Older) && PressOf(DOWN) == Some(Newer)
  {
  }

  lemma OlderOf(s: Session)
    requires Valid(s) && s.historyIndex > 0
    ensures var line := s.history[s.historyIndex - 1]; var u := s.(historyIndex := s.historyIndex - 1, buffer := line, cursor := |line|);
      Valid(u) && Of(u) == Pressed(Older, Of(s))
  {
    var t := Of(s);
    var n := s.historyIndex - 1;
    assert t.older[..n] == s.history[..n] && s.history[n..] == [t.older[n]] + t.newer;
  }

  lemma NewerOf(s: Session)
    requires Valid(s) && s.historyIndex < |s.history|
    ensures var i := s.historyIndex + 1; var line := if i == |s.history| then [] else s.history[i];
      var u := s.(historyIndex := i, buffer := line, cursor := |line|);
      Valid(u) && Of(u) == Pressed(Newer, Of(s))
  {
    var t := Of(s);
    var i := s.historyIndex + 1;
    assert s.history[..i] == t.older + [t.newer[0]] && s.history[i..] == t.newer[1..];
    assert |t.newer| == 1 <==> i == |s.history|;
  }

  lemma NothingOlder(s: Session)
    requires Valid(s)
    ensures s.historyIndex == 0 ==> Pressed(Older, Of(s)) == Of(s)
    ensures s.historyIndex == |s.history| ==> Pressed(Newer, Of(s)) == Of(s)
  {
  }

  lemma RecallRefines(h: Host, s: Session, key: Text)
    requires Awake(s) && key in {UP, DOWN}
    ensures PressOf(key).Some?
    ensures var u := EditKey(h, s, key).session; Awake(u) && u.history == s.history && Of(u) == Pressed(PressOf(key).value, Of(s))
  {
    RecallPresses();
    hide EditKey, PressOf, Of, Pressed;
    NothingOlder(s);
    if key == UP {
      UpIs(h, s);
      if s.historyIndex > 0 { OlderOf(s); }
    } else {
      DownIs(h, s);
      if s.historyIndex < |s.history| { NewerOf(s); }
    }
  }

  /** Outside of a search the line editor gets every key but Ctrl+C and, on an empty line, Ctrl+D. */
  lemma KeyEdits(h: Host, s: Session, key: Text)
    requires Awake(s) && key != [] && key != [CTRL_C] && key != [CTRL_D]
    ensures Key(h, s, key) == EditKey(h, s, key)
  {
    hide EditKey;
  }

  /** Every such key changes the session exactly as it changes the typist's picture, and nothing else. */
  lemma KeyRefines(h: Host, s: Session, key: Text)
    requires Awake(s) && key != [] && PressOf(key).Some?
    ensures var u := Key(h, s, key).session; Awake(u) && u.history == s.history && Of(u) == Pressed(PressOf(key).value, Of(s))
  {
    hide EditKey, SearchKey, Sequence;
    if key == [CTRL_C] {
      assert s.(search := None) == s;
    } else if key in {UP, DOWN} {
      RecallRefines(h, s, key);
    } else if key in {[CTRL_A], HOME, HOME_VT, [CTRL_E], END, END_VT} {
      JumpsRefine(h, s, key);
    } else if key in {LEFT, RIGHT, DELETE} {
      MovesRefine(h, s, key);
    } else if key[0] >= 32 {
      TypingRefines(h, s, key);
    } else {
      OthersIgnored(h, s, key);
    }
  }

  lemma OthersIgnored(h: Host, s: Session, key: Text)
    requires Awake(s) && key != [] && PressOf(key) == Some(Nothing) && key[0] < 32
    ensures EditKey(h, s, key).session == s
  {
    hide Sequence, Completion, Enter, Searching, SetLine;
  }

  // --- runs --------------------------------------------------------------------------------------------

  predicate Plain(keys: seq<Text>) {
    forall i :: 0 <= i < |keys| ==> keys[i] != [] && PressOf(keys[i]).Some?
  }

  function PressedAll(keys: seq<Text>, t: Typist): Typist
    requires Plain(keys)
  {
    if keys == [] then t else Pressed(PressOf(keys[|keys| - 1]).value, PressedAll(keys[..|keys| - 1], t))
  }

  /** So does every sequence of them. */
  lemma {:induction false} KeysRefine(h: Host, s: Session, keys: seq<Text>)
    requires Awake(s) && Plain(keys)
    ensures var u := FeedKeys(h, s, keys).session; Awake(u) && u.history == s.history && Of(u) == PressedAll(keys, Of(s))
    decreases |keys|
  {
    hide Key, Of, Pressed, PressOf;
    if keys != [] {
      KeysRefine(h, s, keys[..|keys| - 1]);
      KeyRefines(h, FeedKeys(h, s, keys[..|keys| - 1]).session, keys[|keys| - 1]);
    }
  }

  function Repeated(key: Text, n: nat): (keys: seq<Text>)
    ensures forall i :: 0 <= i < |keys| ==> keys[i] == key
  {
    seq(n, i => key)
  }

  lemma OneMore(h: Host, s: Session, key: Text, n: nat)
    requires Valid(s) && key != [] && n > 0
    ensures Valid(FeedKeys(h, s, Repeated(key, n - 1)).session)
    ensures FeedKeys(h, s, Repeated(key, n)).session == Key(h, FeedKeys(h, s, Repeated(key, n - 1)).session, key).session
  {
    assert Repeated(key, n)[..n - 1] == Repeated(key, n - 1);
    hide Key;
  }

  lemma NoMore(h: Host, s: Session, key: Text)
    requires Valid(s) && key != []
    ensures FeedKeys(h, s, Repeated(key, 0)).session == s
  {
    assert Repeated(key, 0) == [];
  }

  /** Pressing Up `n` times recalls the n-th command before, the cursor behind it. */
  lemma {:induction false} UpRecalls(h: Host, s: Session, n: nat)
    requires Awake(s) && n <= s.historyIndex
    ensures var u := FeedKeys(h, s, Repeated(UP, n)).session;
      && Awake(u) && u.history == s.history && u.historyIndex == s.historyIndex - n
      && (n > 0 ==> u.buffer == s.history[s.historyIndex - n] && u.cursor == |u.buffer|)
    decreases n
  {
    hide FeedKeys, Key, EditKey, Repeated;
    if n == 0 {
      NoMore(h, s, UP);
    } else {
      UpRecalls(h, s, n - 1);
      OneMore(h, s, UP, n);
      var u := FeedKeys(h, s, Repeated(UP, n - 1)).session;
      KeyEdits(h, u, UP);
      UpIs(h, u);
    }
  }

  /** Pressing Down `n` times comes that many commands forward, and behind the newest to an empty line. */
  lemma {:induction false} DownReturns(h: Host, s: Session, n: nat)
    requires Awake(s) && n <= |s.history| - s.historyIndex
    ensures var u := FeedKeys(h, s, Repeated(DOWN, n)).session;
      && Awake(u) && u.history == s.history && u.historyIndex == s.historyIndex + n
      && (n > 0 ==> u.buffer == (if u.historyIndex == |s.history| then [] else s.history[u.historyIndex]) && u.cursor == |u.buffer|)
    decreases n
  {
    hide FeedKeys, Key, EditKey, Repeated;
    if n == 0 {
      NoMore(h, s, DOWN);
    } else {
      DownReturns(h, s, n - 1);
      OneMore(h, s, DOWN, n);
      var u := FeedKeys(h, s, Repeated(DOWN, n - 1)).session;
      KeyEdits(h, u, DOWN);
      DownIs(h, u);
    }
  }

  // --- Enter ---------------------------------------------------------------------------------------------

  /** A line that is run joins the history as it was typed, as its newest command; any other leaves the history alone. */
  lemma EnterRefines(h: Host, s: Session)
    requires Awake(s)
    ensures var u, t := Key(h, s, [CR]).session, Of(s); var word := Trim(s.buffer);
      && Valid(u) && u.search.None? && (u.exited <==> h.exits && word in {EXIT, LOGOUT})
      && Of(u) == if word == [] || u.exited || h.readOnly then t.(line := Line([], []))
                  else Typist(Line([], []), t.older + t.newer + [t.line.left + t.line.right], [])
  {
    hide Trim;
    var t := Of(s);
    assert s.history == t.older + t.newer && s.buffer == t.line.left + t.line.right;
    assert Trim([]) == [] by { TrimNothing(); }
  }

  lemma TrimNothing()
    ensures Trim([]) == [] && EXIT != [] && LOGOUT != []
  {
  }

  /** A line that Enter runs. */
  predicate Runs(h: Host, s: Session) {
    Trim(s.buffer) != [] && !h.readOnly && !(h.exits && Trim(s.buffer) in {EXIT, LOGOUT})
  }

  lemma EnterRuns(h: Host, s: Session)
    requires Awake(s) && Runs(h, s)
    ensures var u := Key(h, s, [CR]).session; Awake(u) && u.history == s.history + [s.buffer] && u.historyIndex == |u.history|
  {
    hide Trim, Completion, Sequence, Searching, PromptText;
  }

  lemma FedTwo(h: Host, s: Session, a: Text, b: Text)
    requires Valid(s) && a != [] && b != [] && Valid(Key(h, s, a).session)
    ensures FeedKeys(h, s, [a, b]).session == Key(h, Key(h, s, a).session, b).session
  {
    hide Key;
    assert [a, b][..1] == [a] && [a][..0] == [];
    assert FeedKeys(h, s, [a]).session == Key(h, s, a).session;
  }

  /** After a command was run, Up brings it back. */
  lemma LastComesBack(h: Host, s: Session)
    requires Awake(s) && Runs(h, s)
    ensures FeedKeys(h, s, [[CR], UP]).session.buffer == s.buffer
  {
    hide FeedKeys, Key, EditKey, Runs;
    EnterRuns(h, s);
    var ran := Key(h, s, [CR]).session;
    FedTwo(h, s, [CR], UP);
    KeyEdits(h, ran, UP);
    UpIs(h, ran);
  }

  // --- completion -----------------------------------------------------------------------------------------

  ghost predicate Completes(candidates: seq<Text>, token: Text) {
    forall i :: 0 <= i < |candidates| ==> StartsWith(candidates[i], token)
  }

  /** Completing replaces the token by the one candidate, or by all that the candidates have in common. */
  lemma CompletionReplaces(h: Host, s: Session)
    requires Awake(s) && s.buffer != [] && s.cursor == |s.buffer|
    requires var (candidates, start) := h.complete(s.history, s.buffer); start <= |s.buffer| && Completes(candidates, s.buffer[start..])
    ensures var (candidates, start) := h.complete(s.history, s.buffer); var u := Key(h, s, [TAB]).session;
      && u == s.(buffer := u.buffer, cursor := |u.buffer|)
      && u.buffer ==
        if candidates == [] then s.buffer
        else if |candidates| == 1 then s.buffer[..start] + candidates[0] + if candidates[0] != [] && candidates[0][|candidates[0]| - 1] == SLASH then [] else [BLANK]
        else s.buffer[..start] + CommonPrefix(candidates)
  {
    var (candidates, start) := h.complete(s.history, s.buffer);
    var token := s.buffer[start..];
    assert Drop(s.buffer, start) == token && s.buffer == s.buffer[..start] + token;
    hide CommonPrefix;
    if |candidates| == 1 {
      SplitAt(candidates[0], token);
    } else if |candidates| > 1 {
      CommonPrefixIs(candidates);
      SplitAt(CommonPrefix(candidates), token);
    }
  }

  lemma SplitAt(t: Text, token: Text)
    requires StartsWith(t, token)
    ensures t == token + t[|token|..] && (|t| == |token| ==> t == token) && Drop(t, |token|) == t[|token|..]
  {
  }

  // --- reverse search --------------------------------------------------------------------------------------

  /** `i` is the newest line up to `top` that includes the query, -1 if there is none. */
  ghost predicate Newest(history: seq<Text>, query: Text, top: int, i: int) {
    && -1 <= i < |history| && i <= top
    && (i >= 0 ==> Includes(history[i], query))
    && forall j :: i < j <= top && 0 <= j < |history| ==> !Includes(history[j], query)
  }

  lemma FoundNewest(history: seq<Text>, query: Text, from: int)
    requires query != [] && -1 <= from
    ensures Newest(history, query, if from < |history| then from else |history| - 1, FindMatch(history, query, from))
  {
    NewestMatch(history, query, from);
    hide Includes, FindMatch;
  }

  /** The line a search shows includes its query. */
  ghost predicate ShowsMatch(s: Session) {
    s.search.Some? && s.search.value.matchIndex >= 0 ==>
      s.search.value.matchIndex < |s.history| && s.search.value.query != [] && Includes(s.history[s.search.value.matchIndex], s.search.value.query)
  }

  /** Ctrl+R looks further back, and stays when nothing is there. */
  ghost predicate LookedBack(history: seq<Text>, v: Search, w: Search) {
    var top := if v.matchIndex >= 0 then v.matchIndex - 1 else |history| - 1;
    w.query == v.query
    && (v.query == [] ==> w == v)
    && (v.query != [] ==> Newest(history, v.query, top, if w == v then -1 else w.matchIndex))
    && (w != v ==> w.matchIndex >= 0)
  }

  /** Erasing looks anew for the shorter query. */
  ghost predicate LookedAnew(history: seq<Text>, v: Search, w: Search) {
    && w.query == (if v.query == [] then [] else v.query[..|v.query| - 1])
    && if w.query == [] then w.matchIndex == -1 else Newest(history, w.query, |history| - 1, w.matchIndex)
  }

  /** More text looks for the longer query from the match shown. */
  ghost predicate LookedOn(history: seq<Text>, v: Search, w: Search, key: Text) {
    w.query == v.query + key && Newest(history, w.query, if v.matchIndex >= 0 then v.matchIndex else |history| - 1, w.matchIndex)
  }

  /** What a key does to a search, and that it changes nothing else. */
  lemma SearchLooks(h: Host, s: Session, key: Text)
    requires Valid(s) && !s.exited && s.search.Some? && ShowsMatch(s) && key != [] && (key == [CTRL_R] || key[0] >= 32)
    ensures var u := Key(h, s, key).session;
      && ShowsMatch(u) && u.search.Some? && u == s.(search := u.search)
      && u.search.value.savedBuffer == s.search.value.savedBuffer
      && if key == [CTRL_R] then LookedBack(s.history, s.search.value, u.search.value)
         else if key[0] == DEL then LookedAnew(s.history, s.search.value, u.search.value)
         else LookedOn(s.history, s.search.value, u.search.value, key)
  {
    hide *;
    SearchGoesOn(h, s, key);
    if key == [CTRL_R] { LooksBack(h, s, s.search.value); } else if key[0] == DEL { LooksAnew(h, s, s.search.value, key); } else { LooksOn(h, s, s.search.value, key); }
  }

  lemma SearchGoesOn(h: Host, s: Session, key: Text)
    requires Valid(s) && !s.exited && s.search.Some? && key != [] && (key == [CTRL_R] || key[0] >= 32)
    ensures Key(h, s, key) == SearchKey(h, s, s.search.value, key)
    ensures key == [CTRL_R] ==> key[0] < 32
  {
    hide EditKey, SearchKey, ExitSearch;
  }

  lemma LooksBack(h: Host, s: Session, v: Search)
    requires Valid(s) && s.search == Some(v) && ShowsMatch(s)
    ensures var u := SearchKey(h, s, v, [CTRL_R]).session;
      && ShowsMatch(u) && u.search.Some? && u == s.(search := u.search) && u.search.value.savedBuffer == v.savedBuffer
      && LookedBack(s.history, v, u.search.value)
  {
    hide Includes, FindMatch, SearchLine, ExitSearch;
    var last := |s.history| - 1;
    if v.query != [] { FoundNewest(s.history, v.query, if v.matchIndex >= 0 then v.matchIndex - 1 else last); } else { NoQuery(s.history, last); }
  }

  lemma LooksAnew(h: Host, s: Session, v: Search, key: Text)
    requires Valid(s) && s.search == Some(v) && key != [] && key[0] == DEL
    ensures var u := SearchKey(h, s, v, key).session;
      && ShowsMatch(u) && u.search.Some? && u == s.(search := u.search) && u.search.value.savedBuffer == v.savedBuffer
      && LookedAnew(s.history, v, u.search.value)
  {
    hide Includes, FindMatch, SearchLine, ExitSearch;
    var last := |s.history| - 1;
    var query := if v.query == [] then [] else v.query[..|v.query| - 1];
    if query != [] { FoundNewest(s.history, query, last); } else { NoQuery(s.history, last); }
  }

  lemma LooksOn(h: Host, s: Session, v: Search, key: Text)
    requires Valid(s) && s.search == Some(v) && key != [] && key[0] >= 32 && key[0] != DEL
    ensures var u := SearchKey(h, s, v, key).session;
      && ShowsMatch(u) && u.search.Some? && u == s.(search := u.search) && u.search.value.savedBuffer == v.savedBuffer
      && LookedOn(s.history, v, u.search.value, key)
  {
    hide Includes, FindMatch, SearchLine, ExitSearch;
    FoundNewest(s.history, v.query + key, if v.matchIndex >= 0 then v.matchIndex else |s.history| - 1);
  }

  lemma NoQuery(history: seq<Text>, last: int)
    ensures forall from :: FindMatch(history, [], from) == -1
  {
  }

  /** Any other control key but Enter, Ctrl+C and Ctrl+R ends the search with the line found, or with the line there was before. */
  lemma SearchEnds(h: Host, s: Session, key: Text)
    requires Valid(s) && !s.exited && s.search.Some? && key != [] && key[0] < 32 && key !in {[CTRL_R], [CTRL_C], [CR]}
    ensures var u, v := Key(h, s, key).session, s.search.value;
      && Awake(u) && u.history == s.history && u.historyIndex == s.historyIndex && u.cursor == |u.buffer|
      && u.buffer == if v.matchIndex >= 0 then s.history[v.matchIndex] else v.savedBuffer
  {
    hide PromptText;
  }

  /** The session with the search left for the line found, or for the line there was before. */
  function Left(s: Session): Session
    requires Valid(s) && s.search.Some?
  {
    var line := if s.search.value.matchIndex >= 0 then s.history[s.search.value.matchIndex] else s.search.value.savedBuffer;
    s.(search := None, buffer := line, cursor := |line|)
  }

  /** Enter ends a search as on that line it would have run; Ctrl+C drops the search and the line. */
  lemma SearchSubmits(h: Host, s: Session)
    requires Valid(s) && !s.exited && s.search.Some?
    ensures Awake(Left(s)) && Key(h, s, [CR]).session == Key(h, Left(s), [CR]).session
    ensures Key(h, s, [CTRL_C]).session == s.(search := None, buffer := [], cursor := 0)
  {
    hide PromptText, Trim, Completion, Sequence, Searching, Enter;
  }

  /** Ctrl+D ends the session on an empty line of a host that can be left, and does nothing on any other. */
  lemma EndOfInput(h: Host, s: Session)
    requires Awake(s)
    ensures Key(h, s, [CTRL_D]).session == if h.exits && s.buffer == [] then s.(exited := true) else s
  {
    hide PromptText, Trim, Completion, Sequence, Searching, Enter, SetLine;
  }
}
