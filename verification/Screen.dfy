/** A one-row terminal that interprets the control sequences the line discipline writes (section 5.4 of ECMA-48). */
module Screen {
  import Bytes
  import opened Numerals

  /** A UTF-16 code unit; every printable one takes a column. */
  type Code = c: int | 0 <= c < 65536
  type Text = seq<Code>

  const BS: Code := 8
  const TAB: Code := 9
  const LF: Code := 10
  const CR: Code := 13
  const ESC: Code := 27
  const BLANK: Code := 32
  const BRACKET: Code := 91  // "["
  const DEL: Code := 127
  const FORWARD: Code := 67  // "C"
  const BACK: Code := 68     // "D"
  const ERASE: Code := 75    // "K"

  predicate Printable(c: Code) { c >= 32 && c != DEL }

  predicate AllPrintable(t: Text) {
    forall i :: 0 <= i < |t| ==> Printable(t[i])
  }

  predicate IsFinal(c: Code) { 0x40 <= c <= 0x7e }

  datatype Mode = Ground | Escape | Csi(params: Text)

  /** The current row, the cursor column, and how far into an escape sequence the terminal is. */
  datatype Screen = Screen(row: Text, col: nat, mode: Mode)

  function Spaces(n: nat): (t: Text)
    ensures |t| == n && forall i :: 0 <= i < n ==> t[i] == BLANK
  {
    seq(n, i => BLANK)
  }

  function Put(row: Text, col: nat, c: Code): Text {
    if col < |row| then row[col := c] else row + Spaces(col - |row|) + [c]
  }

  function Minus(a: nat, b: nat): nat {
    if a < b then 0 else a - b
  }

  /** A parameter left out, or zero, means one. */
  function Count(params: Text): nat {
    if params != [] && forall i :: 0 <= i < |params| ==> 48 <= params[i] < 58 then
      var n := Value(params, 10);
      if n == 0 then 1 else n
    else 1
  }

  function Control(s: Screen, params: Text, final: Code): Screen {
    if final == BACK then Screen(s.row, Minus(s.col, Count(params)), Ground)
    else if final == FORWARD then Screen(s.row, s.col + Count(params), Ground)
    else if final == ERASE && params == [] then Screen(if s.col < |s.row| then s.row[..s.col] else s.row, s.col, Ground)
    else s.(mode := Ground)
  }

  function DrawOne(s: Screen, c: Code): Screen {
    match s.mode
    case Ground =>
      if c == ESC then s.(mode := Escape)
      else if c == CR then s.(col := 0)
      else if c == LF then s.(row := [])
      else if c == BS then s.(col := Minus(s.col, 1))
      else if Printable(c) then Screen(Put(s.row, s.col, c), s.col + 1, Ground)
      else s
    case Escape => if c == BRACKET then s.(mode := Csi([])) else s.(mode := Ground)
    case Csi(params) => if IsFinal(c) then Control(s, params, c) else s.(mode := Csi(params + [c]))
  }

  function Draw(s: Screen, t: Text): Screen {
    if t == [] then s else DrawOne(Draw(s, t[..|t| - 1]), t[|t| - 1])
  }

  lemma {:induction false} DrawConcat(s: Screen, a: Text, b: Text)
    ensures Draw(s, a + b) == Draw(Draw(s, a), b)
    decreases |b|
  {
    hide DrawOne;
    if b == [] {
      assert a + b == a;
    } else {
      assert (a + b)[..|a + b| - 1] == a + b[..|b| - 1];
      DrawConcat(s, a, b[..|b| - 1]);
    }
  }

  lemma DrawStep(s: Screen, c: Code, t: Text)
    ensures Draw(s, [c] + t) == Draw(DrawOne(s, c), t)
  {
    hide DrawOne;
    DrawConcat(s, [c], t);
    assert [c][..0] == [];
    assert Draw(s, []) == s;
    assert Draw(s, [c]) == DrawOne(Draw(s, [c][..0]), c);
  }

  // --- what a row shows ------------------------------------------------------------------------

  function Cell(row: Text, i: nat): Code {
    if i < |row| then row[i] else BLANK
  }

  /** Equal up to trailing blanks. */
  ghost predicate Same(a: Text, b: Text) {
    forall i: nat :: Cell(a, i) == Cell(b, i)
  }

  lemma {:induction false} DrawPrintable(s: Screen, t: Text)
    requires s.mode == Ground && AllPrintable(t)
    ensures Draw(s, t).mode == Ground && Draw(s, t).col == s.col + |t|
    ensures forall i: nat :: Cell(Draw(s, t).row, i) == if s.col <= i < s.col + |t| then t[i - s.col] else Cell(s.row, i)
  {
    if t != [] {
      var n := |t| - 1;
      DrawPrintable(s, t[..n]);
      var u := Draw(s, t[..n]);
      assert Draw(s, t) == DrawOne(u, t[n]) == Screen(Put(u.row, u.col, t[n]), u.col + 1, Ground);
      forall i: nat ensures Cell(Put(u.row, u.col, t[n]), i) == if i == u.col then t[n] else Cell(u.row, i) {}
    }
  }

  /** `ESC [ n final`. */
  function Sequence(n: nat, final: Code): Text {
    [ESC, BRACKET] + Decimal(n) + [final]
  }

  function Decimal(n: nat): Text {
    Digits(n, 10)
  }

  lemma {:induction false} DrawParams(s: Screen, params: Text)
    requires s.mode == Csi([]) && forall i :: 0 <= i < |params| ==> 48 <= params[i] < 58
    ensures Draw(s, params) == s.(mode := Csi(params))
  {
    if params != [] {
      DrawParams(s, params[..|params| - 1]);
      assert params[..|params| - 1] + [params[|params| - 1]] == params;
    }
  }

  lemma DrawSequence(s: Screen, n: nat, final: Code)
    requires s.mode == Ground && n > 0 && (final == BACK || final == FORWARD)
    ensures Draw(s, Sequence(n, final)) == if final == BACK then s.(col := Minus(s.col, n)) else s.(col := s.col + n)
  {
    var d := Decimal(n);
    ValueOfDigits(n, 10);
    hide Digits, Value, Draw;
    assert Count(d) == n;
    assert Sequence(n, final) == [ESC] + ([BRACKET] + (d + [final]));
    DrawStep(s, ESC, [BRACKET] + (d + [final]));
    DrawStep(s.(mode := Escape), BRACKET, d + [final]);
    var c := s.(mode := Csi([]));
    DrawParams(c, d);
    DrawConcat(c, d, [final]);
    DrawLast(c.(mode := Csi(d)), final);
  }

  lemma DrawLast(s: Screen, c: Code)
    ensures Draw(s, [c]) == DrawOne(s, c)
  {
    DrawStep(s, c, []);
    assert [c] + [] == [c];
  }

  /** `ESC [ final`, with the default of one step. */
  lemma DrawShort(s: Screen, final: Code)
    requires s.mode == Ground && IsFinal(final)
    ensures Draw(s, [ESC, BRACKET, final]) == Control(s, [], final).(mode := Ground)
  {
    hide Draw;
    assert [ESC, BRACKET, final] == [ESC] + ([BRACKET] + [final]);
    DrawStep(s, ESC, [BRACKET] + [final]);
    DrawStep(s.(mode := Escape), BRACKET, [final]);
    DrawLast(s.(mode := Csi([])), final);
  }
}
