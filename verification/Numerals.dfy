/** Numbers as text: rendering in a base, JavaScript's `parseInt`, and the fixed octal fields of a tar header. */
module Numerals {
  import opened Bytes

  datatype Num = NaN | Int(v: int)

  const ZERO: byte := 48
  const SPACE: byte := 32

  predicate IsDigit(b: byte, base: nat) {
    48 <= b < 48 + base
  }

  predicate AllDigits(s: Bytes, base: nat) {
    forall i :: 0 <= i < |s| ==> IsDigit(s[i], base)
  }

  /** `n.toString(base)` for bases up to ten. */
  function Digits(n: nat, base: nat): (s: Bytes)
    requires 2 <= base <= 10
    ensures |s| > 0 && AllDigits(s, base)
  {
    if n < base then [48 + n] else Digits(n / base, base) + [48 + n % base]
  }

  /** The number a digit string denotes. */
  function Value(s: Bytes, base: nat): nat
    requires AllDigits(s, base)
  {
    if s == [] then 0 else Value(s[..|s| - 1], base) * base + (s[|s| - 1] - 48)
  }

  lemma ValueAppend(s: Bytes, d: byte, base: nat)
    requires AllDigits(s, base) && IsDigit(d, base)
    ensures Value(s + [d], base) == Value(s, base) * base + (d - 48)
  {
    assert (s + [d])[..|s + [d]| - 1] == s;
  }

  lemma DivMod(n: nat, b: nat)
    requires b > 0
    ensures n / b * b + n % b == n
  {
  }

  lemma DigitsStep(n: nat, base: nat)
    requires 2 <= base <= 10 && n >= base
    ensures n % base < base && n / base < n && Digits(n, base) == Digits(n / base, base) + [48 + n % base]
  {
  }

  lemma DigitsSmall(n: nat, base: nat)
    requires 2 <= base <= 10 && n < base
    ensures Value(Digits(n, base), base) == n
  {
    ValueAppend([], 48 + n, base);
    assert [] + [48 + n] == [48 + n];
  }

  lemma {:induction false} ValueOfDigits(n: nat, base: nat)
    requires 2 <= base <= 10
    ensures Value(Digits(n, base), base) == n
  {
    hide Digits, Value, AllDigits;
    if n >= base {
      DigitsStep(n, base);
      var q, r := n / base, n % base;
      ValueOfDigits(q, base);
      ValueAppend(Digits(q, base), 48 + r, base);
      DivMod(n, base);
    } else {
      DigitsSmall(n, base);
    }
  }

  /** Leading zeros do not change the value. */
  lemma {:induction false} ValuePadded(z: Bytes, s: Bytes, base: nat)
    requires 2 <= base <= 10 && (forall i :: 0 <= i < |z| ==> z[i] == ZERO) && AllDigits(s, base)
    ensures AllDigits(z + s, base) && Value(z + s, base) == Value(s, base)
  {
    if s != [] {
      assert (z + s)[..|z + s| - 1] == z + s[..|s| - 1];
      ValuePadded(z, s[..|s| - 1], base);
    } else if z != [] {
      assert (z + s)[..|z + s| - 1] == z[..|z| - 1] + [];
      ValuePadded(z[..|z| - 1], [], base);
    }
  }

  function Pow(base: nat, k: nat): nat {
    if k == 0 then 1 else base * Pow(base, k - 1)
  }

  lemma {:induction false} DigitCount(n: nat, base: nat, k: nat)
    requires 2 <= base <= 10 && k > 0
    ensures |Digits(n, base)| <= k <==> n < Pow(base, k)
  {
    if k == 1 {
      assert Pow(base, 1) == base * Pow(base, 0) == base;
    } else if n < base {
      PowGrows(base, k);
    } else {
      DigitCount(n / base, base, k - 1);
      DivBound(n, base, Pow(base, k - 1));
    }
  }

  lemma PowGrows(base: nat, k: nat)
    requires 2 <= base && k > 0
    ensures Pow(base, k) >= base
  {
    if k > 1 { PowGrows(base, k - 1); }
  }

  lemma DivBound(n: nat, b: nat, p: nat)
    requires b > 0
    ensures n / b < p <==> n < b * p
  {
    var q, r := n / b, n % b;
    assert n == b * q + r;
    if q < p {
      assert b * (q + 1) <= b * p;
    } else {
      assert b * q >= b * p;
    }
  }

  // --- parseInt -----------------------------------------------------------------------

  predicate IsBlank(b: byte) {
    9 <= b <= 13 || b == SPACE
  }

  const BOM: Bytes := [0xEF, 0xBB, 0xBF]  // U+FEFF

  /** The three-byte encodings of white space. */
  predicate IsWideBlank(s: Bytes) {
    s in {[0xE1, 0x9A, 0x80], [0xE2, 0x80, 0xA8], [0xE2, 0x80, 0xA9], [0xE2, 0x80, 0xAF], [0xE2, 0x81, 0x9F], [0xE3, 0x80, 0x80], BOM}
    || (|s| == 3 && s[0] == 0xE2 && s[1] == 0x80 && 0x80 <= s[2] <= 0x8A)
  }

  /** How many bytes encode one white-space character in front of `s`. */
  function BlankHead(s: Bytes): (n: nat)
    ensures n <= |s|
  {
    if s == [] then 0
    else if IsBlank(s[0]) then 1
    else if |s| >= 2 && s[..2] == [0xC2, 0xA0] then 2
    else if |s| >= 3 && IsWideBlank(s[..3]) then 3
    else 0
  }

  function BlankTail(s: Bytes): (n: nat)
    ensures n <= |s|
  {
    if s == [] then 0
    else if IsBlank(s[|s| - 1]) then 1
    else if |s| >= 2 && s[|s| - 2..] == [0xC2, 0xA0] then 2
    else if |s| >= 3 && IsWideBlank(s[|s| - 3..]) then 3
    else 0
  }

  function TrimStart(s: Bytes): Bytes
    decreases |s|
  {
    if BlankHead(s) > 0 then TrimStart(s[BlankHead(s)..]) else s
  }

  function TrimEnd(s: Bytes): Bytes
    decreases |s|
  {
    if BlankTail(s) > 0 then TrimEnd(s[..|s| - BlankTail(s)]) else s
  }

  lemma WideBlankBytes(w: Bytes)
    requires IsWideBlank(w)
    ensures |w| == 3 && w[0] >= 0xE1 && w[2] >= 0x80
  {
  }

  lemma HeadNotBlank(s: Bytes)
    requires s != [] && 32 < s[0] < 0x80
    ensures BlankHead(s) == 0 && SkipMark(s) == s
  {
    hide IsWideBlank;
    if |s| >= 2 { assert s[..2][0] == s[0] != 0xC2; }
    if |s| >= 3 && IsWideBlank(s[..3]) { WideBlankBytes(s[..3]); }
    assert BOM[0] == 0xEF;
  }

  lemma TailNotBlank(s: Bytes)
    requires s != [] && 32 < s[|s| - 1] < 0x80
    ensures BlankTail(s) == 0
  {
    hide IsWideBlank;
    if |s| >= 2 {
      var t := s[|s| - 2..];
      assert t[1] == s[|s| - 1] != 0xA0;
    }
    if |s| >= 3 {
      var t := s[|s| - 3..];
      assert t[2] == s[|s| - 1];
      if IsWideBlank(t) { WideBlankBytes(t); }
    }
  }

  lemma DigitsNotBlank(s: Bytes, base: nat)
    requires base <= 10 && AllDigits(s, base)
    ensures TrimStart(s) == s && TrimEnd(s) == s && SkipMark(s) == s
  {
    if s != [] {
      assert IsDigit(s[0], base) && IsDigit(s[|s| - 1], base);
      HeadNotBlank(s);
      TailNotBlank(s);
    }
    hide BlankHead, BlankTail;
  }

  function DigitRun(s: Bytes, base: nat): (n: nat)
    ensures n <= |s| && AllDigits(s[..n], base) && (n < |s| ==> !IsDigit(s[n], base))
  {
    if s != [] && IsDigit(s[0], base) then
      var m := DigitRun(s[1..], base);
      assert s[..m + 1] == [s[0]] + s[1..][..m];
      m + 1
    else 0
  }

  /** `parseInt(s, base)` */
  function ParseInt(s: Bytes, base: nat): Num
    requires 2 <= base <= 10
  {
    var t := TrimStart(s);
    var negative := t != [] && t[0] == 45;
    var u := if t != [] && (t[0] == 45 || t[0] == 43) then t[1..] else t;
    var n := DigitRun(u, base);
    if n == 0 then NaN
    else if negative then Int(-(Value(u[..n], base) as int))
    else Int(Value(u[..n], base))
  }

  lemma ParseDigits(s: Bytes, base: nat)
    requires 2 <= base <= 10 && s != [] && AllDigits(s, base)
    ensures ParseInt(s, base) == Int(Value(s, base))
  {
    hide TrimStart, TrimEnd, Value, BlankHead, SkipMark, DigitRun, IsWideBlank;
    DigitsNotBlank(s, base);
    var n := DigitRun(s, base);
    assert n == |s|;
    assert s[..n] == s;
    assert IsDigit(s[0], base);
  }

  // --- octal fields ---------------------------------------------------------------------

  function PadStart(s: Bytes, n: nat): (r: Bytes)
    ensures |r| == if |s| < n then n else |s|
  {
    if |s| < n then seq(n - |s|, i => ZERO) + s else s
  }

  /** The `k` bytes that `writeOctal` stores. */
  function OctalField(value: int, k: nat): (f: Bytes)
    requires k > 0
    ensures |f| == k && f[k - 1] == 0
  {
    PadStart(Digits(if value < 0 then 0 else value, 8), k - 1)[..k - 1] + [0]
  }

  /** A field's text up to its first NUL. */
  function CString(f: Bytes): Bytes {
    var nul := IndexOf(f, 0, 0);
    if nul == -1 then f else f[..nul]
  }

  /** The decoder drops one leading U+FEFF. */
  function SkipMark(s: Bytes): Bytes {
    if BOM <= s then s[3..] else s
  }

  /** `readString` */
  function ReadString(f: Bytes): Bytes {
    SkipMark(CString(f))
  }

  function Base256(f: Bytes): nat
    requires f != []
  {
    if |f| == 1 then f[0] % 128 else Base256(f[..|f| - 1]) * 256 + f[|f| - 1]
  }

  /** An octal field, or a GNU base-256 one when the top bit of its first byte is set. */
  function ReadNumber(f: Bytes): Num {
    if f != [] && f[0] >= 128 then Int(Base256(f))
    else
      var text := TrimEnd(TrimStart(ReadString(f)));
      if text == [] then Int(0) else ParseInt(text, 8)
  }

  lemma CStringOf(s: Bytes, z: Bytes)
    requires 0 !in s && (forall i :: 0 <= i < |z| ==> z[i] == 0)
    ensures CString(s + z) == s
  {
    var f := s + z;
    assert forall i :: 0 <= i < |s| ==> f[i] == s[i] && f[i] in s;
    if z == [] {
      assert f == s;
    } else {
      assert f[|s|] == 0;
      assert IndexOf(f, 0, 0) == |s|;
      assert f[..|s|] == s;
    }
  }

  lemma ReadDigits(s: Bytes)
    requires s != [] && AllDigits(s, 8)
    ensures ReadNumber(s + [0]) == Int(Value(s, 8))
  {
    assert 0 !in s;
    CStringOf(s, [0]);
    DigitsNotBlank(s, 8);
    ParseDigits(s, 8);
  }

  lemma {:induction false} TopDigits(n: nat, k: nat)
    requires 0 < k < |Digits(n, 8)|
    ensures AllDigits(Digits(n, 8)[..k], 8) && Value(Digits(n, 8)[..k], 8) < n
  {
    var s := Digits(n, 8);
    var t := Digits(n / 8, 8);
    assert s == t + [48 + n % 8];
    assert s[..k] == t[..k];
    if k == |t| {
      assert t[..k] == t;
      ValueOfDigits(n / 8, 8);
    } else {
      TopDigits(n / 8, k);
    }
  }

  /** An octal field of `k` bytes holds a number exactly when it fits in `k - 1` digits. */
  lemma OctalRoundTrip(n: nat, k: nat)
    requires k > 1
    ensures ReadNumber(OctalField(n, k)) == Int(n) <==> n < Pow(8, k - 1)
  {
    var s := Digits(n, 8);
    var f := PadStart(s, k - 1)[..k - 1];
    DigitCount(n, 8, k - 1);
    if |s| <= k - 1 {
      var z := seq(k - 1 - |s|, i => ZERO);
      assert f == z + s;
      ValuePadded(z, s, 8);
      ValueOfDigits(n, 8);
      ReadDigits(f);
    } else {
      TopDigits(n, k - 1);
      assert f == s[..k - 1];
      ReadDigits(f);
    }
  }

  lemma OctalNegative(value: int, k: nat)
    requires k > 1 && value < 0
    ensures ReadNumber(OctalField(value, k)) == Int(0)
  {
    PowGrows(8, k - 1);
    OctalRoundTrip(0, k);
  }
}
