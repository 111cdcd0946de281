/** The JavaScript string behaviour the tracker depends on: `String.prototype.trim`,
    `.length` (which counts UTF-16 code units), `Number.prototype.toString` on
    integers and `parseInt` in base 10. */
module Text {

  /** The result of `parseInt`: a number, or `NaN` when no digit could be read. */
  datatype Num = Num(value: int) | NaN

  /** The WhiteSpace and LineTerminator code points of ECMAScript, which `trim`
      removes and `parseInt` skips. */
  predicate IsWhitespace(c: char) {
    || c == '\t' || c == '\n' || c == '\U{000B}' || c == '\U{000C}' || c == '\r' || c == ' '
    || c == '\U{00A0}' || c == '\U{1680}' || ('\U{2000}' <= c <= '\U{200A}')
    || c == '\U{2028}' || c == '\U{2029}' || c == '\U{202F}' || c == '\U{205F}'
    || c == '\U{3000}' || c == '\U{FEFF}'
  }

  /** Every character of `s` is whitespace (so the empty text is blank). */
  predicate Blank(s: string) {
    forall k :: 0 <= k < |s| ==> IsWhitespace(s[k])
  }

  predicate IsDigit(c: char) {
    '0' <= c <= '9'
  }

  predicate AllDigits(s: string) {
    forall k :: 0 <= k < |s| ==> IsDigit(s[k])
  }

  /** `s` without its leading whitespace. */
  function TrimStart(s: string): (r: string)
    ensures |r| <= |s| && r == s[|s| - |r|..]
    ensures forall k :: 0 <= k < |s| - |r| ==> IsWhitespace(s[k])
    ensures r == [] || !IsWhitespace(r[0])
  {
    if s != [] && IsWhitespace(s[0]) then
      var r := TrimStart(s[1..]);
      assert r == s[|s| - |r|..];
      assert forall k :: 1 <= k < |s| ==> s[k] == s[1..][k - 1];
      r
    else s
  }

  /** `s` without its trailing whitespace. */
  function TrimEnd(s: string): (r: string)
    ensures |r| <= |s| && r == s[..|r|]
    ensures forall k :: |r| <= k < |s| ==> IsWhitespace(s[k])
    ensures r == [] || !IsWhitespace(r[|r| - 1])
  {
    if s != [] && IsWhitespace(s[|s| - 1]) then TrimEnd(s[..|s| - 1]) else s
  }

  /** `r` sits at offset `i` of `s`, with only whitespace before and after it. */
  predicate TrimmedAt(s: string, r: string, i: int) {
    0 <= i <= |s| - |r| && r == s[i..i + |r|] &&
    (forall k :: 0 <= k < i ==> IsWhitespace(s[k])) &&
    (forall k :: i + |r| <= k < |s| ==> IsWhitespace(s[k]))
  }

  /** `s.trim()`: the longest infix of `s` that neither starts nor ends with whitespace. */
  function Trim(s: string): (r: string)
    ensures |r| <= |s|
    ensures exists i :: TrimmedAt(s, r, i)
    ensures r == [] <==> forall k :: 0 <= k < |s| ==> IsWhitespace(s[k])
    ensures r != [] ==> !IsWhitespace(r[0]) && !IsWhitespace(r[|r| - 1])
  {
    var t := TrimStart(s);
    var r := TrimEnd(t);
    TrimmedAtOffset(s, t, r);
    r
  }

  /** Whitespace before `t` in `s`, and after `r` in `t`, is whitespace around `r` in `s`. */
  lemma TrimmedAtOffset(s: string, t: string, r: string)
    requires |t| <= |s| && t == s[|s| - |t|..]
    requires forall k :: 0 <= k < |s| - |t| ==> IsWhitespace(s[k])
    requires |r| <= |t| && r == t[..|r|]
    requires forall k :: |r| <= k < |t| ==> IsWhitespace(t[k])
    ensures TrimmedAt(s, r, |s| - |t|)
  {
    var i := |s| - |t|;
    assert s[i..i + |r|] == t[..|r|];
    forall k | i + |r| <= k < |s|
      ensures IsWhitespace(s[k])
    {
      assert s[k] == t[k - i];
    }
  }

  /** Whitespace padding around a text that neither starts nor ends with
      whitespace is exactly what `trim` removes. */
  lemma TrimOfPadded(pre: string, core: string, post: string)
    requires forall k :: 0 <= k < |pre| ==> IsWhitespace(pre[k])
    requires forall k :: 0 <= k < |post| ==> IsWhitespace(post[k])
    requires core != [] && !IsWhitespace(core[0]) && !IsWhitespace(core[|core| - 1])
    ensures Trim(pre + core + post) == core
  {
    var s := pre + core + post;
    assert s[|pre|] == core[0];
    TrimNotEmpty(s, |pre|);
    var r := Trim(s);
    var i :| TrimmedAt(s, r, i);
    PaddingIsUnique(pre, core, post, r, i);
  }

  lemma TrimNotEmpty(s: string, j: int)
    requires 0 <= j < |s| && !IsWhitespace(s[j])
    ensures Trim(s) != [] && !IsWhitespace(Trim(s)[0]) && !IsWhitespace(Trim(s)[|Trim(s)| - 1])
  {
  }

  /** Only one infix of a padded text is surrounded by whitespace and has none
      at either end: the text itself. */
  lemma PaddingIsUnique(pre: string, core: string, post: string, r: string, i: int)
    requires forall k :: 0 <= k < |pre| ==> IsWhitespace(pre[k])
    requires forall k :: 0 <= k < |post| ==> IsWhitespace(post[k])
    requires core != [] && !IsWhitespace(core[0]) && !IsWhitespace(core[|core| - 1])
    requires r != [] && !IsWhitespace(r[0]) && !IsWhitespace(r[|r| - 1])
    requires TrimmedAt(pre + core + post, r, i)
    ensures r == core
  {
    var s := pre + core + post;
    assert s[i] == r[0];
    assert s[i + |r| - 1] == r[|r| - 1];
    assert s[|pre|] == core[0];
    assert s[|pre| + |core| - 1] == core[|core| - 1];
    assert i == |pre|;
    assert i + |r| == |pre| + |core|;
    assert s[|pre|..|pre| + |core|] == core;
  }

  /** Trimming twice trims no more than trimming once. */
  lemma TrimIdempotent(s: string)
    ensures Trim(Trim(s)) == Trim(s)
  {
    var r := Trim(s);
    if r != [] {
      assert TrimStart(r) == r;
      assert TrimEnd(r) == r;
    }
  }

  /** A string's `.length`: code points beyond the Basic Multilingual Plane are
      stored as surrogate pairs and count twice. */
  function Utf16Length(s: string): (n: nat)
    ensures |s| <= n <= 2 * |s|
    ensures (forall k :: 0 <= k < |s| ==> s[k] as int < 0x1_0000) ==> n == |s|
  {
    if s == [] then 0 else (if s[0] as int < 0x1_0000 then 1 else 2) + Utf16Length(s[1..])
  }

  function DigitChar(d: nat): (c: char)
    requires d < 10
    ensures IsDigit(c)
  {
    (d + '0' as int) as char
  }

  /** `n.toString()` for a non-negative integer. */
  function NatToString(n: nat): (r: string)
    ensures r != [] && AllDigits(r)
  {
    if n < 10 then [DigitChar(n)] else NatToString(n / 10) + [DigitChar(n % 10)]
  }

  /** `n.toString()` for an integer. */
  function IntToString(n: int): (r: string)
    ensures r != [] && (n < 0 <==> r[0] == '-')
    ensures n >= 0 ==> AllDigits(r)
    ensures n < 0 ==> AllDigits(r[1..]) && r[1..] != []
  {
    if n < 0 then "-" + NatToString(-n) else NatToString(n)
  }

  /** The value of a string of decimal digits. */
  function DigitsValue(ds: string): nat
    requires AllDigits(ds)
  {
    if ds == [] then 0 else DigitsValue(ds[..|ds| - 1]) * 10 + (ds[|ds| - 1] as int - '0' as int)
  }

  /** Reading back what `NatToString` writes gives the number written. */
  lemma {:induction false} DigitsValueOfNatToString(n: nat)
    ensures DigitsValue(NatToString(n)) == n
  {
    if n >= 10 {
      var s := NatToString(n);
      assert s[..|s| - 1] == NatToString(n / 10);
      DigitsValueOfNatToString(n / 10);
    }
  }

  /** The longest prefix of `s` made of decimal digits. */
  function DigitPrefix(s: string): (r: string)
    ensures |r| <= |s| && r == s[..|r|] && AllDigits(r)
    ensures |r| == |s| || !IsDigit(s[|r|])
  {
    if s != [] && IsDigit(s[0]) then [s[0]] + DigitPrefix(s[1..]) else []
  }

  /** `parseInt(s)` in base 10: skip leading whitespace, read an optional sign,
      then as many decimal digits as follow; `NaN` when there are none. */
  function ParseInt(s: string): (r: Num)
    ensures (forall k :: 0 <= k < |s| ==> !IsDigit(s[k])) ==> r == NaN
    ensures s != [] && IsDigit(s[0]) ==> r.Num? && r.value >= 0
    ensures |s| >= 2 && s[0] == '-' && IsDigit(s[1]) ==> r.Num? && r.value <= 0
  {
    var t := TrimStart(s);
    var negative := t != [] && t[0] == '-';
    var rest := if t != [] && (t[0] == '-' || t[0] == '+') then t[1..] else t;
    var ds := DigitPrefix(rest);
    if ds == [] then NaN
    else
      var v: int := DigitsValue(ds);
      Num(if negative then -v else v)
  }

  /** `parseInt` reads back every integer that `toString` writes, and stops at the
      first character after the digits. */
  lemma ParseIntOfIntToString(n: int, tail: string)
    requires tail == [] || !IsDigit(tail[0])
    ensures ParseInt(IntToString(n) + tail) == Num(n)
  {
    if n < 0 {
      var m: nat := -n;
      assert IntToString(n) + tail == "-" + NatToString(m) + tail;
      ParseIntOfNegative(m, tail);
    } else {
      assert IntToString(n) + tail == NatToString(n) + tail;
      ParseIntOfNat(n, tail);
    }
  }

  lemma ParseIntOfNat(n: nat, tail: string)
    requires tail == [] || !IsDigit(tail[0])
    ensures ParseInt(NatToString(n) + tail) == Num(n)
  {
    var digits := NatToString(n);
    var s := digits + tail;
    DigitsValueOfNatToString(n);
    DigitPrefixStopsAtTail(digits, tail);
    TrimStartKeepsNumber(s);
    assert s[0] != '-' && s[0] != '+';
  }

  lemma ParseIntOfNegative(m: nat, tail: string)
    requires m > 0
    requires tail == [] || !IsDigit(tail[0])
    ensures ParseInt("-" + NatToString(m) + tail) == Num(0 - m)
  {
    var digits := NatToString(m);
    var s := "-" + digits + tail;
    assert s[0] == '-';
    TrimStartKeepsNumber(s);
    assert s[1..] == digits + tail;
    DigitPrefixStopsAtTail(digits, tail);
    assert DigitPrefix(s[1..]) == digits;
    DigitsValueOfNatToString(m);
  }

  lemma TrimStartKeepsNumber(s: string)
    requires s != [] && (s[0] == '-' || IsDigit(s[0]))
    ensures TrimStart(s) == s
  {
    assert !IsWhitespace(s[0]);
  }

  lemma {:induction false} DigitPrefixStopsAtTail(digits: string, tail: string)
    requires AllDigits(digits)
    requires tail == [] || !IsDigit(tail[0])
    ensures DigitPrefix(digits + tail) == digits
  {
    if digits != [] {
      assert (digits + tail)[1..] == digits[1..] + tail;
      DigitPrefixStopsAtTail(digits[1..], tail);
    }
  }
}
