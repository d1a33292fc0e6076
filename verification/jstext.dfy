/** The JavaScript string built-ins the extractors rely on: `parseInt`,
    `trim`, `split`, `substring`/`substr`, `startsWith`/`endsWith`.
    Strings are sequences of characters; JavaScript's UTF-16 code units are
    not distinguished from Unicode scalar values. */
module JsText {

  /** A number as `parseInt` can produce it: an integer or NaN. */
  datatype Num = Int(value: int) | NaN

  /** WhiteSpace and LineTerminator characters of ECMAScript, the set that
      `trim` removes and `parseInt` skips. */
  predicate IsJsSpace(c: char) {
    || c == '\t' || c == '\n' || c == '\U{B}' || c == '\U{C}' || c == '\r' || c == ' '
    || c == '\U{A0}' || c == '\U{1680}' || ('\U{2000}' <= c <= '\U{200A}')
    || c == '\U{2028}' || c == '\U{2029}' || c == '\U{202F}' || c == '\U{205F}'
    || c == '\U{3000}' || c == '\U{FEFF}'
  }

  predicate IsDigit(c: char) {
    '0' <= c <= '9'
  }

  predicate IsHexDigit(c: char) {
    IsDigit(c) || 'a' <= c <= 'f' || 'A' <= c <= 'F'
  }

  predicate AllDigits(s: string) {
    forall i :: 0 <= i < |s| ==> IsDigit(s[i])
  }

  predicate AllHexDigits(s: string) {
    forall i :: 0 <= i < |s| ==> IsHexDigit(s[i])
  }

  function DigitValue(c: char): nat
    requires IsDigit(c)
  {
    c as int - '0' as int
  }

  function HexDigitValue(c: char): nat
    requires IsHexDigit(c)
  {
    if IsDigit(c) then DigitValue(c)
    else if 'a' <= c <= 'f' then c as int - 'a' as int + 10
    else c as int - 'A' as int + 10
  }

  /** Value of a run of decimal digits, most significant first. */
  function DigitsValue(d: string): nat
    requires AllDigits(d)
  {
    if |d| == 0 then 0 else 10 * DigitsValue(d[..|d| - 1]) + DigitValue(d[|d| - 1])
  }

  /** Value of a run of hexadecimal digits, most significant first. */
  function HexValue(h: string): nat
    requires AllHexDigits(h)
  {
    if |h| == 0 then 0 else 16 * HexValue(h[..|h| - 1]) + HexDigitValue(h[|h| - 1])
  }

  predicate StartsWith(s: string, prefix: string) {
    prefix <= s
  }

  predicate EndsWith(s: string, suffix: string) {
    |suffix| <= |s| && s[|s| - |suffix|..] == suffix
  }

  /** `s.substring(n)` (and `s.substr(n)`) for a non-negative `n`. */
  function Drop(s: string, n: nat): (t: string)
    ensures n <= |s| ==> s == s[..n] + t
    ensures n >= |s| ==> t == ""
  {
    if n <= |s| then s[n..] else ""
  }

  /** The longest prefix of `s` whose characters all satisfy `p`. */
  function Span(s: string, p: char -> bool): (d: string)
    ensures d <= s
    ensures forall i :: 0 <= i < |d| ==> p(d[i])
    ensures |d| < |s| ==> !p(s[|d|])
  {
    if |s| > 0 && p(s[0]) then [s[0]] + Span(s[1..], p) else []
  }

  /** `s` without its leading JavaScript white space. */
  function TrimStart(s: string): (t: string)
    ensures |t| <= |s| && t == s[|s| - |t|..]
    ensures forall i :: 0 <= i < |s| - |t| ==> IsJsSpace(s[i])
    ensures |t| > 0 ==> !IsJsSpace(t[0])
  {
    if |s| > 0 && IsJsSpace(s[0]) then TrimStart(s[1..]) else s
  }

  /** `s` without its trailing JavaScript white space. */
  function TrimEnd(s: string): (t: string)
    ensures t <= s
    ensures forall i :: |t| <= i < |s| ==> IsJsSpace(s[i])
    ensures |t| > 0 ==> !IsJsSpace(t[|t| - 1])
  {
    if |s| > 0 && IsJsSpace(s[|s| - 1]) then TrimEnd(s[..|s| - 1]) else s
  }

  /** `s.trim()`. */
  function Trim(s: string): (t: string)
    ensures |t| <= |s|
    ensures |t| > 0 ==> !IsJsSpace(t[0]) && !IsJsSpace(t[|t| - 1])
    ensures exists a :: TrimmedAt(s, t, a)
  {
    TrimBothEnds(s);
    TrimEnd(TrimStart(s))
  }

  /** Trimming both ends leaves `s` from where its leading white space ends. */
  lemma {:induction false} TrimBothEnds(s: string)
    ensures TrimmedAt(s, TrimEnd(TrimStart(s)), |s| - |TrimStart(s)|)
  {
    PaddedBy(s, TrimStart(s), TrimEnd(TrimStart(s)));
  }

  /** White space, then `u`, which is `t` then white space: `t` sits where
      `u` starts, with only white space around it. */
  lemma PaddedBy(s: string, u: string, t: string)
    requires |u| <= |s| && u == s[|s| - |u|..]
    requires forall i :: 0 <= i < |s| - |u| ==> IsJsSpace(s[i])
    requires t <= u && forall i :: |t| <= i < |u| ==> IsJsSpace(u[i])
    ensures TrimmedAt(s, t, |s| - |u|)
  {
    var a := |s| - |u|;
    forall i | 0 <= i < a ensures IsJsSpace(s[..a][i]) {
      assert s[..a][i] == s[i];
    }
    var post := s[a + |t|..];
    forall i | 0 <= i < |post| ensures IsJsSpace(post[i]) {
      assert post[i] == u[|t| + i];
    }
    assert t == u[..|t|] == s[a..a + |t|];
  }

  /** Every character of `s` is white space. */
  predicate AllSpace(s: string) {
    forall i :: 0 <= i < |s| ==> IsJsSpace(s[i])
  }

  /** `t` is `s` from position `a` on, with only white space around it. */
  predicate TrimmedAt(s: string, t: string, a: int) {
    && 0 <= a && a + |t| <= |s| && t == s[a..a + |t|]
    && AllSpace(s[..a]) && AllSpace(s[a + |t|..])
  }

  /** `parseInt(s)` with the default radix: leading white space is skipped,
      one sign is accepted, a `0x`/`0X` prefix selects hexadecimal, and the
      longest run of digits that follows is read; no digit at all gives NaN. */
  function ParseInt(s: string): (n: Num)
    ensures |s| > 0 && IsDigit(s[0]) && (|s| == 1 || (s[1] != 'x' && s[1] != 'X')) ==> n.Int? && n.value >= 0
    ensures n.Int? && n.value < 0 ==> '-' in s
  {
    var t := TrimStart(s);
    assert |t| > 0 ==> t[0] == s[|s| - |t|];
    if |t| > 0 && (t[0] == '-' || t[0] == '+') then
      match ParseUnsigned(t[1..])
      case NaN => NaN
      case Int(m) => Int(if t[0] == '-' then -m else m)
    else
      ParseUnsigned(t)
  }

  /** The digits after white space and sign: hexadecimal after `0x`/`0X`,
      decimal otherwise. */
  function ParseUnsigned(u: string): (n: Num)
    ensures n.Int? ==> n.value >= 0
  {
    if |u| >= 2 && u[0] == '0' && (u[1] == 'x' || u[1] == 'X') then
      var h := Span(u[2..], IsHexDigit);
      if |h| == 0 then NaN else Int(HexValue(h))
    else
      var d := Span(u, IsDigit);
      if |d| == 0 then NaN else Int(DigitsValue(d))
  }

  /** Decimal rendering of a natural number, the inverse of DigitsValue. */
  function Show(n: nat): (s: string)
    ensures |s| > 0 && AllDigits(s)
    ensures DigitsValue(s) == n
  {
    var c := ['0' + (n % 10) as char];
    if n < 10 then c else Show(n / 10) + c
  }

  /** Index of the first occurrence of `c` in `s`. */
  function IndexOf(s: string, c: char): (k: nat)
    requires c in s
    ensures k < |s| && s[k] == c && c !in s[..k]
  {
    if s[0] == c then 0 else 1 + IndexOf(s[1..], c)
  }

  /** `s.split(c)` for a one-character separator. */
  function Split(s: string, c: char): (parts: seq<string>)
    ensures |parts| > 0
    ensures forall i :: 0 <= i < |parts| ==> c !in parts[i]
    decreases |s|
  {
    if c in s then
      var k := IndexOf(s, c);
      [s[..k]] + Split(s[k + 1..], c)
    else
      [s]
  }

  /** `parts.join(c)`: the inverse of Split. */
  function Join(parts: seq<string>, c: char): string
    requires |parts| > 0
  {
    if |parts| == 1 then parts[0] else parts[0] + [c] + Join(parts[1..], c)
  }

  /** Re-joining the pieces of a split gives back the original string. */
  lemma {:induction false} JoinSplit(s: string, c: char)
    ensures Join(Split(s, c), c) == s
    decreases |s|
  {
    if c in s {
      var k := IndexOf(s, c);
      JoinSplit(s[k + 1..], c);
      assert s == s[..k] + [c] + s[k + 1..];
    }
  }

  /** Splitting a join of separator-free pieces gives back the pieces. */
  lemma {:induction false} SplitJoin(parts: seq<string>, c: char)
    requires |parts| > 0
    requires forall i :: 0 <= i < |parts| ==> c !in parts[i]
    ensures Split(Join(parts, c), c) == parts
  {
    if |parts| > 1 {
      var s := Join(parts, c);
      var rest := Join(parts[1..], c);
      assert s == parts[0] + [c] + rest;
      assert s[|parts[0]|] == c;
      assert s[..|parts[0]|] == parts[0];
      var k := IndexOf(s, c);
      assert k == |parts[0]|;
      assert s[k + 1..] == rest;
      SplitJoin(parts[1..], c);
    }
  }

  /** The first piece of a split is the text before the first separator. */
  lemma SplitHead(a: string, c: char, b: string)
    requires c !in a
    ensures Split(a + [c] + b, c)[0] == a
    ensures |Split(a + [c] + b, c)| >= 2 && Split(a + [c] + b, c)[1..] == Split(b, c)
  {
    var s := a + [c] + b;
    assert s[|a|] == c;
    var k := IndexOf(s, c);
    assert s[..|a|] == a;
    assert k == |a|;
    assert s[k + 1..] == b;
  }

  /** The digit span of a digit run followed by a non-digit is that run. */
  lemma {:induction false} SpanOfDigits(d: string, rest: string)
    requires AllDigits(d)
    requires |rest| == 0 || !IsDigit(rest[0])
    ensures Span(d + rest, IsDigit) == d
  {
    if |d| > 0 {
      assert (d + rest)[1..] == d[1..] + rest;
      SpanOfDigits(d[1..], rest);
    } else {
      assert d + rest == rest;
    }
  }

  /** parseInt reads back the decimal rendering of a natural number, whatever
      non-digit text follows it (other than an `x` that would make `0x`). */
  lemma ParseIntShow(n: nat, rest: string)
    requires |rest| == 0 || (!IsDigit(rest[0]) && rest[0] != 'x' && rest[0] != 'X')
    ensures ParseInt(Show(n) + rest) == Int(n)
  {
    var d := Show(n);
    var s := d + rest;
    assert s[0] == d[0];
    ParseIntFromDigit(s);
    SpanOfDigits(d, rest);
    if |d| > 1 {
      assert s[1] == d[1];
    } else if |s| >= 2 {
      assert s[1] == rest[0];
    }
  }

  /** A non-empty run of decimal digits reads as its value. */
  lemma ParseIntDigits(d: string)
    requires |d| > 0 && AllDigits(d)
    ensures ParseInt(d) == Int(DigitsValue(d))
  {
    ParseIntFromDigit(d);
    SpanOfDigits(d, "");
    assert d + "" == d;
  }

  /** Text that starts with a digit has neither white space nor sign to skip. */
  lemma ParseIntFromDigit(s: string)
    requires |s| > 0 && IsDigit(s[0])
    ensures ParseInt(s) == ParseUnsigned(s)
  {
    assert !IsJsSpace(s[0]);
    assert TrimStart(s) == s;
  }

  /** Text without any decimal digit reads as NaN. */
  lemma ParseIntNoDigit(s: string)
    requires forall i :: 0 <= i < |s| ==> !IsDigit(s[i])
    ensures ParseInt(s) == NaN
  {
    var t := TrimStart(s);
    assert forall i :: 0 <= i < |t| ==> t[i] == s[|s| - |t| + i];
    if |t| > 0 && (t[0] == '-' || t[0] == '+') {
      assert forall i :: 0 <= i < |t| - 1 ==> t[1..][i] == t[i + 1];
      ParseUnsignedNoDigit(t[1..]);
    } else {
      ParseUnsignedNoDigit(t);
    }
  }

  lemma ParseUnsignedNoDigit(u: string)
    requires forall i :: 0 <= i < |u| ==> !IsDigit(u[i])
    ensures ParseUnsigned(u) == NaN
  {
    if |u| > 0 {
      assert !IsDigit(u[0]);
    }
  }

  /** Trim removes exactly the white-space padding around a word whose ends
      are not white space. */
  lemma {:induction false} TrimPadded(pre: string, t: string, post: string)
    requires forall i :: 0 <= i < |pre| ==> IsJsSpace(pre[i])
    requires forall i :: 0 <= i < |post| ==> IsJsSpace(post[i])
    requires |t| > 0 && !IsJsSpace(t[0]) && !IsJsSpace(t[|t| - 1])
    ensures Trim(pre + t + post) == t
  {
    TrimStartPadded(pre, t + post);
    assert pre + t + post == pre + (t + post);
    TrimEndPadded(t, post);
  }

  lemma {:induction false} TrimStartPadded(pre: string, s: string)
    requires forall i :: 0 <= i < |pre| ==> IsJsSpace(pre[i])
    requires |s| > 0 && !IsJsSpace(s[0])
    ensures TrimStart(pre + s) == s
  {
    if |pre| > 0 {
      assert (pre + s)[1..] == pre[1..] + s;
      TrimStartPadded(pre[1..], s);
    } else {
      assert pre + s == s;
    }
  }

  lemma {:induction false} TrimEndPadded(s: string, post: string)
    requires forall i :: 0 <= i < |post| ==> IsJsSpace(post[i])
    requires |s| > 0 && !IsJsSpace(s[|s| - 1])
    ensures TrimEnd(s + post) == s
  {
    if |post| > 0 {
      assert (s + post)[..|s + post| - 1] == s + post[..|post| - 1];
      TrimEndPadded(s, post[..|post| - 1]);
    } else {
      assert s + post == s;
    }
  }
}
