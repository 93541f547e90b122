/**
 * The few pieces of Python string semantics the request handler relies on:
 * `str.strip()`, slicing `s[i:j]`, `str.endswith` with a tuple of suffixes,
 * and `int(t, 16)` on the at most two-character slices the colour
 * conversion hands it.
 */
module PyText {
  import opened Wrappers

  /** The characters for which Python's `str.isspace()` holds; `str.strip()` with no argument removes exactly these. */
  predicate IsSpace(c: char) {
    || c == ' ' || c == '\t' || c == '\n' || c == '\r' || c == '\U{0B}' || c == '\U{0C}'
    || ('\U{1C}' <= c <= '\U{1F}')
    || c == '\U{85}' || c == '\U{A0}' || c == '\U{1680}'
    || ('\U{2000}' <= c <= '\U{200A}')
    || c == '\U{2028}' || c == '\U{2029}' || c == '\U{202F}' || c == '\U{205F}' || c == '\U{3000}'
  }

  /**
   * The whitespace `int(t, 16)` skips around its digits: CPython first maps every
   * non-ASCII space to ' ' and then skips the six ASCII spaces only, so the
   * separators U+001C..U+001F, spaces for `str.strip()`, are not spaces here.
   */
  predicate IsIntSpace(c: char) {
    || c == ' ' || c == '\t' || c == '\n' || c == '\r' || c == '\U{0B}' || c == '\U{0C}'
    || ('\U{7F}' <= c && IsSpace(c))
  }

  /** Removes the leading characters satisfying `isSpace`. */
  function TrimLeft(s: string, isSpace: char -> bool): (r: string)
    ensures |r| <= |s| && r == s[|s| - |r|..]
    ensures forall i :: 0 <= i < |s| - |r| ==> isSpace(s[i])
    ensures r != "" ==> !isSpace(r[0])
    decreases |s|
  {
    if s != "" && isSpace(s[0]) then
      var r := TrimLeft(s[1..], isSpace);
      assert forall i :: 1 <= i < |s| - |r| ==> s[i] == s[1..][i - 1];
      r
    else
      s
  }

  /** Removes the trailing characters satisfying `isSpace`. */
  function TrimRight(s: string, isSpace: char -> bool): (r: string)
    ensures |r| <= |s| && r == s[..|r|]
    ensures forall i :: |r| <= i < |s| ==> isSpace(s[i])
    ensures r != "" ==> !isSpace(r[|r| - 1])
    decreases |s|
  {
    if s != "" && isSpace(s[|s| - 1]) then
      var r := TrimRight(s[..|s| - 1], isSpace);
      assert forall i :: |r| <= i < |s| - 1 ==> s[i] == s[..|s| - 1][i];
      r
    else
      s
  }

  /** Removes the characters satisfying `isSpace` from both ends. */
  function Trim(s: string, isSpace: char -> bool): (r: string)
    ensures |r| <= |s|
    ensures r == "" <==> forall i :: 0 <= i < |s| ==> isSpace(s[i])
    ensures r != "" ==> !isSpace(r[0]) && !isSpace(r[|r| - 1])
  {
    var l := TrimLeft(s, isSpace);
    var r := TrimRight(l, isSpace);
    if l == "" then
      assert forall i :: 0 <= i < |s| ==> isSpace(s[i]);
      r
    else
      assert !isSpace(l[0]) && l[0] == s[|s| - |l|];
      assert r != "" && r[0] == l[0];
      r
  }

  /** Python's `s.strip()`: `Trim` with the characters of `str.isspace()`. */
  function Strip(s: string): (r: string)
    ensures |r| <= |s|
    ensures r == "" <==> forall i :: 0 <= i < |s| ==> IsSpace(s[i])
    ensures r != "" ==> !IsSpace(r[0]) && !IsSpace(r[|r| - 1])
  {
    Trim(s, IsSpace)
  }

  /** `TrimLeft` does not look past leading space: a space prefix is dropped. */
  lemma {:induction false} TrimLeftSpacePrefix(p: string, s: string, isSpace: char -> bool)
    requires forall i :: 0 <= i < |p| ==> isSpace(p[i])
    ensures TrimLeft(p + s, isSpace) == TrimLeft(s, isSpace)
    decreases |p|
  {
    if p != "" {
      assert (p + s)[1..] == p[1..] + s;
      TrimLeftSpacePrefix(p[1..], s, isSpace);
    } else {
      assert p + s == s;
    }
  }

  /** `TrimRight` does not look past trailing space: a space suffix is dropped. */
  lemma {:induction false} TrimRightSpaceSuffix(s: string, q: string, isSpace: char -> bool)
    requires forall i :: 0 <= i < |q| ==> isSpace(q[i])
    ensures TrimRight(s + q, isSpace) == TrimRight(s, isSpace)
    decreases |q|
  {
    if q != "" {
      assert (s + q)[..|s + q| - 1] == s + q[..|q| - 1];
      TrimRightSpaceSuffix(s, q[..|q| - 1], isSpace);
    } else {
      assert s + q == s;
    }
  }

  /**
   * Trimming recovers the core of a space-padded string: whatever space `p` and `q`
   * hold, `Trim(p + s + q)` is `s` when `s` neither starts nor ends with space.
   */
  lemma TrimPadded(p: string, s: string, q: string, isSpace: char -> bool)
    requires forall i :: 0 <= i < |p| ==> isSpace(p[i])
    requires forall i :: 0 <= i < |q| ==> isSpace(q[i])
    requires s != "" ==> !isSpace(s[0]) && !isSpace(s[|s| - 1])
    ensures Trim(p + s + q, isSpace) == s
  {
    assert p + s + q == p + (s + q);
    TrimLeftSpacePrefix(p, s + q, isSpace);
    if s == "" {
      assert s + q == q;
    } else {
      assert (s + q)[0] == s[0];
      TrimRightSpaceSuffix(s, q, isSpace);
    }
  }

  /** A string that neither starts nor ends with space is its own trim. */
  lemma TrimUnpadded(s: string, isSpace: char -> bool)
    requires s != "" ==> !isSpace(s[0]) && !isSpace(s[|s| - 1])
    ensures Trim(s, isSpace) == s
  {
    TrimPadded("", s, "", isSpace);
    assert "" + s + "" == s;
  }

  /** Stripping twice is stripping once. */
  lemma StripIdempotent(s: string)
    ensures Strip(Strip(s)) == Strip(s)
  {
    var t := Strip(s);
    assert t != "" ==> !IsSpace(t[0]) && !IsSpace(t[|t| - 1]);
    TrimUnpadded(t, IsSpace);
  }

  /** Python's `s[i:j]` for `0 <= i <= j`: both bounds are clamped to the length, so it never fails. */
  function Slice(s: string, i: nat, j: nat): (r: string)
    requires i <= j
    ensures |r| == (if j <= |s| then j - i else if i <= |s| then |s| - i else 0)
    ensures forall k :: 0 <= k < |r| ==> r[k] == s[i + k]
  {
    var lo := if i < |s| then i else |s|;
    var hi := if j < |s| then j else |s|;
    s[lo..hi]
  }

  /** Python's `s.endswith(suffix)`. */
  predicate EndsWith(s: string, suffix: string) {
    |suffix| <= |s| && s[|s| - |suffix|..] == suffix
  }

  /** Python's `s.endswith(suffixes)` for a tuple: some suffix matches. */
  predicate EndsWithAny(s: string, suffixes: seq<string>) {
    exists k :: 0 <= k < |suffixes| && EndsWith(s, suffixes[k])
  }

  predicate IsHexDigit(c: char) {
    '0' <= c <= '9' || 'a' <= c <= 'f' || 'A' <= c <= 'F'
  }

  predicate AllHexDigits(ds: string) {
    forall i :: 0 <= i < |ds| ==> IsHexDigit(ds[i])
  }

  /** The value of one hexadecimal digit, either case. */
  function HexDigitValue(c: char): (v: nat)
    requires IsHexDigit(c)
    ensures v < 16
  {
    if '0' <= c <= '9' then c as int - '0' as int
    else if 'a' <= c <= 'f' then c as int - 'a' as int + 10
    else c as int - 'A' as int + 10
  }

  /** `16` to the power `n`. */
  function Pow16(n: nat): nat {
    if n == 0 then 1 else 16 * Pow16(n - 1)
  }

  /** The value of a hexadecimal numeral, most significant digit first. */
  function HexValue(ds: string): (v: nat)
    requires AllHexDigits(ds)
    ensures v < Pow16(|ds|)
  {
    if ds == "" then 0
    else 16 * HexValue(ds[..|ds| - 1]) + HexDigitValue(ds[|ds| - 1])
  }

  /** An unsigned hexadecimal numeral of one or two digits. */
  function UnsignedHex(ds: string): (r: Option<int>)
    requires |ds| <= 2
    ensures r.Some? <==> ds != "" && AllHexDigits(ds)
    ensures r.Some? ==> 0 <= r.value <= 255
  {
    assert Pow16(2) == 256;
    if ds != "" && AllHexDigits(ds) then Some(HexValue(ds)) else None
  }

  /**
   * CPython's reading of `int(t, 16)` for a string of at most two characters, step
   * by step: skip whitespace at both ends, take one optional sign, then require
   * one or more hex digits. `None` stands for `ValueError`. The `0x` prefix and
   * the underscores Python also accepts need three or more characters.
   */
  function IntBase16(t: string): (r: Option<int>)
    requires |t| <= 2
  {
    SignedHex(Trim(t, IsIntSpace))
  }

  /** The numeral `int(t, 16)` reads once the whitespace is gone: one optional sign, then hex digits. */
  function SignedHex(u: string): (r: Option<int>)
    requires |u| <= 2
  {
    if u != "" && (u[0] == '+' || u[0] == '-') then
      match UnsignedHex(u[1..])
      case Some(v) => Some(if u[0] == '-' then -v else v)
      case None => None
    else
      UnsignedHex(u)
  }

  /**
   * The same reading as `IntBase16`, spelled out by cases: two digits; one
   * digit; a digit with a space before or after it; a sign and a digit.
   * Everything else, the empty string included, raises.
   */
  function ReadHexSlice(t: string): (r: Option<int>)
    requires |t| <= 2
    ensures r.Some? ==> -15 <= r.value <= 255
    ensures t == "" ==> r == None
  {
    if |t| == 0 then None
    else if |t| == 1 then
      if IsHexDigit(t[0]) then Some(HexDigitValue(t[0])) else None
    else if IsHexDigit(t[0]) && IsHexDigit(t[1]) then Some(16 * HexDigitValue(t[0]) + HexDigitValue(t[1]))
    else if IsIntSpace(t[0]) && IsHexDigit(t[1]) then Some(HexDigitValue(t[1]))
    else if IsHexDigit(t[0]) && IsIntSpace(t[1]) then Some(HexDigitValue(t[0]))
    else if t[0] == '+' && IsHexDigit(t[1]) then Some(HexDigitValue(t[1]))
    else if t[0] == '-' && IsHexDigit(t[1]) then Some(-(HexDigitValue(t[1]) as int))
    else None
  }

  /** One hex digit denotes its own value. */
  lemma HexValueSingle(c: char)
    requires IsHexDigit(c)
    ensures HexValue([c]) == HexDigitValue(c)
  {
    assert [c][..0] == "";
  }

  /** Two hex digits denote sixteen times the first plus the second. */
  lemma HexValuePair(c0: char, c1: char)
    requires IsHexDigit(c0) && IsHexDigit(c1)
    ensures HexValue([c0, c1]) == 16 * HexDigitValue(c0) + HexDigitValue(c1)
  {
    assert [c0, c1][..1] == [c0];
    HexValueSingle(c0);
  }

  /** Neither sign is a hex digit or a space for `int`. */
  lemma SignIsNotDigitOrSpace(c: char)
    requires c == '+' || c == '-'
    ensures !IsHexDigit(c) && !IsIntSpace(c)
  {
  }

  /** No space for `int` is a hex digit or a sign. */
  lemma SpaceIsNotDigitOrSign(c: char)
    requires IsIntSpace(c)
    ensures !IsHexDigit(c) && c != '+' && c != '-'
  {
  }

  /** The case table agrees with CPython's reading on every string of at most two characters. */
  lemma ReadHexSliceIsIntBase16(t: string)
    requires |t| <= 2
    ensures ReadHexSlice(t) == IntBase16(t)
  {
    if |t| == 0 {
      TrimUnpadded(t, IsIntSpace);
      IntBase16OfTrimmed(t, t);
    } else if |t| == 1 {
      ReadSingleIsIntBase16(t);
    } else {
      ReadPairIsIntBase16(t);
    }
  }

  /** `IntBase16` depends on its argument only through the trimmed string. */
  lemma IntBase16OfTrimmed(t: string, u: string)
    requires |t| <= 2 && Trim(t, IsIntSpace) == u
    ensures IntBase16(t) == SignedHex(u)
  {
  }

  /** Trimming one character: it goes exactly when it is a space for `int`. */
  lemma TrimSingle(t: string)
    requires |t| == 1
    ensures Trim(t, IsIntSpace) == if IsIntSpace(t[0]) then "" else t
  {
    if !IsIntSpace(t[0]) {
      TrimUnpadded(t, IsIntSpace);
    }
  }

  /** Trimming two characters: each of them goes when it is a space for `int`. */
  lemma TrimPair(t: string)
    requires |t| == 2
    ensures Trim(t, IsIntSpace) ==
              if IsIntSpace(t[0]) && IsIntSpace(t[1]) then ""
              else if IsIntSpace(t[0]) then t[1..]
              else if IsIntSpace(t[1]) then t[..1]
              else t
  {
    var a, b := [t[0]], [t[1]];
    assert t == a + b && t[..1] == a && t[1..] == b;
    if IsIntSpace(t[0]) && IsIntSpace(t[1]) {
      assert forall i :: 0 <= i < |t| ==> IsIntSpace(t[i]);
    } else if IsIntSpace(t[0]) {
      TrimPadded(a, b, "", IsIntSpace);
      assert a + b + "" == t;
    } else if IsIntSpace(t[1]) {
      TrimPadded("", a, b, IsIntSpace);
      assert "" + a + b == t;
    } else {
      TrimUnpadded(t, IsIntSpace);
    }
  }

  /** A one-character numeral that is not a space reads exactly when it is a digit. */
  lemma SignedHexSingle(u: string)
    requires |u| == 1
    ensures SignedHex(u) == if IsHexDigit(u[0]) then Some(HexDigitValue(u[0])) else None
  {
    if IsHexDigit(u[0]) {
      assert u == [u[0]];
      HexValueSingle(u[0]);
    } else if u[0] == '+' || u[0] == '-' {
      assert u[1..] == "";
    }
  }

  /** A two-character numeral without spaces: two digits, or a sign and a digit. */
  lemma SignedHexPair(u: string)
    requires |u| == 2
    ensures SignedHex(u) ==
              if IsHexDigit(u[0]) && IsHexDigit(u[1]) then Some(16 * HexDigitValue(u[0]) + HexDigitValue(u[1]))
              else if u[0] == '+' && IsHexDigit(u[1]) then Some(HexDigitValue(u[1]))
              else if u[0] == '-' && IsHexDigit(u[1]) then Some(-(HexDigitValue(u[1]) as int))
              else None
  {
    if u[0] == '+' || u[0] == '-' {
      SignIsNotDigitOrSpace(u[0]);
      SignedHexSingleDigits(u[1..]);
    } else if IsHexDigit(u[0]) && IsHexDigit(u[1]) {
      assert u == [u[0], u[1]];
      HexValuePair(u[0], u[1]);
    }
  }

  /** The unsigned reading of one character. */
  lemma SignedHexSingleDigits(d: string)
    requires |d| == 1
    ensures UnsignedHex(d) == if IsHexDigit(d[0]) then Some(HexDigitValue(d[0])) else None
  {
    if IsHexDigit(d[0]) {
      assert d == [d[0]];
      HexValueSingle(d[0]);
    }
  }

  /** `ReadHexSliceIsIntBase16` for one character. */
  lemma ReadSingleIsIntBase16(t: string)
    requires |t| == 1
    ensures ReadHexSlice(t) == IntBase16(t)
  {
    if IsIntSpace(t[0]) {
      ReadSingleSpace(t);
    } else {
      ReadSingleNonSpace(t);
    }
  }

  /** A lone space reads as nothing, which raises. */
  lemma ReadSingleSpace(t: string)
    requires |t| == 1 && IsIntSpace(t[0])
    ensures ReadHexSlice(t) == None && IntBase16(t) == None
  {
    TrimSingle(t);
    SpaceIsNotDigitOrSign(t[0]);
    IntBase16OfTrimmed(t, "");
  }

  /** A lone character that is not a space reads exactly when it is a digit. */
  lemma ReadSingleNonSpace(t: string)
    requires |t| == 1 && !IsIntSpace(t[0])
    ensures ReadHexSlice(t) == IntBase16(t)
  {
    TrimSingle(t);
    IntBase16OfTrimmed(t, t);
    SignedHexSingle(t);
  }

  /** `ReadHexSliceIsIntBase16` for two characters, case by case. */
  lemma ReadPairIsIntBase16(t: string)
    requires |t| == 2
    ensures ReadHexSlice(t) == IntBase16(t)
  {
    TrimPair(t);
    IntBase16OfTrimmed(t, Trim(t, IsIntSpace));
    if IsIntSpace(t[0]) && IsIntSpace(t[1]) {
    } else if IsIntSpace(t[0]) {
      SpaceIsNotDigitOrSign(t[0]);
      SignedHexSingle(t[1..]);
    } else if IsIntSpace(t[1]) {
      SpaceIsNotDigitOrSign(t[1]);
      SignedHexSingle(t[..1]);
    } else {
      SignedHexPair(t);
    }
  }
}
