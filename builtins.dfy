/**
 * The Python built-ins the core relies on: `str.strip()`, `sep.join(parts)`,
 * `int(text)` on a string and `str(n)` on an integer.
 */
module Builtins {
  import opened Wrappers

  // ---------------------------------------------------------------------------
  // str.strip()
  // ---------------------------------------------------------------------------

  /** The characters for which Python's `str.isspace()` holds: the ones `strip()` removes. */
  predicate IsSpace(c: char) {
    || ('\U{9}' <= c <= '\U{D}')
    || ('\U{1C}' <= c <= '\U{20}')
    || c == '\U{85}' || c == '\U{A0}' || c == '\U{1680}'
    || ('\U{2000}' <= c <= '\U{200A}')
    || c == '\U{2028}' || c == '\U{2029}' || c == '\U{202F}' || c == '\U{205F}' || c == '\U{3000}'
  }

  predicate AllSpace(s: string) {
    forall k :: 0 <= k < |s| ==> IsSpace(s[k])
  }

  /** Drops the leading whitespace. */
  function TrimLeft(s: string): (r: string)
    ensures |r| <= |s|
  {
    if |s| > 0 && IsSpace(s[0]) then TrimLeft(s[1..]) else s
  }

  /** Drops the trailing whitespace. */
  function TrimRight(s: string): (r: string)
    ensures |r| <= |s|
  {
    if |s| > 0 && IsSpace(s[|s| - 1]) then TrimRight(s[..|s| - 1]) else s
  }

  /** What `TrimLeft` keeps is a suffix of `s` that does not start with a space; what it drops is all space. */
  lemma {:induction false} TrimLeftSpec(s: string)
    ensures var r := TrimLeft(s);
      && |r| <= |s| && r == s[|s| - |r|..]
      && AllSpace(s[..|s| - |r|])
      && (r == [] || !IsSpace(r[0]))
  {
    if |s| > 0 && IsSpace(s[0]) {
      TrimLeftSpec(s[1..]);
      var r := TrimLeft(s[1..]);
      assert s[..|s| - |r|] == [s[0]] + s[1..][..|s| - 1 - |r|];
    }
  }

  /** What `TrimRight` keeps is a prefix of `s` that does not end with a space; what it drops is all space. */
  lemma {:induction false} TrimRightSpec(s: string)
    ensures var r := TrimRight(s);
      && |r| <= |s| && r == s[..|r|]
      && AllSpace(s[|r|..])
      && (r == [] || !IsSpace(r[|r| - 1]))
  {
    if |s| > 0 && IsSpace(s[|s| - 1]) {
      TrimRightSpec(s[..|s| - 1]);
      var r := TrimRight(s[..|s| - 1]);
      assert s[|r|..] == s[..|s| - 1][|r|..] + [s[|s| - 1]];
    }
  }

  /** `s.strip()` */
  function Strip(s: string): string {
    TrimRight(TrimLeft(s))
  }

  /** `s.strip()` is empty exactly when `s` is all whitespace. */
  lemma StripEmpty(s: string)
    ensures Strip(s) == [] <==> AllSpace(s)
  {
    var t := TrimLeft(s);
    TrimLeftSpec(s);
    TrimRightSpec(t);
    if t != [] {
      assert t[0] == s[|s| - |t|];
      assert TrimRight(t)[0] == t[0];
    } else {
      assert s[..|s| - |t|] == s;
    }
  }

  /** Where the text `strip()` keeps begins in `s`. */
  function StripStart(s: string): nat {
    |s| - |TrimLeft(s)|
  }

  /** `strip()` keeps a slice of `s` whose first and last characters are not spaces, and removes only spaces around it. */
  lemma StripSpec(s: string)
    ensures var r, i := Strip(s), StripStart(s);
      && i + |r| <= |s|
      && r == s[i..i + |r|]
      && AllSpace(s[..i]) && AllSpace(s[i + |r|..])
      && (r != [] ==> !IsSpace(r[0]) && !IsSpace(r[|r| - 1]))
  {
    var t := TrimLeft(s);
    var r := TrimRight(t);
    TrimLeftSpec(s);
    TrimRightSpec(t);
    var i := |s| - |t|;
    if t != [] {
      assert r[0] == t[0];
    }
    assert r == s[i..i + |r|];
    assert s[i + |r|..] == t[|r|..];
  }

  /** Stripping twice is stripping once. */
  lemma StripIdempotent(s: string)
    ensures Strip(Strip(s)) == Strip(s)
  {
    var r := Strip(s);
    StripSpec(s);
    if r != [] {
      assert TrimLeft(r) == r;
      assert TrimRight(r) == r;
    }
  }

  /** A string whose ends are not spaces is left alone by `strip()`. */
  lemma StripKeeps(s: string)
    requires s != [] && !IsSpace(s[0]) && !IsSpace(s[|s| - 1])
    ensures Strip(s) == s
  {
    assert TrimLeft(s) == s;
    assert TrimRight(s) == s;
  }

  lemma {:induction false} TrimLeftPadded(before: string, s: string)
    requires AllSpace(before) && s != [] && !IsSpace(s[0])
    ensures TrimLeft(before + s) == s
  {
    if before == [] {
      assert before + s == s;
    } else {
      assert (before + s)[1..] == before[1..] + s;
      TrimLeftPadded(before[1..], s);
    }
  }

  lemma {:induction false} TrimRightPadded(s: string, after: string)
    requires AllSpace(after) && s != [] && !IsSpace(s[|s| - 1])
    ensures TrimRight(s + after) == s
  {
    if after == [] {
      assert s + after == s;
    } else {
      var init := after[..|after| - 1];
      assert (s + after)[..|s + after| - 1] == s + init;
      TrimRightPadded(s, init);
    }
  }

  /** `strip()` removes exactly the whitespace padding around text whose ends are not spaces. */
  lemma StripPadded(before: string, s: string, after: string)
    requires AllSpace(before) && AllSpace(after)
    requires s != [] && !IsSpace(s[0]) && !IsSpace(s[|s| - 1])
    ensures Strip(before + s + after) == s
  {
    assert before + s + after == before + (s + after);
    TrimLeftPadded(before, s + after);
    TrimRightPadded(s, after);
  }

  // ---------------------------------------------------------------------------
  // sep.join(parts)
  // ---------------------------------------------------------------------------

  function TotalLength(parts: seq<string>): nat {
    if parts == [] then 0 else TotalLength(parts[..|parts| - 1]) + |parts[|parts| - 1]|
  }

  /** `sep.join(parts)`: the parts in order with one separator between neighbours. */
  function Join(parts: seq<string>, sep: string): string {
    if |parts| == 0 then ""
    else if |parts| == 1 then parts[0]
    else Join(parts[..|parts| - 1], sep) + sep + parts[|parts| - 1]
  }

  /** The joined text is as long as the parts together plus one separator between each pair of neighbours. */
  lemma {:induction false} JoinLength(parts: seq<string>, sep: string)
    ensures |Join(parts, sep)| == TotalLength(parts) + (if parts == [] then 0 else (|parts| - 1) * |sep|)
  {
    if |parts| == 1 {
      assert parts[..0] == [];
    } else if |parts| > 1 {
      var init := parts[..|parts| - 1];
      JoinLength(init, sep);
      assert (|parts| - 1) * |sep| == (|init| - 1) * |sep| + |sep|;
    }
  }

  /** Joining a concatenation is joining each half and putting one separator between them. */
  lemma {:induction false} JoinAppend(a: seq<string>, b: seq<string>, sep: string)
    requires a != [] && b != []
    ensures Join(a + b, sep) == Join(a, sep) + sep + Join(b, sep)
    decreases |b|
  {
    if |b| == 1 {
      assert (a + b)[..|a + b| - 1] == a;
    } else {
      var b' := b[..|b| - 1];
      assert (a + b)[..|a + b| - 1] == a + b';
      JoinAppend(a, b', sep);
    }
  }

  // ---------------------------------------------------------------------------
  // int(text) and str(n)
  // ---------------------------------------------------------------------------

  predicate IsDigit(c: char) {
    '0' <= c <= '9'
  }

  function DigitValue(c: char): (d: nat)
    requires IsDigit(c)
    ensures d < 10
  {
    (c as int) - ('0' as int)
  }

  function DigitChar(d: nat): (c: char)
    requires d < 10
    ensures IsDigit(c) && DigitValue(c) == d
  {
    ('0' as int + d) as char
  }

  /**
   * The body of a base-10 literal that Python's `int()` accepts: ASCII digits,
   * where a single underscore may stand between two digits.
   */
  predicate IsDigitRun(s: string) {
    && s != []
    && forall k {:trigger s[k]} :: 0 <= k < |s| ==>
         IsDigit(s[k]) || (s[k] == '_' && 0 < k < |s| - 1 && IsDigit(s[k - 1]) && IsDigit(s[k + 1]))
  }

  /** The value of a digit run, underscores ignored. */
  function DigitRunValue(s: string): nat {
    if s == [] then 0
    else if IsDigit(s[|s| - 1]) then 10 * DigitRunValue(s[..|s| - 1]) + DigitValue(s[|s| - 1])
    else DigitRunValue(s[..|s| - 1])
  }

  /**
   * The default of `sys.int_max_str_digits`: `int()` of a decimal string with
   * more digits than this, and `str()` of an integer with more digits, raise
   * `ValueError`.
   */
  const MaxStrDigits := 4300

  /** The number of digits in `s`; leading zeros count, underscores do not. */
  function DigitCount(s: string): nat {
    if s == [] then 0
    else DigitCount(s[..|s| - 1]) + (if IsDigit(s[|s| - 1]) then 1 else 0)
  }

  /** A digit run `int()` converts: well formed and within the digit limit. */
  predicate IsConvertible(s: string) {
    IsDigitRun(s) && DigitCount(s) <= MaxStrDigits
  }

  /**
   * The information separators U+001C..U+001F. `str.isspace()` holds for them,
   * but `int()` hands every code point below 127 to its parser unchanged and
   * that parser skips only space, tab, newline, vertical tab, form feed and
   * carriage return, so a separator anywhere in the text makes `int()` raise.
   */
  predicate IsSeparatorControl(c: char) {
    '\U{1C}' <= c <= '\U{1F}'
  }

  predicate HasSeparatorControl(s: string) {
    exists k :: 0 <= k < |s| && IsSeparatorControl(s[k])
  }

  /** The whitespace `int()` skips around its digits: `str.isspace()` without the information separators. */
  predicate IsIntSpace(c: char) {
    IsSpace(c) && !IsSeparatorControl(c)
  }

  predicate AllIntSpace(s: string) {
    forall k :: 0 <= k < |s| ==> IsIntSpace(s[k])
  }

  /**
   * `int(text)` for a string: `None` where Python raises `ValueError`.
   * Surrounding whitespace other than the information separators is ignored,
   * and one sign may precede the digits.
   */
  function ParseInt(text: string): (r: Option<int>)
    ensures r.Some? ==> !AllSpace(text) && !HasSeparatorControl(text)
  {
    StripEmpty(text);
    var t := Strip(text);
    if HasSeparatorControl(text) then None
    else
    if t != [] && (t[0] == '+' || t[0] == '-') then
      if IsConvertible(t[1..]) then
        var n: int := DigitRunValue(t[1..]);
        Some(if t[0] == '-' then -n else n)
      else None
    else if IsConvertible(t) then Some(DigitRunValue(t))
    else None
  }

  /** A run of more than `MaxStrDigits` digits is rejected, even when it is otherwise well formed. */
  lemma ParseIntDigitLimit(s: string)
    requires IsDigitRun(s) && DigitCount(s) > MaxStrDigits
    ensures ParseInt(s) == None
  {
    assert IsDigit(s[0]) && IsDigit(s[|s| - 1]);
    StripKeeps(s);
  }

  /** An information separator around or inside the digits makes `int()` raise, although `strip()` would remove it. */
  lemma ParseIntSeparator(before: string, s: string, c: char)
    requires IsSeparatorControl(c)
    ensures ParseInt(before + [c] + s) == None
  {
    assert (before + [c] + s)[|before|] == c;
  }

  /** `str(n)` for a natural number: its decimal digits, no leading zero. */
  function NatToDecimal(n: nat): (s: string)
    ensures s != [] && forall k :: 0 <= k < |s| ==> IsDigit(s[k])
    ensures |s| > 1 ==> s[0] != '0'
  {
    if n < 10 then [DigitChar(n)] else NatToDecimal(n / 10) + [DigitChar(n % 10)]
  }

  /** `str(n)` for an integer. */
  function IntToDecimal(n: int): (s: string)
    ensures s != [] && !IsSpace(s[0]) && !IsSpace(s[|s| - 1])
    ensures !HasSeparatorControl(s)
  {
    if n < 0 then "-" + NatToDecimal(-n) else NatToDecimal(n)
  }

  lemma {:induction false} NatToDecimalValue(n: nat)
    ensures DigitRunValue(NatToDecimal(n)) == n
  {
    var s := NatToDecimal(n);
    if n >= 10 {
      NatToDecimalValue(n / 10);
      assert s[..|s| - 1] == NatToDecimal(n / 10);
    }
  }

  /** An integer whose decimal form stays within the digit limit, so `str()` and `int()` accept it. */
  predicate WithinDigitLimit(n: int) {
    |NatToDecimal(if n < 0 then -n else n)| <= MaxStrDigits
  }

  lemma {:induction false} DigitCountAllDigits(s: string)
    requires forall k :: 0 <= k < |s| ==> IsDigit(s[k])
    ensures DigitCount(s) == |s|
  {
    if s != [] {
      DigitCountAllDigits(s[..|s| - 1]);
    }
  }

  /** `int(str(n)) == n` for every integer within the digit limit. */
  lemma IntRoundTrip(n: int)
    requires WithinDigitLimit(n)
    ensures ParseInt(IntToDecimal(n)) == Some(n)
  {
    var s := IntToDecimal(n);
    StripKeeps(s);
    var digits := NatToDecimal(if n < 0 then -n else n);
    NatToDecimalValue(if n < 0 then -n else n);
    DigitCountAllDigits(digits);
    assert IsDigitRun(digits);
    if n < 0 {
      assert s[1..] == digits;
    } else {
      assert s[0] != '+' && s[0] != '-';
    }
  }
}
