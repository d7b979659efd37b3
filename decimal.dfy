/**
 * Decimal digit strings: the parts of Python's `int()`, `str()`, `" ".join`, `"%02d"`
 * and of the regular expression `^\d+$` that the command line relies on, for ASCII digits.
 */
module Decimal {
  import opened Wrappers

  predicate IsDigit(c: char) {
    '0' <= c <= '9'
  }

  /** A non-empty run of decimal digits: what `\d+` matches. */
  predicate IsDigits(s: string) {
    |s| > 0 && forall i :: 0 <= i < |s| ==> IsDigit(s[i])
  }

  function DigitValue(c: char): (n: nat)
    requires IsDigit(c)
    ensures n < 10
  {
    c as int - '0' as int
  }

  function DigitChar(n: nat): (c: char)
    requires n < 10
    ensures IsDigit(c) && DigitValue(c) == n
  {
    ('0' as int + n) as char
  }

  /** `int(s)` for a string of digits; leading zeros are allowed. */
  function Value(s: string): nat
    requires forall i :: 0 <= i < |s| ==> IsDigit(s[i])
    decreases |s|
  {
    if s == [] then 0 else Value(s[..|s| - 1]) * 10 + DigitValue(s[|s| - 1])
  }

  /** `str(n)` for a natural number: the shortest digit string. */
  function Show(n: nat): (s: string)
    ensures IsDigits(s)
    ensures Value(s) == n
    ensures s[0] == '0' <==> n == 0
    ensures |s| == 1 || s[0] != '0'
    decreases n
  {
    if n < 10 then [DigitChar(n)]
    else
      var s := Show(n / 10) + [DigitChar(n % 10)];
      assert s[..|s| - 1] == Show(n / 10);
      s
  }

  /** `str(i)` for any integer. */
  function ShowInt(i: int): (s: string)
    ensures ParseInt(s) == Some(i)
    ensures i >= 0 ==> IsDigits(s) && (|s| == 1 || s[0] != '0')
    ensures i < 0 ==> |s| > 1 && s[0] == '-' && IsDigits(s[1..]) && s[1] != '0'
  {
    if i < 0 then
      var s := "-" + Show(-i);
      assert s[1..] == Show(-i);
      s
    else Show(i)
  }

  /** A string `str()` writes for an integer: it reads back with `int()` and is written the same way again. */
  predicate Canonical(t: string) {
    ParseInt(t).Some? && ShowInt(ParseInt(t).value) == t
  }

  /** `"%02d" % n`: two digits, zero-padded, as `strftime("%H")` and `"%M"` write. */
  function Pad2(n: nat): (s: string)
    requires n < 100
    ensures |s| == 2 && IsDigits(s) && Value(s) == n
  {
    var s := [DigitChar(n / 10), DigitChar(n % 10)];
    assert s[..1] == [DigitChar(n / 10)] && s[..1][..0] == [];
    assert Value(s[..1]) == n / 10;
    s
  }

  /**
   * Python's `int()` on a string made of an optional sign and digits; `None` where `int()`
   * raises `ValueError`.
   */
  function ParseInt(s: string): Option<int> {
    if IsDigits(s) then Some(Value(s))
    else if |s| > 1 && (s[0] == '-' || s[0] == '+') && IsDigits(s[1..]) then
      var magnitude: int := Value(s[1..]);
      Some(if s[0] == '-' then -magnitude else magnitude)
    else None
  }

  /**
   * The text a pattern anchored with `$` is matched against: `$` also matches just
   * before one final newline.
   */
  function BeforeLineEnd(s: string): (t: string)
    ensures t == s || s == t + "\n"
    ensures |s| > 0 && s[|s| - 1] == '\n' <==> s == t + "\n"
  {
    if |s| > 0 && s[|s| - 1] == '\n' then s[..|s| - 1] else s
  }

  /** `sep.join(parts)`. */
  function Join(parts: seq<string>, sep: string): (s: string)
    ensures parts == [] ==> s == ""
    ensures |parts| == 1 ==> s == parts[0]
  {
    if parts == [] then ""
    else if |parts| == 1 then parts[0]
    else parts[0] + sep + Join(parts[1..], sep)
  }
}
