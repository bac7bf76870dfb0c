/** Character-level helpers shared by the query filter and the renderers:
    substring search, ASCII lower-casing, and the decimal text forms of whole
    numbers (`String.valueOf(long)`) and of scale-2 money amounts
    (`BigDecimal.toString()`, `String.format("%.2f", ...)`). */
module Text {
  import opened Options

  // ---------------------------------------------------------------------------
  // Substrings
  // ---------------------------------------------------------------------------

  predicate IsPrefix(prefix: string, s: string) {
    |prefix| <= |s| && s[..|prefix|] == prefix
  }

  /** `needle` occurs somewhere inside `hay` as a contiguous run. */
  ghost predicate IsInfix(needle: string, hay: string) {
    exists k :: 0 <= k <= |hay| && IsPrefix(needle, hay[k..])
  }

  /** Moving past a first position that does not start a match loses nothing. */
  lemma InfixStep(needle: string, hay: string)
    requires |hay| > 0 && !IsPrefix(needle, hay)
    ensures IsInfix(needle, hay) <==> IsInfix(needle, hay[1..])
  {
    if IsInfix(needle, hay) {
      var k :| 0 <= k <= |hay| && IsPrefix(needle, hay[k..]);
      assert hay[0..] == hay;
      assert k != 0;
      assert hay[1..][k - 1..] == hay[k..];
    }
    if IsInfix(needle, hay[1..]) {
      var k :| 0 <= k <= |hay[1..]| && IsPrefix(needle, hay[1..][k..]);
      assert hay[1..][k..] == hay[k + 1..];
    }
  }

  /** Executable substring test, the `LIKE '%needle%'` of the source's queries
      (without wildcard characters inside `needle`). */
  function Contains(hay: string, needle: string): (b: bool)
    ensures b <==> IsInfix(needle, hay)
    decreases |hay|
  {
    if IsPrefix(needle, hay) then
      assert hay[0..] == hay;
      true
    else if |hay| == 0 then
      assert forall k :: 0 <= k <= |hay| ==> hay[k..] == hay;
      false
    else
      InfixStep(needle, hay);
      Contains(hay[1..], needle)
  }

  /** The empty string occurs in every string. */
  lemma EmptyIsInfix(hay: string)
    ensures Contains(hay, "")
  {
    assert IsPrefix("", hay[0..]);
  }

  // ---------------------------------------------------------------------------
  // Lower-casing (ASCII letters only)
  // ---------------------------------------------------------------------------

  function LowerChar(c: char): char {
    if 'A' <= c <= 'Z' then (c as int - 'A' as int + 'a' as int) as char else c
  }

  function Lower(s: string): (r: string)
    ensures |r| == |s|
    ensures forall i :: 0 <= i < |s| ==> r[i] == LowerChar(s[i])
  {
    seq(|s|, i requires 0 <= i < |s| => LowerChar(s[i]))
  }

  /** Lower-casing twice is lower-casing once. */
  lemma LowerIdempotent(s: string)
    ensures Lower(Lower(s)) == Lower(s)
  {
  }

  // ---------------------------------------------------------------------------
  // Decimal digits
  // ---------------------------------------------------------------------------

  predicate IsDigit(c: char) {
    '0' <= c <= '9'
  }

  predicate AllDigits(s: string) {
    forall i :: 0 <= i < |s| ==> IsDigit(s[i])
  }

  function DigitChar(d: nat): (c: char)
    requires d < 10
    ensures IsDigit(c)
  {
    ('0' as int + d) as char
  }

  function DigitValue(c: char): (d: nat)
    requires IsDigit(c)
    ensures d < 10 && DigitChar(d) == c
  {
    c as int - '0' as int
  }

  /** The number a string of decimal digits denotes (most significant first). */
  function DigitsValue(s: string): nat
    requires AllDigits(s)
  {
    if |s| == 0 then 0 else 10 * DigitsValue(s[..|s| - 1]) + DigitValue(s[|s| - 1])
  }

  /** `String.valueOf(n)` for a non-negative `long`: the shortest decimal
      numeral of `n`, which reads back as `n`. */
  function NatToString(n: nat): (s: string)
    ensures |s| >= 1 && AllDigits(s)
    ensures |s| == 1 || s[0] != '0'
    ensures DigitsValue(s) == n
  {
    if n < 10 then
      [DigitChar(n)]
    else
      var prefix := NatToString(n / 10);
      var s := prefix + [DigitChar(n % 10)];
      assert s[..|s| - 1] == prefix;
      s
  }

  /** Reads a non-empty run of decimal digits; anything else is rejected. */
  function ParseNat(s: string): (r: Option<nat>)
    ensures r.Some? <==> |s| > 0 && AllDigits(s)
  {
    if |s| > 0 && AllDigits(s) then Some(DigitsValue(s)) else None
  }

  /** A numeral reads back as the number it was written for. */
  lemma ParseNatRoundTrip(n: nat)
    ensures ParseNat(NatToString(n)) == Some(n)
  {
    var s := NatToString(n);
    assert |s| > 0 && AllDigits(s) && DigitsValue(s) == n;
  }

  /** Distinct numbers have distinct numerals. */
  lemma NatToStringInjective(m: nat, n: nat)
    requires NatToString(m) == NatToString(n)
    ensures m == n
  {
  }

  // ---------------------------------------------------------------------------
  // Money: fixed-point amounts with two decimals, held as integer cents
  // ---------------------------------------------------------------------------

  function UnsignedCents(c: nat): (s: string)
    ensures |s| >= 4 && IsDigit(s[0])
  {
    NatToString(c / 100) + "." + [DigitChar(c % 100 / 10), DigitChar(c % 10)]
  }

  /** The text of a scale-2 amount: optional minus sign, whole part, point,
      exactly two fraction digits (`1299.50`, `-0.05`). */
  function FormatCents(c: int): (s: string)
    ensures ParseCents(s) == Some(c)
  {
    if c < 0 then
      var u := UnsignedCents(-c);
      UnsignedCentsRoundTrip(-c);
      assert ("-" + u)[1..] == u;
      "-" + u
    else
      UnsignedCentsRoundTrip(c);
      UnsignedCents(c)
  }

  function ParseUnsignedCents(s: string): Option<nat> {
    if |s| >= 4 && s[|s| - 3] == '.' && AllDigits(s[..|s| - 3]) && AllDigits(s[|s| - 2..]) then
      Some(100 * DigitsValue(s[..|s| - 3]) + DigitsValue(s[|s| - 2..]))
    else
      None
  }

  /** Reads the text form produced by `FormatCents`. */
  function ParseCents(s: string): Option<int> {
    if |s| > 0 && s[0] == '-' then
      match ParseUnsignedCents(s[1..])
      case Some(v) =>
        var magnitude: int := v;
        Some(-magnitude)
      case None => None
    else
      match ParseUnsignedCents(s)
      case Some(v) => Some(v)
      case None => None
  }

  lemma TwoDigitsValue(a: nat, b: nat)
    requires a < 10 && b < 10
    ensures DigitsValue([DigitChar(a), DigitChar(b)]) == 10 * a + b
  {
    var s := [DigitChar(a), DigitChar(b)];
    assert s[..1] == [DigitChar(a)];
    assert s[..1][..0] == [];
    assert DigitValue(DigitChar(a)) == a && DigitValue(DigitChar(b)) == b;
    assert DigitsValue(s[..1]) == a;
  }

  lemma UnsignedCentsRoundTrip(c: nat)
    ensures ParseUnsignedCents(UnsignedCents(c)) == Some(c)
  {
    var whole := NatToString(c / 100);
    var frac := [DigitChar(c % 100 / 10), DigitChar(c % 10)];
    var s := whole + "." + frac;
    assert s == UnsignedCents(c);
    assert s[..|s| - 3] == whole;
    assert s[|s| - 2..] == frac;
    TwoDigitsValue(c % 100 / 10, c % 10);
  }
}
