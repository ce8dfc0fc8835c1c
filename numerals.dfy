/**
 * Decimal conversions between integers and text, as the bot's Python runtime
 * performs them: `str(n)` builds the referral link, and `int(token)` reads
 * the referrer token of a `/start` command back into a user id.
 */
module Numerals {
  import opened Wrappers

  /** An ASCII decimal digit. */
  predicate IsDigit(c: char) { '0' <= c <= '9' }

  /** The ASCII whitespace that `int()` skips around a number: space, \t, \n, \v, \f, \r. */
  predicate IsSpace(c: char) { c == ' ' || 9 <= c as int <= 13 }

  function DigitChar(d: nat): (c: char)
    requires d < 10
    ensures IsDigit(c)
  {
    ('0' as int + d) as char
  }

  function DigitValue(c: char): (d: nat)
    requires IsDigit(c)
    ensures d < 10 && DigitChar(d) == c
  {
    c as int - '0' as int
  }

  /** `str(n)` for `n >= 0`: the decimal digits, most significant first, without leading zeros. */
  function NatToString(n: nat): (s: string)
    ensures |s| > 0
    ensures forall i :: 0 <= i < |s| ==> IsDigit(s[i])
    ensures n > 0 ==> s[0] != '0'
    decreases n
  {
    if n < 10 then [DigitChar(n)] else NatToString(n / 10) + [DigitChar(n % 10)]
  }

  /** `str(n)`: a negative number is written with a leading '-'. */
  function IntToString(n: int): (s: string)
    ensures |s| > (if n < 0 then 1 else 0) && (s[0] == '-' <==> n < 0)
    ensures forall i :: (if n < 0 then 1 else 0) <= i < |s| ==> IsDigit(s[i])
    ensures n != 0 ==> s[if n < 0 then 1 else 0] != '0'
  {
    if n < 0 then "-" + NatToString(-n) else NatToString(n)
  }

  /** Drops leading whitespace. */
  function TrimLeft(s: string): string
    decreases |s|
  {
    if |s| > 0 && IsSpace(s[0]) then TrimLeft(s[1..]) else s
  }

  /** Drops trailing whitespace. */
  function TrimRight(s: string): string
    decreases |s|
  {
    if |s| > 0 && IsSpace(s[|s| - 1]) then TrimRight(s[..|s| - 1]) else s
  }

  function Strip(s: string): string
  {
    TrimRight(TrimLeft(s))
  }

  /**
   * A digit run as `int()` accepts it: it starts and ends with a digit, holds
   * only digits and underscores, and every underscore is followed by a digit
   * (so an underscore always sits between two digits).
   */
  predicate IsDigitGroup(s: string)
  {
    && |s| > 0 && IsDigit(s[0]) && IsDigit(s[|s| - 1])
    && (forall i :: 0 <= i < |s| ==> IsDigit(s[i]) || s[i] == '_')
    && (forall i, j :: 0 <= i < |s| && 0 <= j < |s| && j == i + 1 && s[i] == '_' ==> IsDigit(s[j]))
  }

  /** The value of the digits of `s`, read most significant first; underscores are skipped. */
  function GroupedValue(s: string): nat
    decreases |s|
  {
    if s == [] then 0
    else if IsDigit(s[|s| - 1]) then GroupedValue(s[..|s| - 1]) * 10 + DigitValue(s[|s| - 1])
    else GroupedValue(s[..|s| - 1])
  }

  /**
   * `int(s)` for a `str` in base 10: surrounding whitespace is ignored, one
   * optional sign, then a digit run; anything else raises `ValueError`,
   * modelled as `None`.
   */
  function ParseInt(s: string): (r: Option<int>)
    ensures r.Some? ==> exists c :: c in s && IsDigit(c)
    ensures r.Some? && r.value < 0 ==> '-' in s
  {
    var t := Strip(s);
    StripKeepsCharacters(s);
    if |t| > 0 && (t[0] == '-' || t[0] == '+') then
      if IsDigitGroup(t[1..]) then
        Some(if t[0] == '-' then -(GroupedValue(t[1..]) as int) else GroupedValue(t[1..]) as int)
      else None
    else if IsDigitGroup(t) then Some(GroupedValue(t))
    else None
  }

  /** Stripping only removes characters: every character left was in the text. */
  lemma {:induction false} StripKeepsCharacters(s: string)
    ensures forall c :: c in Strip(s) ==> c in s
  {
    TrimLeftKeepsCharacters(s);
    TrimRightKeepsCharacters(TrimLeft(s));
  }

  lemma {:induction false} TrimLeftKeepsCharacters(s: string)
    ensures forall c :: c in TrimLeft(s) ==> c in s
    decreases |s|
  {
    if |s| > 0 && IsSpace(s[0]) {
      TrimLeftKeepsCharacters(s[1..]);
    }
  }

  lemma {:induction false} TrimRightKeepsCharacters(s: string)
    ensures forall c :: c in TrimRight(s) ==> c in s
    decreases |s|
  {
    if |s| > 0 && IsSpace(s[|s| - 1]) {
      TrimRightKeepsCharacters(s[..|s| - 1]);
    }
  }

  /** The integers SQLite stores and binds: 64-bit two's complement. */
  predicate IsSqlInteger(n: int)
  {
    -0x8000_0000_0000_0000 <= n < 0x8000_0000_0000_0000
  }

  /** Reading back the digits `str` writes gives the number again. */
  lemma {:induction false} NatToStringValue(n: nat)
    ensures GroupedValue(NatToString(n)) == n
    decreases n
  {
    var s := NatToString(n);
    if n < 10 {
      assert s[..0] == [];
    } else {
      NatToStringValue(n / 10);
      assert s[..|s| - 1] == NatToString(n / 10);
    }
  }

  /** `int(str(n)) == n` for every integer: a user id written into a link reads back as the same id. */
  lemma ParseIntToString(n: int)
    ensures ParseInt(IntToString(n)) == Some(n)
  {
    var m: nat := if n < 0 then -n else n;
    var digits := NatToString(m);
    var s := IntToString(n);
    NatToStringValue(m);
    assert !IsSpace(s[0]) && !IsSpace(s[|s| - 1]);
    assert TrimLeft(s) == s;
    assert Strip(s) == s;
    if n < 0 {
      assert s[1..] == digits;
    }
  }
}
