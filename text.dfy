/**
 * Decimal text of integers, as Python's `str()` writes an `int` and as `int()`
 * reads a `str` back (restricted to an optional sign followed by ASCII digits).
 */
module Text {
  import opened Wrappers

  predicate IsDigit(c: char) { '0' <= c <= '9' }

  predicate AllDigits(s: string) { forall i :: 0 <= i < |s| ==> IsDigit(s[i]) }

  function DigitValue(c: char): nat
    requires IsDigit(c)
  {
    c as int - '0' as int
  }

  function DigitChar(d: nat): (c: char)
    requires d < 10
    ensures IsDigit(c) && DigitValue(c) == d
  {
    ('0' as int + d) as char
  }

  /** The value of a run of decimal digits, most significant digit first. */
  function DigitsToNat(s: string): nat
    requires AllDigits(s)
  {
    if s == [] then 0 else DigitsToNat(s[..|s| - 1]) * 10 + DigitValue(s[|s| - 1])
  }

  /** The decimal digits of `n`, without leading zeros. */
  function NatToDigits(n: nat): (s: string)
    ensures 0 < |s| && AllDigits(s)
    ensures |s| > 1 ==> s[0] != '0'
  {
    if n < 10 then [DigitChar(n)] else NatToDigits(n / 10) + [DigitChar(n % 10)]
  }

  /** `str(n)` for a Python `int`. */
  function IntToString(n: int): (s: string)
    ensures 0 < |s|
    ensures forall i :: 0 <= i < |s| ==> s[i] == '-' || IsDigit(s[i])
  {
    if n < 0 then "-" + NatToDigits(-n) else NatToDigits(n)
  }

  /**
   * Python's `str.isspace` on one character: tab to carriage return, the
   * information separators U+001C to U+001F, space, and the Unicode spaces
   * and line and paragraph separators.
   */
  predicate IsSpace(c: char)
  {
    || ('\t' <= c <= '\r') || ('\U{1C}' <= c <= ' ')
    || c == '\U{85}' || c == '\U{A0}' || c == '\U{1680}' || ('\U{2000}' <= c <= '\U{200A}')
    || c == '\U{2028}' || c == '\U{2029}' || c == '\U{202F}' || c == '\U{205F}' || c == '\U{3000}'
  }

  predicate AllSpace(s: string) { forall i :: 0 <= i < |s| ==> IsSpace(s[i]) }

  /** Neither the first nor the last character is whitespace. */
  predicate Trimmed(s: string)
  {
    s == [] || (!IsSpace(s[0]) && !IsSpace(s[|s| - 1]))
  }

  /** `s` without its leading whitespace. */
  function TrimStart(s: string): (r: string)
    ensures |r| <= |s|
  {
    if s != [] && IsSpace(s[0]) then TrimStart(s[1..]) else s
  }

  /** `s` without its trailing whitespace. */
  function TrimEnd(s: string): (r: string)
    ensures |r| <= |s|
  {
    if s != [] && IsSpace(s[|s| - 1]) then TrimEnd(s[..|s| - 1]) else s
  }

  /** Python's `str.strip()`: `s` without its leading and trailing whitespace. */
  function Strip(s: string): string
  {
    TrimEnd(TrimStart(s))
  }

  /** `TrimStart` removes a whitespace prefix and stops at the first other character. */
  lemma {:induction false} TrimStartSpec(s: string)
    ensures var r := TrimStart(s);
            && r == s[|s| - |r|..] && AllSpace(s[..|s| - |r|]) && (r == [] || !IsSpace(r[0]))
  {
    if s != [] && IsSpace(s[0]) {
      var r := TrimStart(s[1..]);
      TrimStartSpec(s[1..]);
      assert s[..|s| - |r|] == [s[0]] + s[1..][..|s| - 1 - |r|];
    }
  }

  /** `TrimEnd` removes a whitespace suffix and stops at the last other character. */
  lemma {:induction false} TrimEndSpec(s: string)
    ensures var r := TrimEnd(s);
            && r == s[..|r|] && AllSpace(s[|r|..]) && (r == [] || !IsSpace(r[|r| - 1]))
  {
    if s != [] && IsSpace(s[|s| - 1]) {
      var r := TrimEnd(s[..|s| - 1]);
      TrimEndSpec(s[..|s| - 1]);
      assert s[|r|..] == s[..|s| - 1][|r|..] + [s[|s| - 1]];
    }
  }

  /**
   * The stripped text is the part of `s` between a whitespace prefix and a
   * whitespace suffix, and it neither starts nor ends with whitespace.
   */
  lemma StripSpec(s: string)
    ensures var r, lead := Strip(s), |s| - |TrimStart(s)|;
            && Trimmed(r) && lead + |r| <= |s| && r == s[lead..lead + |r|]
            && AllSpace(s[..lead]) && AllSpace(s[lead + |r|..])
  {
    var t := TrimStart(s);
    var r := TrimEnd(t);
    var lead := |s| - |t|;
    TrimStartSpec(s);
    TrimEndSpec(t);
    assert t == s[lead..] && r == t[..|r|];
    assert s[lead..][..|r|] == s[lead..lead + |r|];
    assert t[|r|..] == s[lead + |r|..];
    if r != [] {
      assert r[0] == t[0];
    }
  }

  /** A text without surrounding whitespace is its own strip. */
  lemma StripTrimmed(s: string)
    requires Trimmed(s)
    ensures Strip(s) == s
  {
  }

  /** Stripping twice gives what stripping once gives. */
  lemma StripIdempotent(s: string)
    ensures Strip(Strip(s)) == Strip(s)
  {
    StripSpec(s);
    StripTrimmed(Strip(s));
  }

  /** A sign and digits, or digits alone, as `int()` reads them after stripping. */
  function ParseSigned(s: string): (r: Option<int>)
    ensures r.Some? ==> 0 < |s|
  {
    if |s| > 1 && (s[0] == '-' || s[0] == '+') && AllDigits(s[1..]) then
      var magnitude: int := DigitsToNat(s[1..]);
      Some(if s[0] == '-' then -magnitude else magnitude)
    else if 0 < |s| && AllDigits(s) then
      Some(DigitsToNat(s))
    else
      None
  }

  /**
   * `int(s)` for a Python `str`: surrounding whitespace is ignored; `None`
   * where Python raises `ValueError`.
   */
  function ParseInt(s: string): (r: Option<int>)
    ensures r.Some? ==> 0 < |s|
  {
    ParseSigned(Strip(s))
  }

  function Pow10(k: nat): (p: nat)
    ensures 0 < p
  {
    if k == 0 then 1 else 10 * Pow10(k - 1)
  }

  lemma {:induction false} DigitsRoundTrip(n: nat)
    ensures DigitsToNat(NatToDigits(n)) == n
  {
    if n >= 10 {
      var s := NatToDigits(n);
      assert s[..|s| - 1] == NatToDigits(n / 10);
      DigitsRoundTrip(n / 10);
    }
  }

  /** Reading back what `IntToString` wrote gives the number again. */
  lemma IntToStringRoundTrip(n: int)
    ensures ParseInt(IntToString(n)) == Some(n)
  {
    var s := IntToString(n);
    IntToStringTrimmed(n);
    if n < 0 {
      assert s[1..] == NatToDigits(-n);
      DigitsRoundTrip(-n);
    } else {
      DigitsRoundTrip(n);
    }
  }

  /** The decimal text of an integer has no surrounding whitespace. */
  lemma IntToStringTrimmed(n: int)
    ensures Strip(IntToString(n)) == IntToString(n)
  {
    var s := IntToString(n);
    assert !IsSpace(s[0]) && !IsSpace(s[|s| - 1]);
    StripTrimmed(s);
  }

  /** A number below 10^k needs at most k digits. */
  lemma {:induction false} NatToDigitsShort(n: nat, k: nat)
    requires 1 <= k && n < Pow10(k)
    ensures |NatToDigits(n)| <= k
  {
    if n >= 10 {
      assert k >= 2;
      assert n / 10 < Pow10(k - 1);
      NatToDigitsShort(n / 10, k - 1);
    }
  }

  /** An integer strictly between -10^5 and 10^5 is written in at most six characters. */
  lemma ShortIntToString(n: int)
    requires -100000 < n < 100000
    ensures |IntToString(n)| <= 6
  {
    assert Pow10(5) == 100000;
    if n < 0 {
      NatToDigitsShort(-n, 5);
    } else {
      NatToDigitsShort(n, 5);
    }
  }

  /** Rendering an integer never produces a NUL character. */
  lemma IntToStringHasNoNul(n: int)
    ensures '\0' !in IntToString(n)
  {
    var s := IntToString(n);
    forall i | 0 <= i < |s|
      ensures s[i] != '\0'
    {
    }
  }

  /** One part of a format string: literal text or an integer replacement field. */
  datatype Piece = Literal(text: string) | Field(n: int)

  function PieceText(p: Piece): string
  {
    match p
    case Literal(t) => t
    case Field(n) => IntToString(n)
  }

  /** The text of a format string: the text of its parts, in order. */
  function Format(parts: seq<Piece>): string
  {
    if parts == [] then "" else Format(parts[..|parts| - 1]) + PieceText(parts[|parts| - 1])
  }

  /** A formatted text starts with the text of its first part. */
  lemma {:induction false} FormatPrefix(parts: seq<Piece>)
    requires parts != []
    ensures PieceText(parts[0]) <= Format(parts)
  {
    var n := |parts| - 1;
    if n > 0 {
      FormatPrefix(parts[..n]);
      assert parts[..n][0] == parts[0];
    }
  }

  function Sum(xs: seq<nat>): nat
  {
    if xs == [] then 0 else Sum(xs[..|xs| - 1]) + xs[|xs| - 1]
  }

  lemma SumSnoc(xs: seq<nat>, x: nat)
    ensures Sum(xs + [x]) == Sum(xs) + x
  {
    assert (xs + [x])[..|xs|] == xs;
  }

  /**
   * A formatted text is no longer than the sum of bounds on its parts, and
   * holds a NUL character only if one of its parts does.
   */
  lemma {:induction false} FormatBound(parts: seq<Piece>, bounds: seq<nat>)
    requires |parts| == |bounds|
    requires forall i :: 0 <= i < |parts| ==> |PieceText(parts[i])| <= bounds[i] && '\0' !in PieceText(parts[i])
    ensures |Format(parts)| <= Sum(bounds)
    ensures '\0' !in Format(parts)
  {
    if parts != [] {
      var n := |parts| - 1;
      forall i | 0 <= i < n
        ensures |PieceText(parts[..n][i])| <= bounds[..n][i] && '\0' !in PieceText(parts[..n][i])
      {
        assert parts[..n][i] == parts[i] && bounds[..n][i] == bounds[i];
      }
      FormatBound(parts[..n], bounds[..n]);
    }
  }
}
