/** String helpers shared by the generators and the server: Python's
    `str.strip()`, decimal rendering as done by `str(i)` and f-strings, and the
    ASCII case folding used on already-sanitised file names. */
module Text {

  /** The characters Python's `str.isspace()` accepts, which `str.strip()` removes. */
  predicate IsSpace(c: char)
  {
    c == ' ' || ('\t' <= c <= '\r') || ('\U{1C}' <= c <= '\U{1F}')
    || c == '\U{85}' || c == '\U{A0}' || c == '\U{1680}' || ('\U{2000}' <= c <= '\U{200A}')
    || c == '\U{2028}' || c == '\U{2029}' || c == '\U{202F}' || c == '\U{205F}' || c == '\U{3000}'
  }

  predicate AllSpace(s: string)
  {
    forall i :: 0 <= i < |s| ==> IsSpace(s[i])
  }

  /** How many whitespace characters `s` starts with. */
  function LeadingSpaces(s: string): (n: nat)
    ensures n <= |s| && AllSpace(s[..n])
    ensures n == |s| || !IsSpace(s[n])
  {
    if s != [] && IsSpace(s[0]) then
      var m := LeadingSpaces(s[1..]);
      AllSpaceCons(s, m + 1);
      1 + m
    else 0
  }

  lemma AllSpaceCons(s: string, m: nat)
    requires 0 < m <= |s| && IsSpace(s[0]) && AllSpace(s[1..][..m - 1])
    ensures AllSpace(s[..m])
  {
    forall i | 1 <= i < m
      ensures IsSpace(s[i])
    {
      assert s[i] == s[1..][..m - 1][i - 1];
    }
  }

  /** How many whitespace characters `s` ends with. */
  function TrailingSpaces(s: string): (n: nat)
    ensures n <= |s| && AllSpace(s[|s| - n..])
    ensures n == |s| || !IsSpace(s[|s| - n - 1])
  {
    if s != [] && IsSpace(s[|s| - 1]) then
      var m := TrailingSpaces(s[..|s| - 1]);
      AllSpaceSnoc(s, m + 1);
      1 + m
    else 0
  }

  lemma AllSpaceSnoc(s: string, n: nat)
    requires 0 < n <= |s| && IsSpace(s[|s| - 1]) && AllSpace(s[..|s| - 1][|s| - n..])
    ensures AllSpace(s[|s| - n..])
  {
    forall j | |s| - n <= j < |s| - 1
      ensures IsSpace(s[j])
    {
      assert s[j] == s[..|s| - 1][|s| - n..][j - (|s| - n)];
    }
  }

  /** Python's `s.strip()`: the slice between the leading and the trailing whitespace. */
  function Trim(s: string): (r: string)
    ensures |r| <= |s| && LeadingSpaces(s) + |r| <= |s|
    ensures r == [] || (!IsSpace(r[0]) && !IsSpace(r[|r| - 1]))
  {
    var k := LeadingSpaces(s);
    var m := TrailingSpaces(s[k..]);
    assert k < |s| - m ==> s[k..|s| - m][|s| - m - k - 1] == s[k..][|s[k..]| - m - 1];
    s[k..|s| - m]
  }

  /** What `strip()` keeps is a slice of the input, and everything it drops before and
      after that slice is whitespace. */
  lemma TrimIsSlice(s: string)
    ensures var k := LeadingSpaces(s);
      k + |Trim(s)| <= |s| && Trim(s) == s[k..k + |Trim(s)|]
      && AllSpace(s[..k]) && AllSpace(s[k..][|Trim(s)|..])
  {
    TrimKeepsSlice(s);
    TrimDropsTrailing(s);
  }

  lemma TrimKeepsSlice(s: string)
    ensures Trim(s) == s[LeadingSpaces(s)..LeadingSpaces(s) + |Trim(s)|]
  {
  }

  lemma TrimDropsTrailing(s: string)
    ensures AllSpace(s[LeadingSpaces(s)..][|Trim(s)|..])
  {
  }

  /** A string with no whitespace at either end is its own `strip()`. */
  lemma TrimOfTrimmed(s: string)
    requires s == [] || (!IsSpace(s[0]) && !IsSpace(s[|s| - 1]))
    ensures Trim(s) == s
  {
    assert s[0..] == s;
  }

  lemma TrimIdempotent(s: string)
    ensures Trim(Trim(s)) == Trim(s)
  {
    TrimOfTrimmed(Trim(s));
  }

  /** `s.strip()` is empty exactly when `s` is all whitespace. */
  lemma TrimEmptyIffAllSpace(s: string)
    ensures Trim(s) == [] <==> AllSpace(s)
  {
    var k := LeadingSpaces(s);
    TrimIsSlice(s);
    if Trim(s) == [] {
      AllSpaceJoin(s, k);
    } else {
      assert Trim(s)[0] == s[k];
    }
  }

  /** Whitespace up to `k` and whitespace from `k` on is whitespace throughout. */
  lemma AllSpaceJoin(s: string, k: nat)
    requires k <= |s| && AllSpace(s[..k]) && AllSpace(s[k..])
    ensures AllSpace(s)
  {
    forall i | 0 <= i < |s|
      ensures IsSpace(s[i])
    {
      if i < k {
        assert s[i] == s[..k][i];
      } else {
        assert s[i] == s[k..][i - k];
      }
    }
  }

  // ---------------------------------------------------------------------
  // Decimal digits

  predicate IsDigit(c: char)
  {
    '0' <= c <= '9'
  }

  predicate AllDigits(s: string)
  {
    forall i :: 0 <= i < |s| ==> IsDigit(s[i])
  }

  function DigitChar(d: nat): (c: char)
    requires d < 10
    ensures IsDigit(c) && c as int == 48 + d
  {
    (48 + d) as char
  }

  function DigitValue(c: char): (d: nat)
    requires IsDigit(c)
    ensures d < 10 && DigitChar(d) == c
  {
    c as int - 48
  }

  /** `str(n)` for a non-negative integer: decimal, no leading zeros. */
  function NatToString(n: nat): (r: string)
    ensures |r| >= 1 && AllDigits(r)
  {
    if n < 10 then [DigitChar(n)] else NatToString(n / 10) + [DigitChar(n % 10)]
  }

  /** The value of a string of decimal digits (leading zeros allowed), as `int()` reads it. */
  function ParseDigits(s: string): nat
    requires AllDigits(s)
  {
    if s == [] then 0 else ParseDigits(s[..|s| - 1]) * 10 + DigitValue(s[|s| - 1])
  }

  lemma {:induction false} ParseNatToString(n: nat)
    ensures ParseDigits(NatToString(n)) == n
  {
    if n >= 10 {
      var s := NatToString(n);
      assert s[..|s| - 1] == NatToString(n / 10);
      ParseNatToString(n / 10);
    }
  }

  /** Distinct numbers render as distinct decimal strings. */
  lemma NatToStringInjective(a: nat, b: nat)
    requires NatToString(a) == NatToString(b)
    ensures a == b
  {
    ParseNatToString(a);
    ParseNatToString(b);
  }

  /** The two-digit, zero-padded rendering used by `strftime("%m")` and `"%d"`. */
  function Pad2(n: nat): (r: string)
    requires n < 100
    ensures |r| == 2 && AllDigits(r)
  {
    [DigitChar(n / 10), DigitChar(n % 10)]
  }

  /** The four-digit, zero-padded rendering of a year by `strftime("%Y")`. */
  function Pad4(n: nat): (r: string)
    requires n < 10000
    ensures |r| == 4 && AllDigits(r)
  {
    [DigitChar(n / 1000), DigitChar(n / 100 % 10), DigitChar(n / 10 % 10), DigitChar(n % 10)]
  }

  lemma ParsePad2(n: nat)
    requires n < 100
    ensures ParseDigits(Pad2(n)) == n
  {
    var s := Pad2(n);
    assert s[..1][..0] == [];
    assert ParseDigits(s[..1]) == n / 10;
  }

  lemma ParsePad4(n: nat)
    requires n < 10000
    ensures ParseDigits(Pad4(n)) == n
  {
    var s := Pad4(n);
    var tens := n / 10;
    var hundreds := tens / 10;
    DivideByTen(n);
    assert s[..1][..0] == [];
    assert ParseDigits(s[..1]) == hundreds / 10;
    ParseNextDigit(s, 1);
    assert ParseDigits(s[..2]) == hundreds;
    ParseNextDigit(s, 2);
    assert ParseDigits(s[..3]) == tens;
    ParseNextDigit(s, 3);
    assert s[..4] == s;
  }

  lemma DivideByTen(n: nat)
    ensures n / 100 == n / 10 / 10 && n / 1000 == n / 10 / 10 / 10
  {
  }

  /** Reading one more digit multiplies by ten and adds it. */
  lemma ParseNextDigit(s: string, k: nat)
    requires AllDigits(s) && 0 < k < |s|
    ensures ParseDigits(s[..k + 1]) == ParseDigits(s[..k]) * 10 + DigitValue(s[k])
  {
    assert s[..k + 1][..k] == s[..k];
  }

  // ---------------------------------------------------------------------
  // Case folding (only ever applied to ASCII-only names)

  function LowerAscii(c: char): char
  {
    if 'A' <= c <= 'Z' then (c as int + 32) as char else c
  }

  function LowerString(s: string): (r: string)
    ensures |r| == |s| && forall i :: 0 <= i < |s| ==> r[i] == LowerAscii(s[i])
  {
    seq(|s|, i requires 0 <= i < |s| => LowerAscii(s[i]))
  }

  /** `s.lower().endswith(suffix)` for a lower-case ASCII `suffix`. */
  predicate EndsWithIgnoringCase(s: string, suffix: string)
  {
    |suffix| <= |s| && LowerString(s[|s| - |suffix|..]) == suffix
  }
}
