/** Character and string helpers used by the value types: the case mappings
    behind `str.lower`, `str.upper` and `str.title` on ASCII text, and the
    decimal rendering of integers that `str(int)` performs. */
module Text {

  import opened Wrappers

  predicate IsUpperChar(c: char) { 'A' <= c <= 'Z' }

  predicate IsLowerChar(c: char) { 'a' <= c <= 'z' }

  /** A cased character in the sense of `str.title`: a letter. */
  predicate IsCased(c: char) { IsUpperChar(c) || IsLowerChar(c) }

  function LowerChar(c: char): (r: char)
    ensures !IsUpperChar(r)
    ensures IsCased(r) <==> IsCased(c)
    ensures !IsCased(c) ==> r == c
  {
    if IsUpperChar(c) then (c as int + 32) as char else c
  }

  function UpperChar(c: char): (r: char)
    ensures !IsLowerChar(r)
    ensures IsCased(r) <==> IsCased(c)
    ensures !IsCased(c) ==> r == c
  {
    if IsLowerChar(c) then (c as int - 32) as char else c
  }

  /** `s.lower()`: every upper-case letter replaced by its lower-case form. */
  function Lower(s: string): (r: string)
    ensures |r| == |s|
    ensures forall i :: 0 <= i < |s| ==> r[i] == LowerChar(s[i])
  {
    if s == [] then [] else [LowerChar(s[0])] + Lower(s[1..])
  }

  /** `s.upper()`. */
  function Upper(s: string): (r: string)
    ensures |r| == |s|
    ensures forall i :: 0 <= i < |s| ==> r[i] == UpperChar(s[i])
  {
    if s == [] then [] else [UpperChar(s[0])] + Upper(s[1..])
  }

  /** True when `s` has no upper-case letter, that is, when it is its own lower-cased form. */
  predicate IsLowered(s: string)
  {
    forall i :: 0 <= i < |s| ==> !IsUpperChar(s[i])
  }

  lemma LoweredIsFixpoint(s: string)
    ensures IsLowered(s) <==> Lower(s) == s
  {
    if IsLowered(s) {
      assert forall i :: 0 <= i < |s| ==> Lower(s)[i] == s[i];
    } else {
      var i :| 0 <= i < |s| && IsUpperChar(s[i]);
      assert Lower(s)[i] != s[i];
    }
  }

  /** Lower-casing is idempotent. */
  lemma LowerIdempotent(s: string)
    ensures IsLowered(Lower(s))
    ensures Lower(Lower(s)) == Lower(s)
  {
    LoweredIsFixpoint(Lower(s));
  }

  /** Two strings lower-case to the same string exactly when they agree
      letter by letter up to case. */
  lemma SameLowerIffEqualIgnoringCase(a: string, b: string)
    ensures Lower(a) == Lower(b) <==> EqualIgnoringCase(a, b)
  {
    if EqualIgnoringCase(a, b) {
      assert forall i :: 0 <= i < |a| ==> Lower(a)[i] == Lower(b)[i];
    }
  }

  /** `a` and `b` have the same length and agree letter by letter up to case. */
  predicate EqualIgnoringCase(a: string, b: string)
  {
    |a| == |b| && forall i :: 0 <= i < |a| ==> LowerChar(a[i]) == LowerChar(b[i])
  }

  /** On lower-case text, `upper` loses nothing: lower-casing it again gives the text back. */
  lemma LowerOfUpper(s: string)
    requires IsLowered(s)
    ensures Lower(Upper(s)) == s
  {
    assert forall i :: 0 <= i < |s| ==> Lower(Upper(s))[i] == s[i];
  }

  /** `str.title` of the rest of a string, given whether the previous character was cased:
      a letter after a cased character is lower-cased, any other letter upper-cased, and
      every other character kept; only letters count as cased. */
  function TitleFrom(s: string, previousCased: bool): (r: string)
    ensures |r| == |s|
    ensures forall i :: 0 <= i < |s| ==> LowerChar(r[i]) == LowerChar(s[i])
  {
    if s == [] then []
    else
      var c := s[0];
      var d := if !IsCased(c) then c else if previousCased then LowerChar(c) else UpperChar(c);
      [d] + TitleFrom(s[1..], IsCased(c))
  }

  /** `s.title()`: the display form of a case-insensitive identifier. */
  function Title(s: string): string
  {
    TitleFrom(s, false)
  }

  /** Title-casing changes only case: the identifier it displays is unchanged. */
  lemma {:induction false} LowerOfTitle(s: string)
    ensures Lower(Title(s)) == Lower(s)
  {
    SameLowerIffEqualIgnoringCase(Title(s), s);
  }

  // ---------------------------------------------------------------------
  // Decimal integers, as `str(n)` writes them.

  predicate IsDigit(c: char) { '0' <= c <= '9' }

  function DigitChar(d: nat): (c: char)
    requires d < 10
    ensures IsDigit(c)
  {
    ('0' as int + d) as char
  }

  function DigitValue(c: char): (d: nat)
    requires IsDigit(c)
    ensures d < 10 && DigitChar(d) == c
  {
    c as int - '0' as int
  }

  /** The decimal digits of `n`, without leading zeros. */
  function NatToString(n: nat): (s: string)
    ensures |s| > 0
    ensures forall i :: 0 <= i < |s| ==> IsDigit(s[i])
    decreases n
  {
    if n < 10 then [DigitChar(n)] else NatToString(n / 10) + [DigitChar(n % 10)]
  }

  /** `str(n)` for an integer: a minus sign before the digits of a negative number. */
  function IntToString(n: int): (s: string)
    ensures |s| > 0
    ensures forall i :: 0 <= i < |s| ==> IsDigit(s[i]) || (i == 0 && s[i] == '-')
  {
    if n < 0 then "-" + NatToString(-n) else NatToString(n)
  }

  /** The value of a non-empty run of decimal digits. */
  function DigitsValue(s: string): nat
    requires forall i :: 0 <= i < |s| ==> IsDigit(s[i])
    decreases |s|
  {
    if s == [] then 0 else 10 * DigitsValue(s[..|s| - 1]) + DigitValue(s[|s| - 1])
  }

  /** `int(s)` restricted to an optional minus sign followed by at least one digit. */
  function ParseInt(s: string): (r: Option<int>)
    ensures r.Some? <==> (|s| > 0 && (forall i :: 0 <= i < |s| ==> IsDigit(s[i]))) ||
                         (|s| > 1 && s[0] == '-' && forall i :: 1 <= i < |s| ==> IsDigit(s[i]))
  {
    if |s| > 0 && forall i :: 0 <= i < |s| ==> IsDigit(s[i]) then Some(DigitsValue(s) as int)
    else if |s| > 1 && s[0] == '-' && forall i :: 1 <= i < |s| ==> IsDigit(s[i]) then Some(0 - DigitsValue(s[1..]) as int)
    else None
  }

  lemma {:induction false} NatToStringValue(n: nat)
    ensures DigitsValue(NatToString(n)) == n
    decreases n
  {
    var s := NatToString(n);
    if n >= 10 {
      NatToStringValue(n / 10);
      assert s[..|s| - 1] == NatToString(n / 10);
    }
  }

  /** Reading back what `str(n)` wrote gives `n`. */
  lemma IntToStringRoundTrip(n: int)
    ensures ParseInt(IntToString(n)) == Some(n)
  {
    if n < 0 {
      NatToStringValue(-n);
      assert IntToString(n)[1..] == NatToString(-n);
    } else {
      NatToStringValue(n);
    }
  }
}
