/**
 The shared number primitive of the row extractors: the leading run of
 decimal digits of a text, read as an unsigned integer. Digits are ASCII
 digits; the integer is unbounded.
 */
module Numerals {
  import opened Wrappers

  predicate IsDigit(c: char) {
    '0' <= c <= '9'
  }

  predicate AllDigits(s: string) {
    forall i | 0 <= i < |s| :: IsDigit(s[i])
  }

  function DigitValue(c: char): (d: nat)
    requires IsDigit(c)
    ensures d < 10
  {
    c as int - '0' as int
  }

  function DigitChar(d: nat): (c: char)
    requires d < 10
    ensures IsDigit(c) && DigitValue(c) == d
  {
    ('0' as int + d) as char
  }

  /** The value of a string of decimal digits, most significant first; leading zeros allowed. */
  function DecimalValue(ds: string): nat
    requires AllDigits(ds)
  {
    if ds == [] then 0
    else 10 * DecimalValue(ds[..|ds| - 1]) + DigitValue(ds[|ds| - 1])
  }

  /** The shortest decimal numeral of `n`. */
  function Numeral(n: nat): (s: string)
    ensures |s| >= 1 && AllDigits(s)
    ensures n > 0 ==> s[0] != '0'
  {
    if n < 10 then [DigitChar(n)] else Numeral(n / 10) + [DigitChar(n % 10)]
  }

  /** Reading back the numeral of `n` gives `n`. */
  lemma {:induction false} NumeralRoundTrip(n: nat)
    ensures DecimalValue(Numeral(n)) == n
  {
    if n >= 10 {
      var s := Numeral(n);
      assert s[..|s| - 1] == Numeral(n / 10);
      NumeralRoundTrip(n / 10);
    }
  }

  /** Leading zeros do not change the value of a numeral. */
  lemma {:induction false} LeadingZeros(zeros: string, ds: string)
    requires forall i | 0 <= i < |zeros| :: zeros[i] == '0'
    requires AllDigits(ds)
    ensures AllDigits(zeros + ds) && DecimalValue(zeros + ds) == DecimalValue(ds)
    decreases |ds|, |zeros|
  {
    var s := zeros + ds;
    if ds == [] {
      assert s == zeros;
      if zeros != [] {
        assert s[..|s| - 1] == zeros[..|zeros| - 1] + [];
        LeadingZeros(zeros[..|zeros| - 1], []);
      }
    } else {
      assert s[..|s| - 1] == zeros + ds[..|ds| - 1];
      LeadingZeros(zeros, ds[..|ds| - 1]);
    }
  }

  /** `k` is the length of the leading digit run of `s`, and that run is not empty. */
  predicate IsDigitRun(s: string, k: int) {
    0 < k <= |s| && AllDigits(s[..k]) && (k == |s| || !IsDigit(s[k]))
  }

  /** The length of the longest prefix of `s` made of digits, as `take_while` measures it. */
  function DigitRunLength(s: string): (k: nat)
    ensures k <= |s| && AllDigits(s[..k])
    ensures k == |s| || !IsDigit(s[k])
  {
    if s != [] && IsDigit(s[0]) then
      var k := 1 + DigitRunLength(s[1..]);
      assert s[..k] == [s[0]] + s[1..][..k - 1];
      k
    else 0
  }

  /**
   The number at the start of `s`: absent exactly when `s` does not begin
   with a digit; otherwise the value of the whole leading digit run, whatever
   follows it.
   */
  function NumberPrefix(s: string): (r: Option<nat>)
    ensures r.None? <==> (s == [] || !IsDigit(s[0]))
    ensures forall k | IsDigitRun(s, k) :: r == Some(DecimalValue(s[..k]))
  {
    var k := DigitRunLength(s);
    if k == 0 then None else Some(DecimalValue(s[..k]))
  }

  /** The numeral of `n` followed by anything that does not start with a digit reads as `n`. */
  lemma NumberPrefixOfNumeral(n: nat, rest: string)
    requires rest == [] || !IsDigit(rest[0])
    ensures NumberPrefix(Numeral(n) + rest) == Some(n)
  {
    var s := Numeral(n) + rest;
    var k := |Numeral(n)|;
    assert s[..k] == Numeral(n);
    assert IsDigitRun(s, k);
    NumeralRoundTrip(n);
  }

  /** The rank marker of the row fixture, "22.", reads as 22. */
  lemma RankExample()
    ensures NumberPrefix("22.") == Some(22)
  {
    assert Numeral(22) == "22";
    assert "22." == Numeral(22) + ".";
    NumberPrefixOfNumeral(22, ".");
  }

  /** The score marker "82 points" reads as 82. */
  lemma PointsExample()
    ensures NumberPrefix("82 points") == Some(82)
  {
    assert Numeral(82) == "82";
    assert "82 points" == Numeral(82) + " points";
    NumberPrefixOfNumeral(82, " points");
  }

  /** The comments link "14&nbsp;comments", whose entity decodes to a no-break space, reads as 14. */
  lemma CommentsExample()
    ensures NumberPrefix("14\U{00A0}comments") == Some(14)
  {
    assert Numeral(14) == "14";
    assert "14\U{00A0}comments" == Numeral(14) + "\U{00A0}comments";
    NumberPrefixOfNumeral(14, "\U{00A0}comments");
  }

  /** Leading zeros are read as decimal: "007" reads as 7. */
  lemma LeadingZerosExample()
    ensures NumberPrefix("007") == Some(7)
  {
    assert IsDigitRun("007", 3);
    assert "007"[..3] == "00" + "7";
    LeadingZeros("00", "7");
  }

  /** A text with no leading digit, such as "discuss" or "", has no number. */
  lemma NoNumberExamples()
    ensures NumberPrefix("discuss") == None
    ensures NumberPrefix("") == None
  {
  }
}
