/**
  Numeric coercion of the string cells of a response (`pd.to_numeric(...,
  errors="coerce")`): a cell that reads as a decimal numeral becomes its value,
  anything else becomes `Undefined` (NaN) instead of raising.
 */
module Coerce {
  import opened Num

  predicate IsDigit(c: char) {
    '0' <= c <= '9'
  }

  predicate AllDigits(s: string) {
    forall i | 0 <= i < |s| :: IsDigit(s[i])
  }

  /** Characters that can occur in an accepted numeral. */
  predicate IsNumeralChar(c: char) {
    IsDigit(c) || c == '-' || c == '+' || c == '.'
  }

  /** The value of a digit string read most-significant digit first; "" reads as 0. */
  function DigitsValue(s: string): nat
    requires AllDigits(s)
  {
    if |s| == 0 then 0 else DigitsValue(s[..|s| - 1]) * 10 + (s[|s| - 1] as int - '0' as int)
  }

  function Pow10(n: nat): (p: nat)
    ensures 0 < p
  {
    if n == 0 then 1 else 10 * Pow10(n - 1)
  }

  /** Position of the first `c` in `s`, or `|s|` when there is none. */
  function FirstIndex(s: string, c: char): (k: nat)
    ensures k <= |s|
    ensures k < |s| ==> s[k] == c
    ensures forall j | 0 <= j < k :: s[j] != c
  {
    if |s| == 0 then 0 else if s[0] == c then 0 else 1 + FirstIndex(s[1..], c)
  }

  /**
    One cell through `pd.to_numeric(errors="coerce")`. Accepted: an optional
    sign, digits, and an optional fraction after one '.', with at least one
    digit in all.
   */
  function ToNumeric(s: string): (r: Num)
    ensures r.Defined? ==> forall i | 0 <= i < |s| :: IsNumeralChar(s[i])
    ensures r.Defined? ==> exists i | 0 <= i < |s| :: IsDigit(s[i])
  {
    var signed := 0 < |s| && (s[0] == '-' || s[0] == '+');
    var body := if signed then s[1..] else s;
    var dot := FirstIndex(body, '.');
    var whole := body[..dot];
    var frac := if dot < |body| then body[dot + 1..] else "";
    if AllDigits(whole) && AllDigits(frac) && 0 < |whole| + |frac| then
      var magnitude := DigitsValue(whole) as real + DigitsValue(frac) as real / Pow10(|frac|) as real;
      assert forall i | 0 <= i < |s| :: IsNumeralChar(s[i]) by {
        forall i | 0 <= i < |s|
          ensures IsNumeralChar(s[i])
        {
          var off := if signed then 1 else 0;
          if i >= off {
            var j := i - off;
            assert body[j] == s[i];
            if j < dot {
              assert whole[j] == body[j];
            } else if j > dot {
              assert frac[j - dot - 1] == body[j];
            }
          }
        }
      }
      assert exists i | 0 <= i < |s| :: IsDigit(s[i]) by {
        var off := if signed then 1 else 0;
        if 0 < |whole| {
          assert s[off] == whole[0];
        } else {
          assert s[off + dot + 1] == frac[0];
        }
      }
      Defined(if 0 < |s| && s[0] == '-' then -magnitude else magnitude)
    else
      Undefined
  }

  function DigitChar(d: nat): (c: char)
    requires d < 10
    ensures IsDigit(c) && c as int - '0' as int == d
  {
    ('0' as int + d) as char
  }

  /** Decimal digits of a natural number, most significant first, no padding. */
  function NatToDigits(n: nat): (s: string)
    ensures 0 < |s|
    ensures AllDigits(s)
    ensures DigitsValue(s) == n
    decreases n
  {
    if n < 10 then [DigitChar(n)]
    else
      var prefix := NatToDigits(n / 10);
      var s := prefix + [DigitChar(n % 10)];
      assert s[..|s| - 1] == prefix;
      s
  }

  /** How an integer count is written in a response cell. */
  function IntToString(n: int): string {
    if n < 0 then "-" + NatToDigits(-n) else NatToDigits(n)
  }

  /** Every integer written as a response cell coerces back to itself. */
  lemma CoerceInteger(n: int)
    ensures ToNumeric(IntToString(n)) == Defined(n as real)
  {
    var s := IntToString(n);
    var digits := if n < 0 then NatToDigits(-n) else NatToDigits(n);
    var body := if 0 < |s| && (s[0] == '-' || s[0] == '+') then s[1..] else s;
    assert body == digits;
    assert FirstIndex(body, '.') == |body|;
    assert body[..|body|] == digits;
  }

  /** A cell holding any character outside the numeral alphabet becomes NaN. */
  lemma CoerceNonNumeric(s: string, i: nat)
    requires i < |s| && !IsNumeralChar(s[i])
    ensures ToNumeric(s) == Undefined
  {
  }

  /** A fraction, an empty cell and a placeholder. */
  lemma CoerceExamples()
    ensures ToNumeric("12.5") == Defined(12.5)
    ensures ToNumeric("") == Undefined
    ensures ToNumeric("N/A") == Undefined
  {
    assert "N/A"[0] == 'N';
    TwelveAndAHalf();
  }

  /** "12.5" reads as twelve and a half. */
  lemma TwelveAndAHalf()
    ensures ToNumeric("12.5") == Defined(12.5)
  {
    var body := "12.5";
    assert FirstIndex(body, '.') == 2;
    assert body[..2] == "12" && body[3..] == "5";
    assert DigitsValue("12") == 12 by {
      assert "12"[..1] == "1";
    }
  }

  /** The Census annotation code for a missing estimate is a number, so it is kept. */
  lemma CoerceAnnotationCode()
    ensures ToNumeric("-666666666") == Defined(-666666666.0)
  {
    assert "-666666666"[1..] == "666666666";
    NegativeDigits("-666666666");
    SixesValue();
  }

  /** A minus sign followed by digits reads as the negated digit value. */
  lemma NegativeDigits(s: string)
    requires 1 < |s| && s[0] == '-' && AllDigits(s[1..])
    ensures ToNumeric(s) == Defined(-(DigitsValue(s[1..]) as real))
  {
    var body := s[1..];
    assert FirstIndex(body, '.') == |body|;
    assert body[..|body|] == body;
  }

  /** The digit string of the annotation code reads as 666666666. */
  lemma SixesValue()
    ensures DigitsValue("666666666") == 666666666
  {
    assert DigitsValue("6") == 6;
    assert DigitsValue("66") == 66 by { assert "66"[..1] == "6"; }
    assert DigitsValue("666") == 666 by { assert "666"[..2] == "66"; }
    assert DigitsValue("6666") == 6666 by { assert "6666"[..3] == "666"; }
    assert DigitsValue("66666") == 66666 by { assert "66666"[..4] == "6666"; }
    assert DigitsValue("666666") == 666666 by { assert "666666"[..5] == "66666"; }
    assert DigitsValue("6666666") == 6666666 by { assert "6666666"[..6] == "666666"; }
    assert DigitsValue("66666666") == 66666666 by { assert "66666666"[..7] == "6666666"; }
    assert "666666666"[..8] == "66666666";
  }
}
