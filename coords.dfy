/** The x and y text fields: integers written into them with `str` and read
    back with `int`, and the fallback to (10, 10) when either is not an
    integer. */
module Coords {
  import opened Wrappers
  import Geometry

  predicate IsDigit(c: char) { '0' <= c <= '9' }

  predicate AllDigits(s: string) { forall i :: 0 <= i < |s| ==> IsDigit(s[i]) }

  function DigitValue(c: char): nat
    requires IsDigit(c)
  {
    c as int - '0' as int
  }

  function DigitChar(d: nat): (c: char)
    requires d < 10
    ensures IsDigit(c) && DigitValue(c) == d
  {
    ('0' as int + d) as char
  }

  function Pow10(k: nat): (p: nat)
    ensures p > 0
  {
    if k == 0 then 1 else 10 * Pow10(k - 1)
  }

  /** The positional value of a digit string, most significant digit first:
      the sum of `DigitValue(s[i]) * 10^(|s| - 1 - i)`. */
  function DecimalValue(s: string): nat
    requires AllDigits(s)
  {
    if s == [] then 0 else DigitValue(s[0]) * Pow10(|s| - 1) + DecimalValue(s[1..])
  }

  /** Appending a digit multiplies the value by ten and adds that digit. */
  lemma {:induction false} DecimalValueSnoc(s: string, c: char)
    requires AllDigits(s) && IsDigit(c)
    ensures AllDigits(s + [c])
    ensures DecimalValue(s + [c]) == DecimalValue(s) * 10 + DigitValue(c)
  {
    assert AllDigits(s + [c]) by {
      forall i | 0 <= i < |s + [c]| ensures IsDigit((s + [c])[i]) {
        if i < |s| { assert (s + [c])[i] == s[i]; }
      }
    }
    if s != [] {
      assert (s + [c])[1..] == s[1..] + [c];
      DecimalValueSnoc(s[1..], c);
      var d, p := DigitValue(s[0]), Pow10(|s| - 1);
      assert Pow10(|s|) == 10 * p;
      assert DecimalValue(s + [c]) == d * Pow10(|s|) + DecimalValue(s[1..] + [c]);
      assert d * (10 * p) == (d * p) * 10;
    }
  }

  /** The value of a non-empty run of decimal digits, read one digit at a
      time from the right; None if `s` is empty or holds anything but
      digits. */
  function ParseDigits(s: string): (r: Option<nat>)
    ensures r.Some? <==> |s| > 0 && AllDigits(s)
    ensures r.Some? ==> r.value == DecimalValue(s)
    decreases |s|
  {
    if |s| == 0 || !IsDigit(s[|s| - 1]) then None
    else if |s| == 1 then Some(DigitValue(s[0]))
    else match ParseDigits(s[..|s| - 1])
      case None => None
      case Some(v) =>
        assert s == s[..|s| - 1] + [s[|s| - 1]];
        DecimalValueSnoc(s[..|s| - 1], s[|s| - 1]);
        Some(v * 10 + DigitValue(s[|s| - 1]))
  }

  /** A decimal integer literal with an optional sign, as `int` reads one:
      every character after the first is a digit, and the first is a digit or
      a sign followed by at least one digit. */
  predicate IsIntLiteral(s: string): (r: bool)
    ensures r ==> |s| > 0 && IsDigit(s[|s| - 1]) && forall i :: 0 < i < |s| ==> IsDigit(s[i])
    ensures r && !IsDigit(s[0]) ==> |s| >= 2 && (s[0] == '-' || s[0] == '+')
  {
    |s| > 0 &&
    if s[0] == '-' || s[0] == '+' then |s| > 1 && AllDigits(s[1..]) else AllDigits(s)
  }

  /** The integer a literal denotes: the decimal value of its digits, negated
      after a minus sign. */
  function LiteralValue(s: string): int
    requires IsIntLiteral(s)
  {
    if s[0] == '-' then -(DecimalValue(s[1..]) as int)
    else if s[0] == '+' then DecimalValue(s[1..])
    else DecimalValue(s)
  }

  /** `int(s)`: the integer `s` denotes, or None where `int` raises
      ValueError. */
  function ParseInt(s: string): (r: Option<int>)
    ensures r.Some? <==> IsIntLiteral(s)
    ensures r.Some? ==> r.value == LiteralValue(s)
    ensures r.Some? && s[0] == '-' ==> r.value <= 0
    ensures r.Some? && s[0] != '-' ==> r.value >= 0
  {
    if |s| > 0 && (s[0] == '-' || s[0] == '+') then
      match ParseDigits(s[1..])
      case None => None
      case Some(v) => Some(if s[0] == '-' then -(v as int) else v as int)
    else
      match ParseDigits(s)
      case None => None
      case Some(v) => Some(v)
  }

  /** `str(n)` for a natural number: its decimal digits, most significant
      first, with no leading zero. */
  function ShowNat(n: nat): (s: string)
    ensures |s| > 0 && AllDigits(s)
    ensures s[0] == '0' ==> n == 0
  {
    if n < 10 then [DigitChar(n)] else ShowNat(n / 10) + [DigitChar(n % 10)]
  }

  /** `str(n)` for any integer. */
  function ShowInt(n: int): (s: string)
    ensures |s| > 0
    ensures n < 0 <==> s[0] == '-'
  {
    if n < 0 then "-" + ShowNat(-n) else ShowNat(n)
  }

  /** Reading back the digits of a natural number gives that number. */
  lemma {:induction false} ParseShowNat(n: nat)
    ensures ParseDigits(ShowNat(n)) == Some(n)
  {
    if n >= 10 {
      var s := ShowNat(n);
      assert s[..|s| - 1] == ShowNat(n / 10);
      ParseShowNat(n / 10);
    }
  }

  /** `int(str(n)) == n` for every integer. */
  lemma ParseShowInt(n: int)
    ensures ParseInt(ShowInt(n)) == Some(n)
  {
    if n < 0 {
      var s := ShowInt(n);
      assert s[1..] == ShowNat(-n);
      ParseShowNat(-n);
    } else {
      ParseShowNat(n);
    }
  }

  /** Typed text is read as its decimal value: leading zeros and a plus sign
      are accepted, and text with anything but digits after the sign is not
      a number. */
  lemma ReadScenarios()
    ensures ParseInt("120") == Some(120)
    ensures ParseInt("007") == Some(7)
    ensures ParseInt("+7") == Some(7)
    ensures ParseInt("-45") == Some(-45)
    ensures ParseInt("12a") == None
    ensures ParseInt("-") == None
  {
    assert DecimalValue("120") == 120 by {
      assert "120"[1..] == "20" && "20"[1..] == "0" && "0"[1..] == "";
    }
    assert DecimalValue("007") == 7 by {
      assert "007"[1..] == "07" && "07"[1..] == "7" && "7"[1..] == "";
    }
    assert "+7"[1..] == "7" && DecimalValue("7") == 7 by { assert "7"[1..] == ""; }
    assert "-45"[1..] == "45" && DecimalValue("45") == 45 by {
      assert "45"[1..] == "5" && "5"[1..] == "";
    }
    assert !IsDigit("12a"[2]);
  }

  /** The two fields read together: the parsed pair if both parse, and
      (Margin, Margin) as soon as either one does not, whatever the other
      holds. */
  function ParseCoords(xText: string, yText: string): (r: (int, int))
    ensures IsIntLiteral(xText) && IsIntLiteral(yText) ==> r == (ParseInt(xText).value, ParseInt(yText).value)
    ensures !IsIntLiteral(xText) || !IsIntLiteral(yText) ==> r == (Geometry.Margin, Geometry.Margin)
  {
    match (ParseInt(xText), ParseInt(yText))
    case (Some(x), Some(y)) => (x, y)
    case _ => (Geometry.Margin, Geometry.Margin)
  }

  /** Coordinates written into the fields are read back unchanged. */
  lemma ShowThenParse(x: int, y: int)
    ensures ParseCoords(ShowInt(x), ShowInt(y)) == (x, y)
  {
    ParseShowInt(x);
    ParseShowInt(y);
  }

  /** A valid x field does not survive an invalid y field, and the fallback is
      the top-left corner placement. */
  lemma FallbackScenario(base: Geometry.Dims, wm: Geometry.Dims)
    ensures ParseCoords("120", "abc") == (10, 10)
    ensures ParseCoords("", "40") == (10, 10)
    ensures ParseCoords("-5", "+7") == (-5, 7)
    ensures Geometry.Resolve(Geometry.TopLeft, base, wm) == Some(ParseCoords("x", "y"))
  {
    assert !AllDigits("abc") by { assert !IsDigit("abc"[0]); }
    assert ParseDigits("5") == Some(5);
    assert ParseDigits("7") == Some(7);
  }
}
