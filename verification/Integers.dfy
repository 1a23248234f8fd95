/** Parsing of a bounded integer, as the `StringToInteger` template does it. */
module Integers {
  import opened Options

  /** An integer type, by the limits `std::numeric_limits` gives. */
  datatype IntType = IntType(min: int, max: int) {
    predicate Valid() { max >= 127 && (min == 0 || min == -max - 1) }

    predicate IsSigned() { min < 0 }

    predicate Holds(x: int) { min <= x <= max }
  }

  /** The value of an expression of type `t`; it must not overflow. */
  function InType(t: IntType, x: int): int
    requires t.Holds(x)
  {
    x
  }

  /** Division as C++ does it, rounding towards zero. */
  function Quotient(a: int, b: int): int
    requires b > 0
  {
    if a >= 0 then a / b else -(-a / b)
  }

  predicate IsDigit(c: char) { '0' <= c <= '9' }

  function DigitOf(c: char): (d: int)
    requires IsDigit(c)
    ensures 0 <= d <= 9
  {
    c as int - '0' as int
  }

  predicate AllDigits(s: string) { forall c <- s :: IsDigit(c) }

  /** The number a run of digits stands for; the empty run stands for 0. */
  function Value(s: string): (v: int)
    requires AllDigits(s)
    ensures v >= 0
  {
    if s == [] then 0 else 10 * Value(s[..|s| - 1]) + DigitOf(s[|s| - 1])
  }

  /** The number the whole text stands for in the mathematical sense: an optional sign, then digits. */
  function Denoted(s: string): Option<int> {
    var signed := s != [] && (s[0] == '+' || s[0] == '-');
    var digits := if signed then s[1..] else s;
    if !AllDigits(digits) then None
    else Some(if signed && s[0] == '-' then -Value(digits) else Value(digits))
  }

  predicate Negative(s: string) { s != [] && s[0] == '-' }

  /** The text denotes a number of the type, and has no minus sign when the type is unsigned. */
  predicate Representable(t: IntType, s: string) {
    Denoted(s).Some? && t.Holds(Denoted(s).value) && (Negative(s) ==> t.IsSigned())
  }

  /** The digit loop of the positive branch, over the text from position `first`. */
  method ReadPositive(t: IntType, s: string, first: nat) returns (ok: bool, result: int)
    requires t.Valid() && first <= |s|
    ensures ok <==> AllDigits(s[first..]) && Value(s[first..]) <= t.max
    ensures ok ==> result == Value(s[first..])
  {
    ghost var digits := s[first..];
    assert AllDigits(digits[..0]) && Value(digits[..0]) == 0;
    hide Value, AllDigits;
    result := 0;
    var i, size := first, |s|;
    while i < size
      invariant first <= i <= size
      invariant AllDigits(digits[..i - first]) && result == Value(digits[..i - first]) && t.Holds(result)
    {
      Extend(digits, i - first);
      if s[i] < '0' || s[i] > '9' {
        return false, result;
      }
      if Quotient(t.max, 10) < result {
        return false, result;
      }
      result := InType(t, result * 10);
      var digit := InType(t, DigitOf(s[i]));
      if InType(t, t.max - digit) < result {
        return false, result;
      }
      result := InType(t, result + digit);
      i := i + 1;
    }
    assert digits[..i - first] == digits;
    ok := true;
  }

  /** The digit loop of the negative branch. */
  method ReadNegative(t: IntType, s: string, first: nat) returns (ok: bool, result: int)
    requires t.Valid() && t.IsSigned() && first <= |s|
    ensures ok <==> AllDigits(s[first..]) && -Value(s[first..]) >= t.min
    ensures ok ==> result == -Value(s[first..])
  {
    ghost var digits := s[first..];
    assert AllDigits(digits[..0]) && Value(digits[..0]) == 0;
    hide Value, AllDigits;
    result := 0;
    var i, size := first, |s|;
    while i < size
      invariant first <= i <= size
      invariant AllDigits(digits[..i - first]) && result == -Value(digits[..i - first]) && t.Holds(result)
    {
      Extend(digits, i - first);
      if s[i] < '0' || s[i] > '9' {
        return false, result;
      }
      if Quotient(t.min, 10) > result {
        return false, result;
      }
      result := InType(t, result * 10);
      var digit := InType(t, DigitOf(s[i]));
      if InType(t, t.min + digit) > result {
        return false, result;
      }
      result := InType(t, result - digit);
      i := i + 1;
    }
    assert digits[..i - first] == digits;
    ok := true;
  }

  /** `StringToInteger`. `num` is the caller's variable on entry and `res` on return. That no step leaves
      the type is what `InType` asks for. */
  method StringToInteger(t: IntType, s: string, num: int) returns (ok: bool, res: int)
    requires t.Valid()
    ensures ok <==> Representable(t, s)
    ensures res == if ok then Denoted(s).value else num
  {
    hide Value, AllDigits;
    var i := 0;
    var positive := true;
    var result := 0;
    if s != [] && s[0] == '+' {
      i := i + 1;
    } else if s != [] && s[0] == '-' {
      i := i + 1;
      positive := false;
    }
    assert i == 0 ==> s[i..] == s;
    if positive {
      ok, result := ReadPositive(t, s, i);
    } else {
      if !t.IsSigned() {
        return false, num;
      }
      ok, result := ReadNegative(t, s, i);
    }
    res := if ok then result else num;
  }

  /** One more digit, and what is still to come can only make the number larger. */
  lemma Extend(digits: string, k: nat)
    requires k < |digits| && AllDigits(digits[..k])
    ensures AllDigits(digits[..k + 1]) <==> IsDigit(digits[k])
    ensures IsDigit(digits[k]) ==> Value(digits[..k + 1]) == 10 * Value(digits[..k]) + DigitOf(digits[k])
    ensures !IsDigit(digits[k]) ==> !AllDigits(digits)
    ensures IsDigit(digits[k]) && AllDigits(digits) ==> Value(digits[..k + 1]) <= Value(digits)
  {
    assert digits[..k + 1] == digits[..k] + [digits[k]];
    assert digits[..k + 1][..k] == digits[..k];
    assert digits[k] in digits;
    if AllDigits(digits) { PrefixIsSmaller(digits, k + 1); }
  }

  lemma {:induction false} PrefixIsSmaller(digits: string, k: nat)
    requires k <= |digits| && AllDigits(digits)
    ensures Value(digits[..k]) <= Value(digits)
    decreases |digits|
  {
    if k < |digits| {
      var shorter := digits[..|digits| - 1];
      assert shorter[..k] == digits[..k];
      PrefixIsSmaller(shorter, k);
    } else {
      assert digits[..k] == digits;
    }
  }

  /** `GetStringMapInteger`. */
  method GetStringMapInteger(t: IntType, m: map<string, string>, key: string, default: int) returns (r: int)
    requires t.Valid()
    ensures r == if key in m && Representable(t, m[key]) then Denoted(m[key]).value else default
  {
    if key !in m {
      return default;
    }
    var res := default;
    var ok;
    ok, res := StringToInteger(t, m[key], res);
    if !ok {
      return default;
    }
    return res;
  }

  // ---- the partner: writing a number in decimal ----

  function Digit(d: int): (c: char)
    requires 0 <= d <= 9
    ensures IsDigit(c) && DigitOf(c) == d
  {
    '0' + d as char
  }

  function Decimal(n: nat): (s: string)
    ensures AllDigits(s) && s != []
  {
    if n < 10 then [Digit(n)] else Decimal(n / 10) + [Digit(n % 10)]
  }


  lemma {:induction false} ValueOfDecimal(n: nat, zeros: nat)
    ensures AllDigits(Zeros(zeros) + Decimal(n)) && Value(Zeros(zeros) + Decimal(n)) == n
    decreases n, zeros
  {
    var s := Zeros(zeros) + Decimal(n);
    if n < 10 {
      assert s[..|s| - 1] == Zeros(zeros);
    } else {
      ValueOfDecimal(n / 10, zeros);
      assert s[..|s| - 1] == Zeros(zeros) + Decimal(n / 10);
    }
  }

  function Zeros(k: nat): (s: string)
    ensures |s| == k && AllDigits(s) && Value(s) == 0
  {
    if k == 0 then [] else
      var s := Zeros(k - 1) + "0";
      assert s[..k - 1] == Zeros(k - 1);
      s
  }

  /** Every value of the type, down to its smallest, is read back from its decimal form, with or without
      a plus sign and leading zeros; no value outside the type is accepted. */
  lemma WrittenReadsBack(t: IntType, v: int, zeros: nat)
    requires t.Valid()
    ensures var s := if v < 0 then "-" + Zeros(zeros) + Decimal(-v) else Zeros(zeros) + Decimal(v);
            && Denoted(s) == Some(v) && (Representable(t, s) <==> t.Holds(v))
            && (v >= 0 ==> Denoted("+" + s) == Some(v) && (Representable(t, "+" + s) <==> t.Holds(v)))
  {
    hide Value, Decimal, Zeros, AllDigits, Denoted, Negative;
    var n := if v < 0 then -v else v;
    ValueOfDecimal(n, zeros);
    var digits := Zeros(zeros) + Decimal(n);
    assert "-" + Zeros(zeros) + Decimal(n) == "-" + digits;
    Signs(digits);
  }

  lemma Signs(digits: string)
    requires AllDigits(digits) && digits != []
    ensures Denoted(digits) == Some(Value(digits)) && !Negative(digits)
    ensures Denoted("+" + digits) == Some(Value(digits)) && !Negative("+" + digits)
    ensures Denoted("-" + digits) == Some(-Value(digits)) && Negative("-" + digits)
  {
    hide Value;
    assert ("-" + digits)[1..] == digits && ("+" + digits)[1..] == digits;
    assert digits[0] in digits;
  }

  /** A text that holds no digit is accepted as 0, unless it is a minus sign and the type is unsigned. */
  lemma NoDigitsIsZero(t: IntType)
    requires t.Valid()
    ensures Representable(t, "") && Denoted("") == Some(0)
    ensures Representable(t, "+") && Denoted("+") == Some(0)
    ensures (Representable(t, "-") <==> t.IsSigned()) && Denoted("-") == Some(0)
  {
    assert "+"[1..] == "" && "-"[1..] == "";
  }
}
