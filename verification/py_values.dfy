/** The Python values the optimizer arguments can hold, with exactly the
    operations the argument checks and the command builder apply to them:
    `isinstance`, comparison with zero, `str.lower` and `str()`. */
module PyValues {
  import opened Wrappers

  /** A Python float. Only its order against zero matters here, so a finite
      float is a real number and the binary format is not modelled. */
  datatype Float = Finite(x: real) | Infinity(negative: bool) | NaN

  /** Python's `f <= 0`. Every comparison with NaN is false. */
  predicate AtMostZero(f: Float)
  {
    match f
    case Finite(x) => x <= 0.0
    case Infinity(negative) => negative
    case NaN => false
  }

  /** A Python argument value, tagged by its runtime class. `OtherV` is an
      object of any other class, carrying the text `str()` gives for it. */
  datatype PyVal =
    | NoneV
    | BoolV(b: bool)
    | IntV(i: int)
    | FloatV(f: Float)
    | StrV(s: string)
    | OtherV(text: string)

  /** `isinstance(v, int)`: `bool` is a subclass of `int` in Python. */
  predicate IsInstanceInt(v: PyVal)
  {
    v.IntV? || v.BoolV?
  }

  /** `isinstance(v, float)`: neither `int` nor `bool` is a float. */
  predicate IsInstanceFloat(v: PyVal)
  {
    v.FloatV?
  }

  /** The integer an `int` instance compares as (`True == 1`, `False == 0`). */
  function IntValue(v: PyVal): int
    requires IsInstanceInt(v)
  {
    if v.IntV? then v.i else if v.b then 1 else 0
  }

  // ---------------------------------------------------------------------
  // Case mapping (`str.lower`), restricted to ASCII letters
  // ---------------------------------------------------------------------

  predicate IsUpperAscii(c: char)
  {
    'A' <= c <= 'Z'
  }

  predicate NoUpperAscii(s: string)
  {
    forall i :: 0 <= i < |s| ==> !IsUpperAscii(s[i])
  }

  function LowerChar(c: char): (d: char)
    ensures !IsUpperAscii(d)
    ensures !IsUpperAscii(c) ==> d == c
    ensures IsUpperAscii(c) ==> 'a' <= d <= 'z' && d as int - c as int == 32
  {
    if IsUpperAscii(c) then (c as int + 32) as char else c
  }

  /** Two strings that `str.lower` maps to the same text. */
  predicate EqualIgnoringCase(s: string, t: string)
  {
    |s| == |t| && forall i :: 0 <= i < |s| ==> LowerChar(s[i]) == LowerChar(t[i])
  }

  /** `s.lower()`: the one string without upper-case letters that equals `s`
      up to case. */
  function Lower(s: string): (t: string)
    ensures NoUpperAscii(t)
    ensures EqualIgnoringCase(s, t)
  {
    seq(|s|, i requires 0 <= i < |s| => LowerChar(s[i]))
  }

  /** Lowering is the identity exactly on strings without upper-case letters,
      and two strings lower to the same text exactly when they are equal up
      to case. */
  lemma LowerCharacterisation(s: string, t: string)
    ensures Lower(s) == s <==> NoUpperAscii(s)
    ensures Lower(s) == Lower(t) <==> EqualIgnoringCase(s, t)
  {
    if NoUpperAscii(s) {
      assert forall i :: 0 <= i < |s| ==> Lower(s)[i] == s[i];
    }
    if EqualIgnoringCase(s, t) {
      assert forall i :: 0 <= i < |s| ==> Lower(s)[i] == Lower(t)[i];
    }
    if Lower(s) == Lower(t) {
      assert forall i :: 0 <= i < |s| ==> LowerChar(s[i]) == Lower(t)[i];
    }
  }

  // ---------------------------------------------------------------------
  // Decimal text of integers (`str(int)`) and its inverse
  // ---------------------------------------------------------------------

  function DigitChar(d: nat): (c: char)
    requires d < 10
    ensures '0' <= c <= '9'
  {
    ('0' as int + d) as char
  }

  function DigitValue(c: char): (d: nat)
    requires '0' <= c <= '9'
    ensures d < 10 && DigitChar(d) == c
  {
    c as int - '0' as int
  }

  predicate AllDigits(s: string)
  {
    forall i :: 0 <= i < |s| ==> '0' <= s[i] <= '9'
  }

  /** Decimal digits of a natural number, most significant first, no
      leading zeros. */
  function NatToDecimal(n: nat): (s: string)
    ensures |s| > 0 && AllDigits(s)
    ensures |s| > 1 ==> s[0] != '0'
    decreases n
  {
    if n < 10 then [DigitChar(n)] else NatToDecimal(n / 10) + [DigitChar(n % 10)]
  }

  /** `str(n)` for a Python `int`. */
  function IntToDecimal(n: int): string
  {
    if n < 0 then "-" + NatToDecimal(-n) else NatToDecimal(n)
  }

  /** The value of a non-empty string of decimal digits. */
  function DigitsValue(s: string): nat
    requires |s| > 0 && AllDigits(s)
    decreases |s|
  {
    if |s| == 1 then DigitValue(s[0])
    else DigitsValue(s[..|s| - 1]) * 10 + DigitValue(s[|s| - 1])
  }

  /** Reads back an optional minus sign followed by decimal digits, as
      `int(s)` does for the text `str` produces. */
  function ParseInt(s: string): Option<int>
  {
    if |s| > 0 && s[0] == '-' then
      if |s| > 1 && AllDigits(s[1..]) then Some(0 - DigitsValue(s[1..]) as int) else None
    else if |s| > 0 && AllDigits(s) then Some(DigitsValue(s))
    else None
  }

  lemma {:induction false} NatToDecimalRoundTrip(n: nat)
    ensures DigitsValue(NatToDecimal(n)) == n
    decreases n
  {
    if n >= 10 {
      var s := NatToDecimal(n);
      NatToDecimalRoundTrip(n / 10);
      assert s[..|s| - 1] == NatToDecimal(n / 10);
    }
  }

  /** `int(str(n)) == n`: the decimal text of an integer reads back as the
      same integer. */
  lemma IntToDecimalRoundTrip(n: int)
    ensures ParseInt(IntToDecimal(n)) == Some(n)
  {
    var t := IntToDecimal(n);
    if n < 0 {
      var digits := NatToDecimal(-n);
      NatToDecimalRoundTrip(-n);
      assert t == "-" + digits;
      assert t[0] == '-' && t[1..] == digits;
    } else {
      NatToDecimalRoundTrip(n);
      assert t == NatToDecimal(n);
      assert t[0] != '-';
    }
  }

  // ---------------------------------------------------------------------
  // `'{}'.format(v)`
  // ---------------------------------------------------------------------

  /** The text `'{}'.format(v)` inserts. Float text is Python's `repr` of a
      float, which is taken as the parameter `floatRepr`. */
  function Str(v: PyVal, floatRepr: Float -> string): (t: string)
    ensures v.IntV? ==> ParseInt(t) == Some(v.i)
    ensures v.StrV? ==> t == v.s
    ensures v.FloatV? ==> t == floatRepr(v.f)
  {
    match v
    case NoneV => "None"
    case BoolV(b) => if b then "True" else "False"
    case IntV(i) => IntToDecimalRoundTrip(i); IntToDecimal(i)
    case FloatV(f) => floatRepr(f)
    case StrV(s) => s
    case OtherV(text) => text
  }
}
