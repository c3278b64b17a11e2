/** The numbers the parser reads from token values: `int(...)` of an INT
    value and `float(...)` of a DECIMAL value, as exact integers and reals.
    Both conversions refuse a value that is not written in decimal. */
module Numbers {
  import opened Errors
  import opened Scanners

  function DigitValue(c: char): (d: nat)
    ensures d < 10
    ensures IsDigit(c) ==> d == c as int - '0' as int
  {
    if IsDigit(c) then c as int - '0' as int else 0
  }

  /** The digit that stands for d. */
  function DigitChar(d: nat): (c: char)
    requires d < 10
    ensures IsDigit(c) && DigitValue(c) == d
  {
    ('0' as int + d) as char
  }

  /** The decimal value of a digit string, most significant digit first. */
  function IntValue(s: string): (n: nat)
    ensures n < Pow10(|s|)
  {
    if s == [] then 0 else 10 * IntValue(s[..|s| - 1]) + DigitValue(s[|s| - 1])
  }

  /** The shortest decimal numeral of n. */
  function Numeral(n: nat): (s: string)
    ensures IsInteger(s)
  {
    if n < 10 then [DigitChar(n)] else Numeral(n / 10) + [DigitChar(n % 10)]
  }

  /** Reading a numeral back gives the number it was written for. */
  lemma {:induction false} IntValueNumeral(n: nat)
    ensures IntValue(Numeral(n)) == n
  {
    var s := Numeral(n);
    if n >= 10 {
      IntValueNumeral(n / 10);
      assert s[..|s| - 1] == Numeral(n / 10);
    }
  }

  /** A digit string is worth 0 exactly when all its digits are '0'. */
  lemma {:induction false} IntValueZero(s: string)
    requires forall j :: 0 <= j < |s| ==> IsDigit(s[j])
    ensures IntValue(s) == 0 <==> forall j :: 0 <= j < |s| ==> s[j] == '0'
  {
    if s != [] {
      var init := s[..|s| - 1];
      IntValueZero(init);
      assert forall j :: 0 <= j < |init| ==> init[j] == s[j];
    }
  }

  /** An optional '+' or '-' and then at least one digit: what `int` accepts. */
  predicate IsSignedInteger(s: string) {
    IsInteger(s) || (|s| > 0 && (s[0] == '+' || s[0] == '-') && IsInteger(s[1..]))
  }

  /** `int(s)` on strings of any length; None where Python raises
      ValueError for a malformed string. */
  function IntOf(s: string): (r: Option<int>)
    ensures r.Some? <==> IsSignedInteger(s)
    ensures IsInteger(s) ==> r == Some(IntValue(s))
  {
    if IsInteger(s) then Some(IntValue(s))
    else if |s| > 0 && s[0] == '+' && IsInteger(s[1..]) then Some(IntValue(s[1..]))
    else if |s| > 0 && s[0] == '-' && IsInteger(s[1..]) then Some(-(IntValue(s[1..]) as int))
    else None
  }

  /** `int` reads back every numeral, with or without a minus sign. */
  lemma IntOfNumeral(n: nat)
    ensures IntOf(Numeral(n)) == Some(n)
    ensures IntOf("-" + Numeral(n)) == Some(-(n as int))
  {
    IntValueNumeral(n);
    assert ("-" + Numeral(n))[1..] == Numeral(n);
  }

  /** The offset of the first '.' in s, or |s| when there is none. */
  function DotIndex(s: string): (k: nat)
    ensures k <= |s|
    ensures k < |s| ==> s[k] == '.'
    ensures forall j :: 0 <= j < k ==> s[j] != '.'
  {
    if s == [] then 0
    else if s[0] == '.' then 0
    else 1 + DotIndex(s[1..])
  }

  /** Digits, optionally followed by a dot and more digits. */
  predicate IsUnsignedNumber(s: string) {
    var k := DotIndex(s);
    IsInteger(s[..k]) && (k == |s| || IsInteger(s[k + 1..]))
  }

  /** `digits[.digits]` read as an exact non-negative number. */
  function UnsignedValue(s: string): (v: real)
    ensures v >= 0.0
  {
    var k := DotIndex(s);
    var whole := IntValue(s[..k]) as real;
    if k == |s| then whole
    else whole + IntValue(s[k + 1..]) as real / Pow10(|s| - k - 1) as real
  }

  function Pow10(n: nat): (r: nat)
    ensures r > 0
  {
    if n == 0 then 1 else 10 * Pow10(n - 1)
  }

  /** Every lexeme the decimal pattern accepts is an unsigned number whose dot
      is the one the pattern found. */
  lemma DecimalIsUnsigned(s: string)
    ensures IsDecimal(s) ==> IsUnsignedNumber(s) && s[0] != '+' && s[0] != '-'
  {
    if !IsDecimal(s) {
      return;
    }
    var k :| 0 < k < |s| - 1 && s[k] == '.' &&
      (forall j :: 0 <= j < k ==> IsDigit(s[j])) &&
      (forall j :: k < j < |s| ==> IsDigit(s[j]));
    var d := DotIndex(s);
    assert d == k;
    var after := s[k + 1..];
    assert forall j :: 0 <= j < |after| ==> after[j] == s[k + 1 + j];
  }

  /** `float(s)` for an optional sign and an unsigned number; None where
      Python raises ValueError. */
  function FloatOf(s: string): (r: Option<real>)
    ensures IsDecimal(s) ==> r.Some? && r.value >= 0.0
    ensures r.Some? && r.value < 0.0 ==> |s| > 0 && s[0] == '-'
  {
    DecimalIsUnsigned(s);
    if |s| > 0 && (s[0] == '+' || s[0] == '-') then
      if !IsUnsignedNumber(s[1..]) then None
      else if s[0] == '-' then Some(-UnsignedValue(s[1..]))
      else Some(UnsignedValue(s[1..]))
    else if IsUnsignedNumber(s) then
      Some(UnsignedValue(s))
    else
      None
  }
}
