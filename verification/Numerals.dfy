/** Number tokens: hexadecimal and decimal text, and the `stride:run` tokens of a trace line. */
module Numerals {
  import opened Common
  import opened Arithmetic

  const LOWER := "0123456789abcdef"

  function DigitChar(d: nat): (c: char)
    requires d < 16
    ensures DigitValue(c) == d
  {
    LOWER[d]
  }

  /** The value of a digit; 16 for anything that is not a hexadecimal digit. */
  function DigitValue(c: char): (d: nat)
    ensures d <= 16
  {
    if '0' <= c <= '9' then c as int - '0' as int
    else if 'a' <= c <= 'f' then c as int - 'a' as int + 10
    else if 'A' <= c <= 'F' then c as int - 'A' as int + 10
    else 16
  }

  predicate AllDigits(s: string, base: nat) {
    forall i :: 0 <= i < |s| ==> DigitValue(s[i]) < base
  }

  function FormatNat(n: nat, base: nat): (s: string)
    requires 2 <= base <= 16
    ensures s != [] && AllDigits(s, base)
  {
    if n < base then [DigitChar(n)]
    else
      DivSmaller(n, base);
      FormatNat(n / base, base) + [DigitChar(n % base)]
  }

  function DigitsValue(s: string, base: nat): nat {
    if s == [] then 0 else Shift(DigitsValue(s[..|s| - 1], base), base, DigitValue(s[|s| - 1]))
  }

  function Shift(high: nat, base: nat, low: nat): nat {
    high * base + low
  }

  function ParseNat(s: string, base: nat): Result<nat> {
    if s != [] && AllDigits(s, base) then Ok(DigitsValue(s, base)) else Err(BadNumber)
  }

  lemma DigitsValueAppend(s: string, c: char, base: nat)
    ensures DigitsValue(s + [c], base) == Shift(DigitsValue(s, base), base, DigitValue(c))
  {
    assert (s + [c])[..|s|] == s;
  }

  lemma {:induction false} DigitsOfFormatNat(n: nat, base: nat)
    requires 2 <= base <= 16
    ensures DigitsValue(FormatNat(n, base), base) == n
  {
    hide Shift, FormatNat, DigitsValue;
    ShiftDivMod(n, base);
    FormatNatStep(n, base);
    if n < base {
      DigitsValueAppend([], DigitChar(n), base);
      assert DigitsValue([], base) == 0 by { NoDigits(base); }
      assert [] + [DigitChar(n)] == [DigitChar(n)];
    } else {
      DivSmaller(n, base);
      var high, low := n / base, n % base;
      DigitsOfFormatNat(high, base);
      DigitsValueAppend(FormatNat(high, base), DigitChar(low), base);
    }
  }

  lemma FormatNatStep(n: nat, base: nat)
    requires 2 <= base <= 16
    ensures n < base ==> FormatNat(n, base) == [DigitChar(n)]
    ensures n >= base ==> FormatNat(n, base) == FormatNat(n / base, base) + [DigitChar(n % base)]
  {
  }

  lemma NoDigits(base: nat)
    ensures DigitsValue([], base) == 0
  {
  }

  lemma ShiftDivMod(n: nat, base: nat)
    requires base > 0
    ensures Shift(n / base, base, n % base) == n
    ensures n < base ==> Shift(0, base, n) == n
  {
  }

  lemma ParseFormatNat(n: nat, base: nat)
    requires 2 <= base <= 16
    ensures ParseNat(FormatNat(n, base), base) == Ok(n)
  {
    DigitsOfFormatNat(n, base);
  }

  // -------------------------------------------------------------- hexadecimal

  function FormatHex(n: int): string {
    if n < 0 then "-" + FormatNat(-n, 16) else FormatNat(n, 16)
  }

  predicate HasHexPrefix(token: string) {
    |token| >= 2 && token[0] == '0' && (token[1] == 'x' || token[1] == 'X')
  }

  function ParseHex(token: string): Result<nat> {
    if HasHexPrefix(token) then ParseNat(token[2..], 16) else ParseNat(token, 16)
  }

  lemma ParseFormatHex(n: nat)
    ensures ParseHex(FormatHex(n)) == Ok(n)
    ensures ParseHex("0x" + FormatHex(n)) == Ok(n)
  {
    ParseFormatNat(n, 16);
    var s := FormatHex(n);
    assert !HasHexPrefix(s) by {
      if |s| >= 2 {
        assert DigitValue(s[1]) < 16;
      }
    }
    assert ("0x" + s)[2..] == s;
  }

  // ------------------------------------------------------------------ decimal

  function FormatDec(n: int): (s: string)
    ensures s != []
  {
    if n < 0 then "-" + FormatNat(-n, 10) else FormatNat(n, 10)
  }

  predicate Signed(token: string) {
    token != [] && (token[0] == '-' || token[0] == '+')
  }

  function ParseDec(token: string): Result<int> {
    var digits := if Signed(token) then token[1..] else token;
    match ParseNat(digits, 10)
    case Ok(n) =>
      var magnitude: int := n;
      Ok(if Signed(token) && token[0] == '-' then -magnitude else magnitude)
    case Err(e) => Err(e)
  }

  lemma ParseFormatDec(n: int)
    ensures ParseDec(FormatDec(n)) == Ok(n)
  {
    var digits := FormatNat(if n < 0 then -n else n, 10);
    ParseFormatNat(if n < 0 then -n else n, 10);
    if n < 0 {
      assert FormatDec(n)[1..] == digits;
    } else {
      assert DigitValue(digits[0]) < 10;
    }
  }

  // -------------------------------------------------------------- stride:run

  predicate DecChar(c: char) {
    DigitValue(c) < 10 || c == '-' || c == '+'
  }

  lemma ParseDecChars(token: string)
    requires ParseDec(token).Ok?
    ensures token != [] && forall i :: 0 <= i < |token| ==> DecChar(token[i])
  {
    if Signed(token) {
      assert forall i :: 0 < i < |token| ==> token[i] == token[1..][i - 1];
    }
  }

  function FirstIndex(c: char, s: string): (k: nat)
    ensures k <= |s|
    ensures k < |s| ==> s[k] == c
    ensures forall i :: 0 <= i < k ==> s[i] != c
  {
    if s == [] || s[0] == c then 0 else 1 + FirstIndex(c, s[1..])
  }

  datatype Run = Run(stride: int, count: nat)

  /** Splits a token at its first colon and reads both halves as decimal integers. */
  function ParseStride(token: string): (r: Result<Run>)
    ensures r.Ok? ==> r.value.count > 0
  {
    var k := FirstIndex(':', token);
    if k == |token| then Err(BadNumber)
    else
      var stride :- ParseDec(token[..k]);
      var count :- ParseDec(token[k + 1..]);
      if count > 0 then Ok(Run(stride, count)) else Err(BadNumber)
  }

  function FormatStride(run: Run): string {
    FormatDec(run.stride) + ":" + FormatDec(run.count)
  }

  lemma ColonIsNotDec()
    ensures !DecChar(':')
  {
  }

  lemma ParseFormatStride(run: Run)
    requires run.count > 0
    ensures ParseStride(FormatStride(run)) == Ok(run)
  {
    hide FormatDec, ParseDec, DigitValue;
    var a, b := FormatDec(run.stride), FormatDec(run.count);
    ParseFormatDec(run.stride);
    ParseFormatDec(run.count);
    ParseDecChars(a);
    var token := FormatStride(run);
    assert token == a + [':'] + b;
    ColonIsNotDec();
    assert forall i :: 0 <= i < |a| ==> token[i] == a[i] && DecChar(a[i]);
    assert token[|a|] == ':';
    assert FirstIndex(':', token) == |a|;
    assert token[..|a|] == a && token[|a| + 1..] == b;
  }

  lemma StrideTokenChars(token: string)
    requires ParseStride(token).Ok?
    ensures token != [] && forall i :: 0 <= i < |token| ==> DecChar(token[i]) || token[i] == ':'
  {
    hide ParseNat;
    var k := FirstIndex(':', token);
    var a, b := token[..k], token[k + 1..];
    ParseDecChars(a);
    ParseDecChars(b);
    forall i | 0 <= i < |token| ensures DecChar(token[i]) || token[i] == ':' {
      if i < k {
        assert token[i] == a[i];
      } else if i > k {
        assert token[i] == b[i - k - 1];
      }
    }
  }
}
