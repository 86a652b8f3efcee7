/** Decimal integers and number tokens. */
module JsonNumbers {
  import opened Prelude
  import opened JsonText

  const MINUS := 0x2D

  predicate IsDigit(c: int) { 0x30 <= c < 0x3A }

  /** Characters a number token may contain: digits, signs, the point and the exponent mark. */
  predicate IsNumberChar(c: int) {
    IsDigit(c) || c == MINUS || c == 0x2B || c == 0x2E || c == 0x65 || c == 0x45
  }

  predicate IsFraction(c: int) { c == 0x2E || c == 0x65 || c == 0x45 }

  predicate StartsNumber(c: int) { IsDigit(c) || c == MINUS }

  function Digits(n: nat): Text
    ensures Digits(n) != []
  {
    if n < 10 then [0x30 + n] else Digits(n / 10) + [0x30 + n % 10]
  }

  function Decimal(i: int): Text {
    if i < 0 then [MINUS] + Digits(-i) else Digits(i)
  }

  function ReadDigits(t: Text): Option<int> {
    if t == [] then Some(0)
    else
      var init, last := ReadDigits(t[..|t| - 1]), t[|t| - 1];
      if init.Some? && IsDigit(last) then Some(init.value * 10 + (last - 0x30)) else None
  }

  /** An integer token: the decimal form of the number it denotes. */
  function ReadDecimal(t: Text): Option<int> {
    if t == [] then None
    else if t[0] == MINUS then
      var n := ReadDigits(t[1..]);
      if n.Some? && t == Decimal(-n.value) then Some(-n.value) else None
    else
      var n := ReadDigits(t);
      if n.Some? && t == Decimal(n.value) then Some(n.value) else None
  }

  lemma {:induction false} DigitsRoundTrip(n: nat)
    ensures ReadDigits(Digits(n)) == Some(n)
    ensures forall i :: 0 <= i < |Digits(n)| ==> IsDigit(Digits(n)[i])
  {
    var t := Digits(n);
    if n < 10 {
      assert t[..0] == [];
    } else {
      DigitsRoundTrip(n / 10);
      assert t[..|t| - 1] == Digits(n / 10);
    }
  }

  /** The sign is a hyphen, and no number starts with a zero but zero itself. */
  lemma {:induction false} DecimalForm(i: int)
    ensures i < 0 ==> Decimal(i) == [0x2D] + Decimal(-i)
    ensures i > 0 ==> 0x31 <= Decimal(i)[0] <= 0x39
    ensures Decimal(0) == [0x30]
    decreases if i < 0 then -i + 1 else i
  {
    if i >= 10 { DecimalForm(i / 10); }
  }

  lemma DecimalRoundTrip(i: int)
    ensures ReadDecimal(Decimal(i)) == Some(i)
    ensures Decimal(i) != [] && StartsNumber(Decimal(i)[0])
    ensures forall k :: 0 <= k < |Decimal(i)| ==> StartsNumber(Decimal(i)[k])
  {
    DigitsRoundTrip(if i < 0 then -i else i);
    if i < 0 {
      assert Decimal(i)[1..] == Digits(-i);
    }
  }

  /** Length of the longest prefix made of number characters. */
  function TokenLength(t: Text): nat
    ensures TokenLength(t) <= |t|
  {
    if t == [] || !IsNumberChar(t[0]) then 0 else 1 + TokenLength(t[1..])
  }

  lemma {:induction false} TokenEndsAt(token: Text, rest: Text)
    requires forall i :: 0 <= i < |token| ==> IsNumberChar(token[i])
    requires rest == [] || !IsNumberChar(rest[0])
    ensures TokenLength(token + rest) == |token|
  {
    if token == [] {
      assert token + rest == rest;
    } else {
      assert (token + rest)[1..] == token[1..] + rest;
      TokenEndsAt(token[1..], rest);
    }
  }

  /** A printed floating-point number: a number token with a point or an exponent. */
  predicate IsFloatToken(t: Text) {
    && t != [] && StartsNumber(t[0])
    && (forall i :: 0 <= i < |t| ==> IsNumberChar(t[i]))
    && (exists i :: 0 <= i < |t| && IsFraction(t[i]))
  }
}
