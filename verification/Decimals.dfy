// Decimal numerals: how whole numbers print, and the plain decimal texts that a store reads as
// numbers, `-?[0-9]+(\.[0-9]+)?`.
module Decimals {
  function Digit(n: nat): char
    requires n < 10
  {
    '0' + n as char
  }

  function Power(width: nat): (p: nat)
    ensures p > 0
  {
    if width == 0 then 1 else 10 * Power(width - 1)
  }

  function Digits(n: nat): string { (if n < 10 then "" else Digits(n / 10)) + [Digit(n % 10)] }

  predicate AllDigits(s: string) { forall i :: 0 <= i < |s| ==> '0' <= s[i] <= '9' }

  function Natural(s: string): nat
    requires AllDigits(s)
  {
    if s == "" then 0 else 10 * Natural(s[..|s| - 1]) + (s[|s| - 1] - '0') as nat
  }

  lemma {:induction false} DigitsAreDigits(n: nat)
    ensures Digits(n) != "" && AllDigits(Digits(n))
  {
    if n >= 10 { DigitsAreDigits(n / 10); }
  }

  // A printed number reads back.
  lemma {:induction false} NaturalOfDigits(n: nat)
    ensures AllDigits(Digits(n)) && Natural(Digits(n)) == n
  {
    DigitsAreDigits(n);
    var front := if n < 10 then "" else Digits(n / 10);
    assert Digits(n)[..|Digits(n)| - 1] == front;
    if n >= 10 { NaturalOfDigits(n / 10); }
  }

  // ---- Plain decimal texts ----

  // The position of the first point, or the length.
  function PointAt(s: string): (p: nat)
    ensures p <= |s| && (forall i :: 0 <= i < p ==> s[i] != '.') && (p < |s| ==> s[p] == '.')
  {
    if s == "" || s[0] == '.' then 0 else 1 + PointAt(s[1..])
  }

  predicate PlainUnsigned(s: string) {
    var p := PointAt(s);
    p > 0 && AllDigits(s[..p]) && (p < |s| ==> p + 1 < |s| && AllDigits(s[p + 1..]))
  }

  function UnsignedValue(s: string): real
    requires PlainUnsigned(s)
  {
    var p := PointAt(s);
    Natural(s[..p]) as real + if p < |s| then Natural(s[p + 1..]) as real / Power(|s| - p - 1) as real else 0.0
  }

  predicate Negative(s: string) { s != "" && s[0] == '-' }
  predicate Plain(s: string) { if Negative(s) then PlainUnsigned(s[1..]) else PlainUnsigned(s) }

  function DecimalValue(s: string): real
    requires Plain(s)
  {
    if Negative(s) then -UnsignedValue(s[1..]) else UnsignedValue(s)
  }

  predicate Pointed(s: string) { exists i :: 0 <= i < |s| && s[i] == '.' }

  function IntText(n: int): string { if n < 0 then "-" + Digits(-n) else Digits(n) }

  lemma WholeUnsigned(n: nat)
    ensures PlainUnsigned(Digits(n)) && UnsignedValue(Digits(n)) == n as real && !Negative(Digits(n))
    ensures forall i :: 0 <= i < |Digits(n)| ==> Digits(n)[i] != '.'
  {
    hide Digits, Natural;
    DigitsAreDigits(n);
    NaturalOfDigits(n);
    var s := Digits(n);
    assert PointAt(s) == |s| && s[..|s|] == s;
  }

  // Whole numbers print as plain decimals without a point, and different ones differently.
  lemma WholeText(n: int)
    ensures Plain(IntText(n)) && DecimalValue(IntText(n)) == n as real && !Pointed(IntText(n))
  {
    hide Digits, PlainUnsigned, UnsignedValue;
    if n < 0 {
      WholeUnsigned(-n);
      assert IntText(n)[1..] == Digits(-n);
    } else {
      WholeUnsigned(n);
    }
  }

  // The text of a sign, the digits of the whole part and, where there are any, those of the fraction.
  function DecimalText(negative: bool, whole: string, fraction: string): string {
    (if negative then "-" else "") + whole + (if fraction == "" then "" else "." + fraction)
  }

  // Such a text is a plain decimal of the value it spells,
  lemma PlainForms(negative: bool, whole: string, fraction: string)
    requires whole != "" && AllDigits(whole) && AllDigits(fraction)
    ensures var s, x := DecimalText(negative, whole, fraction), Natural(whole) as real + Natural(fraction) as real / Power(|fraction|) as real;
            Plain(s) && DecimalValue(s) == (if negative then -x else x)
  {
    hide PlainUnsigned, UnsignedValue, Natural, Power;
    var u := whole + (if fraction == "" then "" else "." + fraction);
    UnsignedForms(whole, fraction);
    if negative {
      Signed(u);
      assert DecimalText(true, whole, fraction) == "-" + u;
    } else {
      assert u[0] == whole[0];
      assert DecimalText(false, whole, fraction) == u;
    }
  }

  lemma Signed(u: string)
    ensures Negative("-" + u) && ("-" + u)[1..] == u
  {}

  lemma UnsignedForms(whole: string, fraction: string)
    requires whole != "" && AllDigits(whole) && AllDigits(fraction)
    ensures var u := whole + (if fraction == "" then "" else "." + fraction);
            PlainUnsigned(u) && UnsignedValue(u) == Natural(whole) as real + Natural(fraction) as real / Power(|fraction|) as real
  {
    if fraction == "" { WholeOnly(whole); } else { WithPoint(whole, fraction); }
  }

  lemma WholeOnly(whole: string)
    requires whole != "" && AllDigits(whole)
    ensures PlainUnsigned(whole) && UnsignedValue(whole) == Natural(whole) as real
    ensures whole + "" == whole && Natural("") as real / Power(0) as real == 0.0
  {
    hide PointAt;
    PointAfter(whole, "");
    assert whole + "" == whole && whole[..|whole|] == whole;
  }

  lemma WithPoint(whole: string, fraction: string)
    requires whole != "" && AllDigits(whole) && fraction != "" && AllDigits(fraction)
    ensures PlainUnsigned(whole + ("." + fraction))
    ensures UnsignedValue(whole + ("." + fraction)) == Natural(whole) as real + Natural(fraction) as real / Power(|fraction|) as real
  {
    hide PointAt, Natural, Power, PlainUnsigned, UnsignedValue, AllDigits;
    PointAfter(whole, "." + fraction);
    Slices(whole, fraction);
    UnsignedAt(whole + ("." + fraction), whole, fraction);
  }

  lemma Slices(whole: string, fraction: string)
    ensures var u := whole + ("." + fraction);
            |u| == |whole| + 1 + |fraction| && u[..|whole|] == whole && u[|whole| + 1..] == fraction
  {}

  lemma UnsignedAt(u: string, whole: string, fraction: string)
    requires PointAt(u) == |whole| > 0 && |u| == |whole| + 1 + |fraction| && fraction != ""
    requires u[..|whole|] == whole && u[|whole| + 1..] == fraction && AllDigits(whole) && AllDigits(fraction)
    ensures PlainUnsigned(u) && UnsignedValue(u) == Natural(whole) as real + Natural(fraction) as real / Power(|fraction|) as real
  {
    hide PointAt, Natural, Power;
  }

  lemma PointAfter(whole: string, tail: string)
    requires AllDigits(whole) && (tail == "" || tail[0] == '.')
    ensures PointAt(whole + tail) == |whole|
  {
    hide PointAt;
    var s := whole + tail;
    assert forall i :: 0 <= i < |whole| ==> s[i] == whole[i];
    assert tail != "" ==> s[|whole|] == '.';
  }

  // and every plain decimal is such a text.
  lemma PlainParts(s: string) returns (negative: bool, whole: string, fraction: string)
    requires Plain(s)
    ensures whole != "" && AllDigits(whole) && AllDigits(fraction) && s == DecimalText(negative, whole, fraction)
  {
    negative := Negative(s);
    var u := if negative then s[1..] else s;
    assert s == (if negative then "-" else "") + u;
    whole, fraction := UnsignedParts(u);
  }

  lemma UnsignedParts(u: string) returns (whole: string, fraction: string)
    requires PlainUnsigned(u)
    ensures whole != "" && AllDigits(whole) && AllDigits(fraction)
    ensures u == whole + (if fraction == "" then "" else "." + fraction)
    ensures forall sign: string :: sign + u == sign + whole + (if fraction == "" then "" else "." + fraction)
  {
    hide PointAt;
    var p := PointAt(u);
    whole := u[..p];
    if p < |u| {
      fraction := u[p + 1..];
      assert u[p..] == "." + fraction;
    } else {
      fraction := "";
    }
    var tail := if fraction == "" then "" else "." + fraction;
    assert u == whole + tail;
    forall sign: string ensures sign + u == sign + whole + tail { Regrouped(sign, whole, tail); }
  }

  lemma Regrouped(a: string, b: string, c: string)
    ensures a + (b + c) == a + b + c
  {}

  predicate EndsInDigit(s: string) { s != "" && '0' <= s[|s| - 1] <= '9' }

  lemma PlainEndsInDigit(s: string)
    requires Plain(s)
    ensures EndsInDigit(s)
  {
    var u := if Negative(s) then s[1..] else s;
    var p := PointAt(u);
    assert u[|u| - 1] == s[|s| - 1];
    if p < |u| { assert u[p + 1..][|u| - p - 2] == u[|u| - 1]; } else { assert u[..p][p - 1] == u[|u| - 1]; }
  }
}
