/** Reading cursor text back: strconv.ParseInt(text, 10, 64) and its inverse. */
module Decimal {
  import opened Rows

  const MIN_INT64: int := -0x8000_0000_0000_0000
  const MAX_INT64: int := 0x7FFF_FFFF_FFFF_FFFF

  predicate IsDigit(c: char)
  {
    '0' <= c <= '9'
  }

  function DigitValue(c: char): nat
    requires IsDigit(c)
  {
    c as int - '0' as int
  }

  predicate AllDigits(s: string)
  {
    forall i | 0 <= i < |s| :: IsDigit(s[i])
  }

  function Digits(s: string): nat
    requires AllDigits(s)
  {
    if s == [] then 0 else 10 * Digits(s[..|s| - 1]) + DigitValue(s[|s| - 1])
  }

  /** An optional sign, then at least one digit, within 64 bits; anything else is an error. */
  function ParseInt64(text: string): Option<int>
  {
    var signed := text != [] && (text[0] == '-' || text[0] == '+');
    var digits := if signed then text[1..] else text;
    if digits == [] || !AllDigits(digits) then None
    else
      var magnitude: int := Digits(digits);
      var n := if signed && text[0] == '-' then -magnitude else magnitude;
      if MIN_INT64 <= n <= MAX_INT64 then Some(n) else None
  }

  function FormatNat(n: nat): (s: string)
    ensures s != [] && AllDigits(s)
  {
    var last := ('0' as int + n % 10) as char;
    if n < 10 then [last] else FormatNat(n / 10) + [last]
  }

  function Format(n: int): string
  {
    if n < 0 then "-" + FormatNat(-n) else FormatNat(n)
  }

  lemma {:induction false} DigitsOfFormat(n: nat)
    ensures Digits(FormatNat(n)) == n
  {
    if n >= 10 {
      DigitsOfFormat(n / 10);
      var s := FormatNat(n);
      assert s[..|s| - 1] == FormatNat(n / 10);
    }
  }

  /** A printed integer is read back exactly when it fits in 64 bits. */
  lemma ParseInvertsFormat(n: int)
    ensures ParseInt64(Format(n)) == if MIN_INT64 <= n <= MAX_INT64 then Some(n) else None
  {
    var m := if n < 0 then -n else n;
    DigitsOfFormat(m);
    var s := FormatNat(m);
    assert s[0] != '-' && s[0] != '+' by {
      assert IsDigit(s[0]);
    }
    assert n < 0 ==> Format(n)[1..] == s;
  }

  // ---- which texts are numbers ----

  function Pow10(k: nat): (p: nat)
    ensures p >= 1
  {
    if k == 0 then 1 else 10 * Pow10(k - 1)
  }

  /** The number with these digits, each weighed by its place. */
  function Value(s: string): nat
    requires AllDigits(s)
  {
    if s == [] then 0 else DigitValue(s[0]) * Pow10(|s| - 1) + Value(s[1..])
  }

  lemma {:induction false} ValueSnoc(s: string, c: char)
    requires AllDigits(s) && IsDigit(c)
    ensures AllDigits(s + [c]) && Value(s + [c]) == 10 * Value(s) + DigitValue(c)
  {
    if s == [] {
      assert [] + [c] == [c] && [c][1..] == [];
    } else {
      ValueSnoc(s[1..], c);
      assert (s + [c])[1..] == s[1..] + [c];
      Shifted(DigitValue(s[0]), Pow10(|s| - 1), Value(s[1..]));
    }
  }

  lemma Shifted(d: nat, p: nat, v: nat)
    ensures d * (10 * p) + 10 * v == 10 * (d * p + v)
  {
  }

  lemma {:induction false} DigitsIsValue(s: string)
    requires AllDigits(s)
    ensures Digits(s) == Value(s)
  {
    if s != [] {
      var front, c := s[..|s| - 1], s[|s| - 1];
      DigitsIsValue(front);
      ValueSnoc(front, c);
      assert s == front + [c];
    }
  }

  predicate Numeral(s: string)
  {
    s != [] && AllDigits(s)
  }

  /** The text is this number: digits, with at most one sign in front. */
  predicate Denotes(text: string, n: int)
  {
    || (Numeral(text) && n == Value(text))
    || (text != [] && text[0] == '+' && Numeral(text[1..]) && n == Value(text[1..]))
    || (text != [] && text[0] == '-' && Numeral(text[1..]) && n == 0 - Value(text[1..]))
  }

  /** A text is read as a number iff it denotes that number and the number fits in 64 bits. */
  lemma ParseInt64Iff(text: string, n: int)
    ensures ParseInt64(text) == Some(n) <==> Denotes(text, n) && MIN_INT64 <= n <= MAX_INT64
  {
    if Numeral(text) {
      assert IsDigit(text[0]);
      DigitsIsValue(text);
    }
    if text != [] && Numeral(text[1..]) {
      DigitsIsValue(text[1..]);
    }
  }
}
