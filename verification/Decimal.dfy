/** Decimal notation. */
module Decimal {
  import opened Bytes

  const MINUS: Byte := 45

  function Digit(d: nat): Byte
    requires d < 10
  {
    48 + d
  }

  predicate AllDigits(t: Text) {
    forall i :: 0 <= i < |t| ==> 48 <= t[i] <= 57
  }

  function Digits(n: nat): (t: Text)
    ensures t != [] && AllDigits(t)
  {
    if n < 10 then [Digit(n)] else Digits(n / 10) + [Digit(n % 10)]
  }

  function Signed(n: int): Text {
    if n < 0 then [MINUS] + Digits(-n) else Digits(n)
  }

  /** At least `width` digits, padded with zeros. */
  function Padded(n: nat, width: nat): (t: Text)
    ensures t != [] && AllDigits(t)
  {
    Pad(Digits(n), width)
  }

  function Pad(t: Text, width: nat): (p: Text)
    requires t != [] && AllDigits(t)
    ensures p != [] && AllDigits(p)
    decreases width - |t|
  {
    if |t| >= width then t else Pad([48] + t, width)
  }

  /** The number a text of digits stands for. */
  function Value(t: Text): nat
    requires AllDigits(t)
  {
    if t == [] then 0 else 10 * Value(t[..|t| - 1]) + (t[|t| - 1] - 48)
  }

  lemma {:induction false} DigitsReadBack(n: nat)
    ensures Value(Digits(n)) == n
  {
    if n >= 10 {
      DigitsReadBack(n / 10);
      var t := Digits(n);
      assert t[..|t| - 1] == Digits(n / 10);
    } else {
      assert Digits(n)[..0] == [];
    }
  }

  /** No number but zero begins with a zero. */
  lemma {:induction false} DigitsLead(n: nat)
    ensures if n == 0 then Digits(n) == [48] else Digits(n)[0] != 48
  {
    if n >= 10 {
      DigitsLead(n / 10);
    }
  }

  /** Padding puts zeros in front up to the width, and no more. */
  lemma {:induction false} PadExactly(t: Text, width: nat)
    requires t != [] && AllDigits(t)
    ensures Pad(t, width) == seq(if |t| < width then width - |t| else 0, _ => 48) + t
    decreases width - |t|
  {
    if |t| < width {
      PadExactly([48] + t, width);
      var n: nat := width - |t| - 1;
      assert seq(n, _ => 48) + [48] == seq(n + 1, _ => 48);
      assert seq(n, _ => 48) + ([48] + t) == seq(n + 1, _ => 48) + t;
    } else {
      assert seq(0, _ => 48) + t == t;
    }
  }

  lemma {:induction false} ZeroInFront(t: Text)
    requires AllDigits(t)
    ensures Value([48] + t) == Value(t)
  {
    var u := [48] + t;
    if t == [] {
      assert u[..0] == [];
    } else {
      ZeroInFront(t[..|t| - 1]);
      assert u[..|u| - 1] == [48] + t[..|t| - 1];
    }
  }

  lemma {:induction false} PadReadsBack(t: Text, width: nat)
    requires t != [] && AllDigits(t)
    ensures Value(Pad(t, width)) == Value(t)
    decreases width - |t|
  {
    if |t| < width {
      ZeroInFront(t);
      PadReadsBack([48] + t, width);
    }
  }

  /** Padding leaves the number readable. */
  lemma PaddedReadsBack(n: nat, width: nat)
    ensures Value(Padded(n, width)) == n
  {
    DigitsReadBack(n);
    PadReadsBack(Digits(n), width);
  }

  lemma SignedFront(n: int)
    ensures var t := Signed(n);
            && t != [] && (t[0] == MINUS <==> n < 0)
            && (n < 0 ==> t[1..] == Digits(-n)) && (n >= 0 ==> t == Digits(n))
  {
  }

  lemma SignedIsInjective(a: int, b: int)
    requires Signed(a) == Signed(b)
    ensures a == b
  {
    SignedFront(a);
    SignedFront(b);
    DigitsReadBack(if a < 0 then -a else a);
    DigitsReadBack(if b < 0 then -b else b);
  }
}
