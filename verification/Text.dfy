/** Decimal numbers and control sequence parameters as text. */
module Text {
  function Digit(d: nat): char
    requires d < 10
  {
    '0' + d as char
  }

  predicate IsDigit(c: char) { '0' <= c <= '9' }

  function DigitValue(c: char): nat
    requires IsDigit(c)
  {
    (c - '0') as nat
  }

  function Digits(n: nat): string {
    if n < 10 then [Digit(n)] else Digits(n / 10) + [Digit(n % 10)]
  }

  /** Digits read onto what was read before them, most significant first */
  function ReadDigits(s: string, acc: nat): nat
    requires forall c :: c in s ==> IsDigit(c)
  {
    if s == [] then acc else ReadDigits(s[1..], 10 * acc + DigitValue(s[0]))
  }

  lemma {:induction false} ReadDigitsSnoc(s: string, c: char, acc: nat)
    requires forall x :: x in s + [c] ==> IsDigit(x)
    ensures (forall x :: x in s ==> IsDigit(x)) && ReadDigits(s + [c], acc) == 10 * ReadDigits(s, acc) + DigitValue(c)
    decreases |s|
  {
    forall x | x in s ensures IsDigit(x) { assert x in s + [c]; }
    if s == [] {
      assert s + [c] == [c] && [c][1..] == [];
    } else {
      assert (s + [c])[1..] == s[1..] + [c];
      ReadDigitsSnoc(s[1..], c, 10 * acc + DigitValue(s[0]));
    }
  }

  lemma {:induction false} DigitsRead(n: nat)
    ensures Digits(n) != [] && (forall c :: c in Digits(n) ==> IsDigit(c))
    ensures ReadDigits(Digits(n), 0) == n
  {
    if n >= 10 {
      DigitsRead(n / 10);
      ReadDigitsSnoc(Digits(n / 10), Digit(n % 10), 0);
    } else {
      assert Digits(n)[1..] == [];
    }
  }
}
