/** Exactly what a header line makes of the length of a message. */
module HeaderLine {
  import opened Wrappers
  import opened Text
  import opened Framing

  predicate Blank(s: string) {
    forall c :: c in s ==> c == ' ' || c == '\t' || c == '\n' || c == 11 as char || c == 12 as char || c == '\r'
  }

  /** `content-length` in any case */
  predicate NamesLength(name: string) {
    |name| == 14 && forall i :: 0 <= i < 14 ==> name[i] == "content-length"[i] || name[i] == "CONTENT-LENGTH"[i]
  }

  function Zeros(k: nat): string { if k == 0 then "" else "0" + Zeros(k - 1) }

  function Numeral(plus: bool, k: nat, n: nat): string { (if plus then "+" else "") + (Zeros(k) + Digits(n)) }

  /** A number between blanks, in decimal, with a plus sign and zeros in front of it or not */
  ghost predicate Spells(value: string, n: nat) {
    exists a, b, plus, k :: Blank(a) && Blank(b) && value == a + Numeral(plus, k, n) + b
  }

  // ----- blanks are trimmed

  lemma SpaceIs(c: char)
    ensures IsSpace(c) <==> Blank([c])
  {
    assert c in [c];
  }

  lemma BlankParts(a: string, b: string)
    ensures Blank(a + b) <==> Blank(a) && Blank(b)
  {
    if Blank(a + b) {
      assert forall c :: c in a || c in b ==> c in a + b;
    }
  }

  lemma {:induction false} TrimsBehind(s: string, b: string)
    requires Blank(b)
    ensures TrimEnd(s + b) == TrimEnd(s)
    decreases |b|
  {
    if b == "" {
      assert s + b == s;
    } else {
      var n := |b| - 1;
      assert b == b[..n] + [b[n]] && (s + b)[..|s| + n] == s + b[..n];
      BlankParts(b[..n], [b[n]]);
      SpaceIs(b[n]);
      TrimsBehind(s, b[..n]);
    }
  }

  lemma {:induction false} TrimsBefore(a: string, s: string)
    requires Blank(a)
    ensures TrimStart(a + s) == TrimStart(s)
    decreases |a|
  {
    if a == "" {
      assert a + s == s;
    } else {
      assert a == [a[0]] + a[1..] && (a + s)[1..] == a[1..] + s;
      BlankParts([a[0]], a[1..]);
      SpaceIs(a[0]);
      TrimsBefore(a[1..], s);
    }
  }

  lemma {:induction false} EndTrimmed(s: string) returns (b: string)
    ensures Blank(b) && s == TrimEnd(s) + b
    decreases |s|
  {
    b := "";
    if s != "" && IsSpace(s[|s| - 1]) {
      var n := |s| - 1;
      var rest := EndTrimmed(s[..n]);
      b := rest + [s[n]];
      SpaceIs(s[n]);
      BlankParts(rest, [s[n]]);
      assert s == s[..n] + [s[n]];
    }
  }

  lemma {:induction false} StartTrimmed(s: string) returns (a: string)
    ensures Blank(a) && s == a + TrimStart(s)
    decreases |s|
  {
    a := "";
    if s != "" && IsSpace(s[0]) {
      var rest := StartTrimmed(s[1..]);
      a := [s[0]] + rest;
      SpaceIs(s[0]);
      BlankParts([s[0]], rest);
      assert s == [s[0]] + s[1..];
    }
  }

  lemma {:induction false} TrimmedEnd(s: string)
    ensures TrimEnd(s) == "" || !IsSpace(TrimEnd(s)[|TrimEnd(s)| - 1])
    ensures |TrimEnd(s)| <= |s|
    decreases |s|
  {
    if s != "" && IsSpace(s[|s| - 1]) { TrimmedEnd(s[..|s| - 1]); }
  }

  // ----- numbers

  lemma {:induction false} ZerosRead(k: nat, s: string)
    requires forall c :: c in s ==> IsDigit(c)
    ensures (forall c :: c in Zeros(k) + s ==> IsDigit(c)) && ReadDigits(Zeros(k) + s, 0) == ReadDigits(s, 0)
  {
    if k == 0 {
      assert Zeros(0) + s == s;
    } else {
      ZerosRead(k - 1, s);
      assert Zeros(k) + s == "0" + (Zeros(k - 1) + s) && (Zeros(k) + s)[1..] == Zeros(k - 1) + s;
    }
  }

  lemma NumeralRead(plus: bool, k: nat, n: nat)
    ensures ParseLength(Numeral(plus, k, n)) == if n < USIZE then Some(n) else None
  {
    var digits, s := Zeros(k) + Digits(n), Numeral(plus, k, n);
    DigitsRead(n);
    ZerosRead(k, Digits(n));
    if plus {
      assert s[1..] == digits;
    } else {
      assert s == digits && digits[0] in digits;
    }
  }

  /** Digits without a zero in front are those of their number */
  lemma {:induction false} DigitsOf(s: string)
    requires s != "" && (forall c :: c in s ==> IsDigit(c)) && (|s| == 1 || s[0] != '0')
    ensures s == Digits(ReadDigits(s, 0))
    decreases |s|
  {
    var n := |s| - 1;
    var front := s[..n];
    assert s == front + [s[n]] && s[n] in s;
    ReadDigitsSnoc(front, s[n], 0);
    if n > 0 {
      DigitsOf(front);
      var m := ReadDigits(front, 0);
      assert m != 0 by { assert front[0] == s[0] != '0'; }
      assert (10 * m + DigitValue(s[n])) / 10 == m && (10 * m + DigitValue(s[n])) % 10 == DigitValue(s[n]);
    }
  }

  lemma {:induction false} ZerosOf(s: string) returns (k: nat)
    requires s != "" && forall c :: c in s ==> IsDigit(c)
    ensures s == Zeros(k) + Digits(ReadDigits(s, 0))
    decreases |s|
  {
    if |s| > 1 && s[0] == '0' {
      assert forall c :: c in s[1..] ==> c in s;
      var rest := ZerosOf(s[1..]);
      k := rest + 1;
      assert s == "0" + s[1..] && Zeros(k) == "0" + Zeros(rest);
    } else {
      k := 0;
      DigitsOf(s);
      assert Zeros(0) + s == s;
    }
  }

  lemma NumeralOf(s: string) returns (plus: bool, k: nat)
    requires ParseLength(s).Some?
    ensures s == Numeral(plus, k, ParseLength(s).value) && ParseLength(s).value < USIZE
  {
    plus := s[0] == '+';
    var digits := if plus then s[1..] else s;
    k := ZerosOf(digits);
  }

  // ----- the line

  lemma SameLetter(c: char, lower: char, upper: char)
    requires ('A' <= upper <= 'Z' && upper + 32 as char == lower) || lower == upper == '-'
    ensures LowerAscii(c) == LowerAscii(lower) <==> c == lower || c == upper
  {}

  lemma SameNameIs(name: string)
    ensures SameName(name, NAME) <==> NamesLength(name)
  {
    var lower, upper := "content-length", "CONTENT-LENGTH";
    if |name| == 14 {
      forall i | 0 <= i < 14
        ensures LowerAscii(name[i]) == LowerAscii(NAME[i]) <==> name[i] == lower[i] || name[i] == upper[i]
      {
        SameLetter(name[i], lower[i], upper[i]);
      }
    }
  }

  lemma {:induction false} HeaderIs(name: string, value: string, length: Option<nat>)
    requires ':' !in name
    ensures Header(length, TrimEnd(name + ":" + value + "\r\n"))
            == if NamesLength(name) then ParseLength(TrimStart(TrimEnd(value))) else length
  {
    var all := name + ":" + value;
    var b := EndTrimmed(value);
    var kept := name + ":" + TrimEnd(value);
    assert Blank("\r\n");
    TrimsBehind(all, "\r\n");
    assert all == kept + b;
    TrimsBehind(kept, b);
    TrimmedEnd(value);
    assert TrimEnd(kept) == kept;
    ColonIs(kept, |name|);
    assert kept[..|name|] == name && kept[|name| + 1..] == TrimEnd(value);
    SameNameIs(name);
    TrimsBehind(TrimEnd(value), "");
    assert TrimEnd(value) + "" == TrimEnd(value) && TrimEnd(TrimEnd(value)) == TrimEnd(value);
  }

  lemma {:induction false} ValueExactly(value: string, n: nat)
    ensures ParseLength(TrimStart(TrimEnd(value))) == Some(n) <==> n < 0x1_0000_0000_0000_0000 && Spells(value, n)
  {
    if ParseLength(TrimStart(TrimEnd(value))) == Some(n) {
      var b := EndTrimmed(value);
      var a := StartTrimmed(TrimEnd(value));
      var plus, k := NumeralOf(TrimStart(TrimEnd(value)));
      assert value == a + Numeral(plus, k, n) + b;
    }
    if n < USIZE && Spells(value, n) {
      var a, b, plus, k :| Blank(a) && Blank(b) && value == a + Numeral(plus, k, n) + b;
      var s := Numeral(plus, k, n);
      NumeralRead(plus, k, n);
      NumeralEnds(plus, k, n);
      TrimsBehind(a + s, b);
      assert TrimEnd(a + s) == a + s;
      TrimsBefore(a, s);
      assert TrimStart(s) == s;
    }
  }

  lemma NumeralEnds(plus: bool, k: nat, n: nat)
    ensures var s := Numeral(plus, k, n); s != "" && !IsSpace(s[0]) && !IsSpace(s[|s| - 1])
  {
    var s := Numeral(plus, k, n);
    DigitsRead(n);
    ZerosRead(k, Digits(n));
    assert s[|s| - 1] == Digits(n)[|Digits(n)| - 1] && s[|s| - 1] in Digits(n);
    if !plus { assert s == Zeros(k) + Digits(n) && s[0] in Zeros(k) + Digits(n); }
  }

  /** A header line whose name is content-length, in any case, gives the number it spells, if that fits a machine word,
      and none if it spells none; any other line leaves the length as it was */
  lemma {:induction false} LengthExactly(name: string, value: string, length: Option<nat>, n: nat)
    requires ':' !in name
    ensures var read := Header(length, TrimEnd(name + ":" + value + "\r\n"));
      if NamesLength(name) then read == Some(n) <==> n < 0x1_0000_0000_0000_0000 && Spells(value, n)
      else read == length
  {
    HeaderIs(name, value, length);
    ValueExactly(value, n);
  }
}
