/** Paths as git prints them: its C-style quoting undone, and the new path of a `diff --git` line. Text is
    taken byte by byte, each byte as the character with its code. */
module GitPath {
  import opened Wrappers

  predicate IsOctal(c: char) { '0' <= c <= '7' }

  function OctalValue(c: char): nat
    requires IsOctal(c)
  {
    (c - '0') as nat
  }

  /** The escapes other than octal ones: the letter, and the byte it stands for */
  function Escape(c: char): Option<char> {
    match c
    case 'a' => Some(7 as char)
    case 'b' => Some(8 as char)
    case 't' => Some(9 as char)
    case 'n' => Some(10 as char)
    case 'v' => Some(11 as char)
    case 'f' => Some(12 as char)
    case 'r' => Some(13 as char)
    case '"' => Some('"')
    case '\\' => Some('\\')
    case _ => None
  }

  // ----- reading

  /** How many of the leading characters, at most `max`, are octal digits */
  function OctalRun(s: string, max: nat): (n: nat)
    ensures n <= |s| && n <= max && forall i :: 0 <= i < n ==> IsOctal(s[i])
  {
    if max == 0 || s == "" || !IsOctal(s[0]) then 0 else 1 + OctalRun(s[1..], max - 1)
  }

  function ReadOctal(s: string, acc: nat): nat
    requires forall i :: 0 <= i < |s| ==> IsOctal(s[i])
  {
    if s == "" then acc else ReadOctal(s[1..], acc * 8 + OctalValue(s[0]))
  }

  function Unquote(quoted: string): string
    decreases |quoted|
  {
    if quoted == "" then ""
    else if quoted[0] != '\\' then [quoted[0]] + Unquote(quoted[1..])
    else if |quoted| == 1 then ""
    else if IsOctal(quoted[1]) then
      var n := OctalRun(quoted[1..], 3);
      [(ReadOctal(quoted[1..][..n], 0) % 256) as char] + Unquote(quoted[1 + n..])
    else [if Escape(quoted[1]).Some? then Escape(quoted[1]).value else quoted[1]] + Unquote(quoted[2..])
  }

  lemma {:induction false} ReadOctalSnoc(s: string, c: char, acc: nat)
    requires (forall i :: 0 <= i < |s| ==> IsOctal(s[i])) && IsOctal(c)
    ensures ReadOctal(s + [c], acc) == ReadOctal(s, acc) * 8 + OctalValue(c)
  {
    if s == "" {
      assert s + [c] == [c] && [c][1..] == "";
    } else {
      assert (s + [c])[1..] == s[1..] + [c];
      ReadOctalSnoc(s[1..], c, acc * 8 + OctalValue(s[0]));
    }
  }

  lemma {:induction false} OctalRunIs(s: string, n: nat, max: nat)
    requires n <= |s| && n <= max && forall i :: 0 <= i < n ==> IsOctal(s[i])
    requires n == max || n == |s| || !IsOctal(s[n])
    ensures OctalRun(s, max) == n
    decreases n
  {
    if n > 0 { OctalRunIs(s[1..], n - 1, max - 1); }
  }

  /** Up to three octal digits, the first of which is there */
  method TakeOctal(quoted: string, from: nat) returns (value: nat, i: nat)
    requires from < |quoted| && IsOctal(quoted[from])
    ensures from < i <= |quoted| && i - from == OctalRun(quoted[from..], 3)
    ensures value == ReadOctal(quoted[from..][..i - from], 0)
  {
    value, i := OctalValue(quoted[from]), from + 1;
    assert quoted[from..i] == "" + [quoted[from]];
    ReadOctalSnoc("", quoted[from], 0);
    while i < |quoted| && i < from + 3 && IsOctal(quoted[i])
      invariant from < i <= |quoted| && i <= from + 3
      invariant forall k :: from <= k < i ==> IsOctal(quoted[k])
      invariant value == ReadOctal(quoted[from..i], 0)
    {
      assert quoted[from..i + 1] == quoted[from..i] + [quoted[i]];
      ReadOctalSnoc(quoted[from..i], quoted[i], 0);
      value := value * 8 + OctalValue(quoted[i]);
      i := i + 1;
    }
    OctalRunIs(quoted[from..], i - from, 3);
    assert quoted[from..][..i - from] == quoted[from..i];
  }

  /** What the text from `i` on adds, after its escape is read */
  lemma UnquoteAt(quoted: string, i: nat)
    requires i < |quoted|
    ensures quoted[i] != '\\' ==> Unquote(quoted[i..]) == [quoted[i]] + Unquote(quoted[i + 1..])
    ensures quoted[i] == '\\' && i + 1 == |quoted| ==> Unquote(quoted[i..]) == ""
    ensures quoted[i] == '\\' && i + 1 < |quoted| && IsOctal(quoted[i + 1]) ==>
      var n := OctalRun(quoted[i + 1..], 3);
      Unquote(quoted[i..]) == [(ReadOctal(quoted[i + 1..][..n], 0) % 256) as char] + Unquote(quoted[i + 1 + n..])
    ensures quoted[i] == '\\' && i + 1 < |quoted| && !IsOctal(quoted[i + 1]) ==>
      Unquote(quoted[i..]) ==
      [if Escape(quoted[i + 1]).Some? then Escape(quoted[i + 1]).value else quoted[i + 1]] + Unquote(quoted[i + 2..])
  {
    var rest := quoted[i..];
    assert rest[1..] == quoted[i + 1..];
    if i + 1 < |quoted| {
      assert rest[2..] == quoted[i + 2..];
      var n := OctalRun(quoted[i + 1..], 3);
      assert rest[1 + n..] == quoted[i + 1 + n..];
    }
  }

  /** One character, or one escape with the octal digits it looks ahead for */
  method TakeOne(quoted: string, i: nat) returns (bytes: string, next: nat)
    requires i < |quoted|
    ensures i < next <= |quoted| && Unquote(quoted[i..]) == bytes + Unquote(quoted[next..])
  {
    UnquoteAt(quoted, i);
    if quoted[i] != '\\' {
      bytes, next := [quoted[i]], i + 1;
    } else if i + 1 == |quoted| {
      bytes, next := "", i + 1;
    } else if IsOctal(quoted[i + 1]) {
      var value, after := TakeOctal(quoted, i + 1);
      bytes, next := [(value % 256) as char], after;
    } else {
      var escape := Escape(quoted[i + 1]);
      bytes, next := [if escape.Some? then escape.value else quoted[i + 1]], i + 2;
    }
  }

  method UnquotePath(quoted: string) returns (bytes: string)
    ensures bytes == Unquote(quoted)
  {
    bytes := "";
    var i := 0;
    while i < |quoted|
      invariant i <= |quoted| && bytes + Unquote(quoted[i..]) == Unquote(quoted)
    {
      var more, next := TakeOne(quoted, i);
      assert bytes + (more + Unquote(quoted[next..])) == bytes + more + Unquote(quoted[next..]);
      bytes, i := bytes + more, next;
    }
  }

  // ----- git's quoting

  function Letter(b: char): Option<char> {
    if b == 7 as char then Some('a')
    else if b == 8 as char then Some('b')
    else if b == 9 as char then Some('t')
    else if b == 10 as char then Some('n')
    else if b == 11 as char then Some('v')
    else if b == 12 as char then Some('f')
    else if b == 13 as char then Some('r')
    else if b == '"' || b == '\\' then Some(b)
    else None
  }

  /** Control bytes are always quoted, bytes past ASCII unless core.quotePath is off (`raw`) */
  predicate Plain(b: char, raw: bool) {
    Letter(b).None? && ' ' <= b && b != 0x7f as char && (b < 0x80 as char || raw)
  }

  function OctalDigit(d: nat): char
    requires d < 8
  {
    '0' + d as char
  }

  function QuoteByte(b: char, raw: bool): string
    requires b < 256 as char
  {
    if Letter(b).Some? then ['\\', Letter(b).value]
    else if Plain(b, raw) then [b]
    else ['\\', OctalDigit(b as nat / 64), OctalDigit(b as nat / 8 % 8), OctalDigit(b as nat % 8)]
  }

  function Quote(path: string, raw: bool): string
    requires IsBytes(path)
  {
    if path == "" then "" else
    assert path[0] in path && IsBytes(path[1..]) by { assert forall c :: c in path[1..] ==> c in path; }
    QuoteByte(path[0], raw) + Quote(path[1..], raw)
  }

  lemma BytesTail(path: string)
    requires IsBytes(path) && path != ""
    ensures path[0] < 256 as char && IsBytes(path[1..])
  {
    assert path[0] in path && forall c :: c in path[1..] ==> c in path;
  }

  lemma OctalOf(n: nat)
    requires n < 256
    ensures ReadOctal([OctalDigit(n / 64), OctalDigit(n / 8 % 8), OctalDigit(n % 8)], 0) == n
  {
    var d := [OctalDigit(n / 64), OctalDigit(n / 8 % 8), OctalDigit(n % 8)];
    assert "" + [d[0]] + [d[1]] + [d[2]] == d;
    ReadOctalSnoc("", d[0], 0);
    ReadOctalSnoc("" + [d[0]], d[1], 0);
    ReadOctalSnoc("" + [d[0]] + [d[1]], d[2], 0);
    assert n / 64 == n / 8 / 8;
  }

  lemma {:induction false} UnquoteLetter(b: char, rest: string)
    requires Letter(b).Some?
    ensures Unquote(['\\', Letter(b).value] + rest) == [b] + Unquote(rest)
  {
    var q := ['\\', Letter(b).value] + rest;
    assert q[2..] == rest && q[1] == Letter(b).value && !IsOctal(q[1]);
    assert Escape(q[1]) == Some(b);
  }

  lemma {:induction false} UnquotePlain(b: char, rest: string)
    requires b != '\\'
    ensures Unquote([b] + rest) == [b] + Unquote(rest)
  {
    assert ([b] + rest)[1..] == rest;
  }

  lemma {:induction false} UnquoteByte(b: char, raw: bool, rest: string)
    requires b < 256 as char
    ensures Unquote(QuoteByte(b, raw) + rest) == [b] + Unquote(rest)
  {
    if Letter(b).Some? {
      UnquoteLetter(b, rest);
    } else if Plain(b, raw) {
      UnquotePlain(b, rest);
    } else {
      UnquoteOctal(b, QuoteByte(b, raw)[1..], rest);
      assert QuoteByte(b, raw) == ['\\'] + QuoteByte(b, raw)[1..];
    }
  }

  lemma {:induction false} UnquoteOctal(b: char, digits: string, rest: string)
    requires b < 256 as char
    requires digits == [OctalDigit(b as nat / 64), OctalDigit(b as nat / 8 % 8), OctalDigit(b as nat % 8)]
    ensures Unquote(['\\'] + digits + rest) == [b] + Unquote(rest)
  {
    var q := ['\\'] + digits + rest;
    assert q[1..] == digits + rest && q[4..] == rest;
    OctalRunIs(q[1..], 3, 3);
    assert q[1..][..3] == digits;
    OctalOf(b as nat);
  }

  function OctalText(digits: seq<nat>): (r: string)
    requires forall i :: 0 <= i < |digits| ==> digits[i] < 8
    ensures |r| == |digits| && forall i :: 0 <= i < |r| ==> r[i] == '0' + digits[i] as char
  {
    if digits == [] then "" else ['0' + digits[0] as char] + OctalText(digits[1..])
  }

  function OctalSum(digits: seq<nat>): nat
    requires 1 <= |digits| <= 3
  {
    if |digits| == 1 then digits[0] else if |digits| == 2 then digits[0] * 8 + digits[1]
    else digits[0] * 64 + digits[1] * 8 + digits[2]
  }

  lemma OctalStep(c: char, s: string, d: nat, acc: nat)
    requires d < 8 && c == '0' + d as char && forall i :: 0 <= i < |s| ==> IsOctal(s[i])
    ensures ReadOctal([c] + s, acc) == ReadOctal(s, acc * 8 + d)
  {
    assert ([c] + s)[1..] == s;
  }

  lemma {:induction false} OctalSums(digits: seq<nat>, text: string)
    requires 1 <= |digits| <= 3 && (forall i :: 0 <= i < |digits| ==> digits[i] < 8) && |text| == |digits|
    requires forall i :: 0 <= i < |text| ==> text[i] == '0' + digits[i] as char
    ensures ReadOctal(text, 0) == OctalSum(digits)
  {
    var n, d := |digits|, digits[0];
    assert text == [text[0]] + text[1..];
    OctalStep(text[0], text[1..], d, 0);
    if n > 1 {
      assert text[1..] == [text[1]] + text[2..];
      OctalStep(text[1], text[2..], digits[1], d);
      if n > 2 {
        assert text[2..] == [text[2]] + text[3..];
        OctalStep(text[2], text[3..], digits[2], d * 8 + digits[1]);
      }
    }
  }

  /** A backslash and one to three octal digits, of which a fourth is no part, read as one byte */
  lemma {:induction false} OctalRead(digits: seq<nat>, text: string, rest: string)
    requires 1 <= |digits| <= 3 && (forall i :: 0 <= i < |digits| ==> digits[i] < 8) && text == OctalText(digits)
    requires |digits| < 3 && rest != "" ==> rest[0] < '0' || rest[0] > '7'
    ensures Unquote("\\" + text + rest) == [(OctalSum(digits) % 256) as char] + Unquote(rest)
  {
    var quoted := "\\" + text + rest;
    assert quoted[1..] == text + rest && quoted[1..][..|digits|] == text && quoted[1 + |digits|..] == rest;
    OctalRunIs(quoted[1..], |digits|, 3);
    assert quoted[1] == text[0] && IsOctal(quoted[1]);
    OctalSums(digits, text);
  }

  /** Any other character behind a backslash stands for itself, and a backslash at the very end for nothing */
  lemma {:induction false} OtherEscapeRead(c: char, rest: string)
    requires c !in "abtnvfr" && (c < '0' || c > '7')
    ensures Unquote("\\" + [c] + rest) == [c] + Unquote(rest) && Unquote("\\") == ""
  {
    var quoted := "\\" + [c] + rest;
    assert quoted[2..] == rest;
  }

  /** Reading undoes git's quoting, of every byte string and whether or not it leaves bytes past ASCII alone */
  lemma {:induction false} UnquoteUndoesQuote(path: string, raw: bool)
    requires IsBytes(path)
    ensures Unquote(Quote(path, raw)) == path
  {
    if path != "" {
      BytesTail(path);
      UnquoteByte(path[0], raw, Quote(path[1..], raw));
      UnquoteUndoesQuote(path[1..], raw);
    }
  }

  // ----- the closing quote

  /** The inside of a quoted string: plain characters and escaped pairs */
  predicate WellQuoted(inner: string)
    decreases |inner|
  {
    inner == ""
    || (inner[0] != '\\' && inner[0] != '"' && WellQuoted(inner[1..]))
    || (inner[0] == '\\' && |inner| >= 2 && WellQuoted(inner[2..]))
  }

  /** The scan with its flag, from a given point on */
  predicate ScansTo(inner: string, escaped: bool)
    decreases |inner|
  {
    if inner == "" then !escaped
    else if escaped then ScansTo(inner[1..], false)
    else inner[0] != '"' && ScansTo(inner[1..], inner[0] == '\\')
  }

  lemma {:induction false} ScanIsWellQuoted(inner: string)
    ensures ScansTo(inner, false) <==> WellQuoted(inner)
    decreases |inner|
  {
    if inner != "" && inner[0] == '\\' {
      if |inner| >= 2 {
        assert inner[1..][1..] == inner[2..];
        ScanIsWellQuoted(inner[2..]);
      }
    } else if inner != "" {
      ScanIsWellQuoted(inner[1..]);
    }
  }

  function QuotedToEnd(text: string): Option<nat> {
    if text != "" && text[|text| - 1] == '"' && WellQuoted(text[..|text| - 1]) then Some(|text| - 1) else None
  }

  method FindClosingQuote(text: string) returns (r: Option<nat>)
    ensures r == QuotedToEnd(text)
  {
    if text == "" || text[|text| - 1] != '"' { return None; }
    var inner := text[..|text| - 1];
    var escaped := false;
    ScanIsWellQuoted(inner);
    for i := 0 to |inner|
      invariant ScansTo(inner, false) == ScansTo(inner[i..], escaped)
    {
      assert inner[i..][1..] == inner[i + 1..];
      if escaped {
        escaped := false;
      } else if inner[i] == '\\' {
        escaped := true;
      } else if inner[i] == '"' {
        return None;
      }
    }
    assert inner[|inner|..] == "";
    r := if escaped then None else Some(|inner|);
  }

  lemma {:induction false} QuoteIsWellQuoted(path: string, raw: bool)
    requires IsBytes(path)
    ensures WellQuoted(Quote(path, raw))
    ensures forall k :: 0 <= k < |Quote(path, raw)| && Quote(path, raw)[k] == '"' ==>
            k > 0 && Quote(path, raw)[k - 1] == '\\'
  {
    if path != "" {
      BytesTail(path);
      QuoteIsWellQuoted(path[1..], raw);
      QuoteByteWell(path[0], raw, Quote(path[1..], raw));
    }
  }

  lemma {:induction false} QuoteByteWell(b: char, raw: bool, rest: string)
    requires b < 256 as char && WellQuoted(rest)
    requires forall k :: 0 <= k < |rest| && rest[k] == '"' ==> k > 0 && rest[k - 1] == '\\'
    ensures WellQuoted(QuoteByte(b, raw) + rest)
    ensures var q := QuoteByte(b, raw) + rest; forall k :: 0 <= k < |q| && q[k] == '"' ==> k > 0 && q[k - 1] == '\\'
  {
    var head := QuoteByte(b, raw);
    var q := head + rest;
    if |head| == 1 {
      assert q[1..] == rest;
    } else if |head| == 2 {
      assert q[2..] == rest;
    } else {
      assert q[2..][1..] == q[3..] && q[3..][1..] == rest;
    }
  }
}
