/** Language server messages on a byte stream: header lines, an empty line, and a body of the length the
    headers name (Language Server Protocol 3.17, Base Protocol). Bytes are characters with their codes;
    which lines are legible UTF-8 is a parameter. */
module Framing {
  import opened Wrappers
  import opened Text

  const USIZE: nat := 0x1_0000_0000_0000_0000
  const NAME := "content-length"

  type Legible = string -> bool

  // ----- one header line

  predicate IsSpace(c: char) { c == ' ' || 9 as char <= c <= 13 as char }

  function TrimEnd(s: string): string {
    if s != "" && IsSpace(s[|s| - 1]) then TrimEnd(s[..|s| - 1]) else s
  }

  function TrimStart(s: string): string {
    if s != "" && IsSpace(s[0]) then TrimStart(s[1..]) else s
  }

  predicate AllDigits(s: string) { forall c :: c in s ==> IsDigit(c) }

  /** An unsigned machine word: digits behind an optional plus sign */
  function ParseLength(s: string): Option<nat> {
    var digits := if s != "" && s[0] == '+' then s[1..] else s;
    if digits != "" && AllDigits(digits) && ReadDigits(digits, 0) < USIZE then Some(ReadDigits(digits, 0)) else None
  }

  function LowerAscii(c: char): char { if 'A' <= c <= 'Z' then c + 32 as char else c }

  predicate SameName(a: string, b: string) {
    |a| == |b| && forall i :: 0 <= i < |a| ==> LowerAscii(a[i]) == LowerAscii(b[i])
  }

  function Colon(s: string): (n: nat)
    ensures n <= |s| && (n < |s| ==> s[n] == ':') && forall i :: 0 <= i < n ==> s[i] != ':'
  {
    if s == "" || s[0] == ':' then 0 else 1 + Colon(s[1..])
  }

  /** What a header line makes of the length so far; one that names the length badly takes it back */
  function Header(length: Option<nat>, header: string): Option<nat> {
    var i := Colon(header);
    if i < |header| && SameName(header[..i], NAME) then ParseLength(TrimStart(TrimEnd(header[i + 1..]))) else length
  }

  // ----- the reader

  function LineEnd(s: string): (n: nat)
    ensures n <= |s| && (s != "" ==> n > 0) && forall i :: 0 <= i < n - 1 ==> s[i] != '\n'
    ensures n < |s| ==> s[n - 1] == '\n'
  {
    if s == "" then 0 else if s[0] == '\n' then 1 else 1 + LineEnd(s[1..])
  }

  datatype Block = Ended | Block(length: Option<nat>, rest: string)

  function ReadHeaders(ok: Legible, stream: string, length: Option<nat>): (b: Block)
    ensures b.Block? ==> |b.rest| < |stream|
    decreases |stream|
  {
    if stream == "" then Ended else
    var n := LineEnd(stream);
    var header := TrimEnd(stream[..n]);
    if !ok(stream[..n]) then Ended
    else if header == "" then Block(length, stream[n..])
    else ReadHeaders(ok, stream[n..], Header(length, header))
  }

  /** Whether the receiver takes the body with this number */
  type Taker = (nat, string) -> bool

  datatype Outcome = Outcome(sent: seq<string>, refused: bool)

  function Read(ok: Legible, takes: Taker, stream: string, k: nat): Outcome
    decreases |stream|
  {
    match ReadHeaders(ok, stream, None)
    case Ended => Outcome([], false)
    case Block(None, rest) => Read(ok, takes, rest, k)
    case Block(Some(n), rest) =>
      if n > |rest| then Outcome([], false)
      else if !takes(k, rest[..n]) then Outcome([rest[..n]], true)
      else var tail := Read(ok, takes, rest[n..], k + 1); Outcome([rest[..n]] + tail.sent, tail.refused)
  }

  method ReadLine(stream: string) returns (line: string, rest: string)
    ensures line == stream[..LineEnd(stream)] && rest == stream[LineEnd(stream)..]
  {
    var n := 0;
    while n < |stream| && (n == 0 || stream[n - 1] != '\n')
      invariant n <= |stream| && n <= LineEnd(stream)
      invariant n == |stream| || (n > 0 && stream[n - 1] == '\n') ==> n == LineEnd(stream)
      decreases |stream| - n
    {
      n := n + 1;
      if stream[n - 1] == '\n' { LineEndIs(stream, n); }
    }
    return stream[..n], stream[n..];
  }

  lemma {:induction false} LineEndIs(s: string, n: nat)
    requires 0 < n <= LineEnd(s) && s[n - 1] == '\n'
    ensures n == LineEnd(s)
  {}

  /** Reads header lines up to the empty one that ends them */
  method ReadBlock(ok: Legible, input: string) returns (b: Block)
    ensures b == ReadHeaders(ok, input, None)
  {
    var stream, length: Option<nat> := input, None;
    while true
      invariant ReadHeaders(ok, stream, length) == ReadHeaders(ok, input, None)
      decreases |stream|
    {
      var line, rest := ReadLine(stream);
      if line == "" || !ok(line) { return Ended; }
      stream := rest;
      var header := TrimEnd(line);
      if header == "" { return Block(length, stream); }
      length := Header(length, header);
    }
  }

  /** Hands each framed body to the receiver until the stream ends (false) or the receiver refuses one (true) */
  method ReadMessages(ok: Legible, takes: Taker, input: string) returns (sent: seq<string>, refused: bool)
    ensures Outcome(sent, refused) == Read(ok, takes, input, 0)
  {
    sent := [];
    var stream := input;
    while true
      invariant var r := Read(ok, takes, stream, |sent|); Read(ok, takes, input, 0) == Outcome(sent + r.sent, r.refused)
      decreases |stream|
    {
      var block := ReadBlock(ok, stream);
      if block.Ended? { return sent, false; }
      stream := block.rest;
      if block.length.None? { continue; }
      var n := block.length.value;
      if n > |stream| { return sent, false; }
      var body := stream[..n];
      if !takes(|sent|, body) { return sent + [body], true; }
      assert forall tail: seq<string> :: sent + ([body] + tail) == sent + [body] + tail;
      sent, stream := sent + [body], stream[n..];
    }
  }

  // ----- messages as they are written

  function Frame(body: string): string { FIELD + Digits(|body|) + "\r\n\r\n" + body }

  /** A message with any header lines of which the length is the last word */
  datatype Message = Message(headers: seq<string>, body: string)

  function HeaderText(headers: seq<string>): string {
    if headers == [] then "" else headers[0] + "\r\n" + HeaderText(headers[1..])
  }

  function MessageText(m: Message): string { HeaderText(m.headers) + "\r\n" + m.body }

  function Folded(length: Option<nat>, headers: seq<string>): Option<nat>
    decreases |headers|
  {
    if headers == [] then length else Folded(Header(length, TrimEnd(headers[0] + "\r\n")), headers[1..])
  }

  predicate GoodLine(ok: Legible, line: string) {
    '\n' !in line && ok(line + "\r\n") && TrimEnd(line + "\r\n") != ""
  }

  predicate WellFramed(ok: Legible, m: Message) {
    && (forall i :: 0 <= i < |m.headers| ==> GoodLine(ok, m.headers[i]))
    && Folded(None, m.headers) == Some(|m.body|)
  }

  predicate AllFramed(ok: Legible, ms: seq<Message>) { forall i :: 0 <= i < |ms| ==> WellFramed(ok, ms[i]) }

  function AllText(ms: seq<Message>): string {
    if ms == [] then "" else MessageText(ms[0]) + AllText(ms[1..])
  }

  function Bodies(ms: seq<Message>): seq<string> {
    if ms == [] then [] else [ms[0].body] + Bodies(ms[1..])
  }

  // ----- one header block is read back

  lemma {:induction false} LineEndOf(line: string, rest: string)
    requires '\n' !in line
    ensures LineEnd(line + "\r\n" + rest) == |line| + 2
  {
    var s := line + "\r\n" + rest;
    assert forall i :: 0 <= i < |line| ==> s[i] == line[i];
    assert s[|line|] == '\r' && s[|line| + 1] == '\n';
    assert LineEnd(s) >= |line| + 2 by { assert s != "" && |s| >= |line| + 2; }
    LineEndIs(s, |line| + 2);
  }

  lemma {:induction false} LineStep(ok: Legible, line: string, rest: string, length: Option<nat>)
    requires GoodLine(ok, line)
    ensures ReadHeaders(ok, line + "\r\n" + rest, length)
            == ReadHeaders(ok, rest, Header(length, TrimEnd(line + "\r\n")))
  {
    var s := line + "\r\n" + rest;
    LineEndOf(line, rest);
    assert s[..|line| + 2] == line + "\r\n" && s[|line| + 2..] == rest;
  }

  lemma {:induction false} BlankStep(ok: Legible, rest: string, length: Option<nat>)
    requires ok("\r\n")
    ensures ReadHeaders(ok, "\r\n" + rest, length) == Block(length, rest)
  {
    var s := "\r\n" + rest;
    LineEndOf("", rest);
    assert "" + "\r\n" + rest == s && s[..2] == "\r\n" && s[2..] == rest;
    assert "\r\n"[..1] == "\r" && TrimEnd("\r") == "";
  }

  lemma {:induction false} BlockIs(ok: Legible, headers: seq<string>, rest: string, length: Option<nat>)
    requires ok("\r\n") && forall i :: 0 <= i < |headers| ==> GoodLine(ok, headers[i])
    ensures ReadHeaders(ok, HeaderText(headers) + "\r\n" + rest, length) == Block(Folded(length, headers), rest)
    decreases |headers|
  {
    if headers == [] {
      BlankStep(ok, rest, length);
      assert "" + "\r\n" + rest == "\r\n" + rest;
    } else {
      var behind := HeaderText(headers[1..]) + "\r\n" + rest;
      assert HeaderText(headers) + "\r\n" + rest == headers[0] + "\r\n" + behind;
      LineStep(ok, headers[0], behind, length);
      BlockIs(ok, headers[1..], rest, Header(length, TrimEnd(headers[0] + "\r\n")));
    }
  }

  // ----- whole streams

  ghost predicate Willing(takes: Taker) { forall k: nat, body :: takes(k, body) }

  function Before(body: string, tail: Outcome): Outcome { Outcome([body] + tail.sent, tail.refused) }

  function AllBefore(bodies: seq<string>, tail: Outcome): Outcome { Outcome(bodies + tail.sent, tail.refused) }

  lemma {:induction false} OneMessage(ok: Legible, takes: Taker, m: Message, rest: string, k: nat)
    requires ok("\r\n") && WellFramed(ok, m) && Willing(takes)
    ensures Read(ok, takes, MessageText(m) + rest, k) == Before(m.body, Read(ok, takes, rest, k + 1))
  {
    var behind := m.body + rest;
    assert MessageText(m) + rest == HeaderText(m.headers) + "\r\n" + behind;
    BlockIs(ok, m.headers, behind, None);
    assert behind[..|m.body|] == m.body && behind[|m.body|..] == rest;
  }

  lemma {:induction false} TextSplits(ms: seq<Message>, rest: string)
    requires ms != []
    ensures AllText(ms) + rest == MessageText(ms[0]) + (AllText(ms[1..]) + rest)
  {}

  lemma ReadMore(ok: Legible, takes: Taker, ms: seq<Message>, rest: string, k: nat, r: Outcome)
    requires ms != [] && ok("\r\n") && WellFramed(ok, ms[0]) && Willing(takes)
    requires Read(ok, takes, AllText(ms[1..]) + rest, k + 1) == r
    ensures Read(ok, takes, AllText(ms) + rest, k) == Before(ms[0].body, r)
  {
    TextSplits(ms, rest);
    OneMessage(ok, takes, ms[0], AllText(ms[1..]) + rest, k);
  }

  lemma {:induction false} BeforeAll(ms: seq<Message>, tail: Outcome)
    requires ms != []
    ensures Before(ms[0].body, AllBefore(Bodies(ms[1..]), tail)) == AllBefore(Bodies(ms), tail)
  {
    Assoc([ms[0].body], Bodies(ms[1..]), tail.sent);
  }

  lemma {:induction false} ReadNone(ok: Legible, takes: Taker, ms: seq<Message>, rest: string, k: nat)
    requires ms == []
    ensures Read(ok, takes, AllText(ms) + rest, k) == AllBefore(Bodies(ms), Read(ok, takes, rest, k))
  {
    assert AllText(ms) + rest == rest;
    assert Bodies(ms) + Read(ok, takes, rest, k).sent == Read(ok, takes, rest, k).sent;
  }

  lemma ReadAllMore(ok: Legible, takes: Taker, ms: seq<Message>, rest: string, k: nat, tail: Outcome)
    requires ms != [] && ok("\r\n") && WellFramed(ok, ms[0]) && Willing(takes)
    requires Read(ok, takes, AllText(ms[1..]) + rest, k + 1) == AllBefore(Bodies(ms[1..]), tail)
    ensures Read(ok, takes, AllText(ms) + rest, k) == AllBefore(Bodies(ms), tail)
  {
    ReadMore(ok, takes, ms, rest, k, AllBefore(Bodies(ms[1..]), tail));
    BeforeAll(ms, tail);
  }

  /** Framed messages are delivered whole and in order, whatever their bodies hold and whatever follows them; `last` is
      the number of the next one */
  lemma {:induction false} ReadUndoesFraming(ok: Legible, takes: Taker, ms: seq<Message>, rest: string, k: nat,
                                             last: nat)
    requires ok("\r\n") && AllFramed(ok, ms) && Willing(takes) && last == k + |ms|
    ensures Read(ok, takes, AllText(ms) + rest, k) == AllBefore(Bodies(ms), Read(ok, takes, rest, last))
    decreases |ms|
  {
    if ms == [] {
      ReadNone(ok, takes, ms, rest, k);
    } else {
      assert WellFramed(ok, ms[0]);
      ReadUndoesFraming(ok, takes, ms[1..], rest, k + 1, last);
      ReadAllMore(ok, takes, ms, rest, k, Read(ok, takes, rest, last));
    }
  }

  // ----- a stream that is cut

  /** Header lines that start with their name, so that no part of one looks empty */
  predicate Named(headers: seq<string>) {
    forall i :: 0 <= i < |headers| ==> headers[i] != "" && !IsSpace(headers[i][0])
  }

  lemma {:induction false} TrimKeepsFirst(s: string)
    requires s != "" && !IsSpace(s[0])
    ensures TrimEnd(s) != ""
    decreases |s|
  {
    if |s| > 1 && IsSpace(s[|s| - 1]) { TrimKeepsFirst(s[..|s| - 1]); }
  }

  /** A last line without its newline leaves nothing behind it */
  lemma {:induction false} CutLine(ok: Legible, line: string, length: Option<nat>)
    requires line != "" && '\n' !in line
    ensures ReadHeaders(ok, line, length) == if ok(line) && TrimEnd(line) == "" then Block(length, "") else Ended
  {
    assert LineEnd(line) == |line|;
    assert line[..|line|] == line && line[|line|..] == "";
  }

  /** The headers of a cut block do not end, unless all that is missing is the newline of the empty line */
  lemma {:induction false} CutHeaders(ok: Legible, headers: seq<string>, n: nat, length: Option<nat>)
    requires n < |HeaderText(headers)| + 2 && Named(headers)
    requires forall i :: 0 <= i < |headers| ==> GoodLine(ok, headers[i])
    ensures var b := ReadHeaders(ok, (HeaderText(headers) + "\r\n")[..n], length);
      b == Ended || b == Block(Folded(length, headers), "")
    decreases |headers|
  {
    var text := HeaderText(headers) + "\r\n";
    if headers == [] {
      assert text == "\r\n" && (n == 0 || text[..n] == "\r");
      if n > 0 { CutLine(ok, text[..n], length); }
    } else {
      var line, rest := headers[0], HeaderText(headers[1..]) + "\r\n";
      assert text == line + "\r\n" + rest;
      if n >= |line| + 2 {
        var m := n - |line| - 2;
        assert text[..n] == line + "\r\n" + rest[..m];
        LineStep(ok, line, rest[..m], length);
        CutHeaders(ok, headers[1..], m, Header(length, TrimEnd(line + "\r\n")));
      } else if n > 0 {
        CutInLine(ok, line, rest, n, length);
      }
    }
  }

  lemma {:induction false} CutInLine(ok: Legible, line: string, rest: string, n: nat, length: Option<nat>)
    requires 0 < n < |line| + 2 && '\n' !in line && line != "" && !IsSpace(line[0])
    ensures ReadHeaders(ok, (line + "\r\n" + rest)[..n], length) == Ended
  {
    var cut := (line + "\r\n" + rest)[..n];
    assert cut == (line + "\r")[..n] && cut[0] == line[0];
    CutLine(ok, cut, length);
    TrimKeepsFirst(cut);
  }

  lemma {:induction false} CutMessage(ok: Legible, takes: Taker, m: Message, n: nat, k: nat)
    requires ok("\r\n") && WellFramed(ok, m) && Named(m.headers) && Willing(takes) && n < |MessageText(m)|
    ensures var r := Read(ok, takes, MessageText(m)[..n], k); r == Outcome([], false) || r == Outcome([m.body], false)
  {
    var text, head := MessageText(m), HeaderText(m.headers) + "\r\n";
    if n < |head| {
      assert text[..n] == head[..n];
      CutHeaders(ok, m.headers, n, None);
      assert m.body != "" || m.body == ""[..0];
      assert Read(ok, takes, "", k + 1) == Outcome([], false);
    } else {
      assert text[..n] == head + m.body[..n - |head|];
      BlockIs(ok, m.headers, m.body[..n - |head|], None);
    }
  }

  lemma {:induction false} CutBehind(ms: seq<Message>, n: nat)
    requires ms != [] && |MessageText(ms[0])| <= n <= |AllText(ms)|
    ensures var m := n - |MessageText(ms[0])|;
      m <= |AllText(ms[1..])| && AllText(ms)[..n] == MessageText(ms[0]) + AllText(ms[1..])[..m]
  {}

  /** What may come of the first `n` bytes of messages: whole bodies in order, among them every message that is
      whole in those bytes */
  ghost predicate Partial(ms: seq<Message>, n: nat, r: Outcome) {
    !r.refused && r.sent <= Bodies(ms) && forall j: nat :: j <= |ms| && |AllText(ms[..j])| <= n ==> j <= |r.sent|
  }

  lemma PartialMore(ms: seq<Message>, n: nat, tail: Outcome)
    requires ms != [] && |MessageText(ms[0])| <= n && Partial(ms[1..], n - |MessageText(ms[0])|, tail)
    ensures Partial(ms, n, Before(ms[0].body, tail))
  {
    forall j: nat | j <= |ms| && |AllText(ms[..j])| <= n ensures j <= |tail.sent| + 1 {
      if j > 0 { assert ms[..j][1..] == ms[1..][..j - 1]; }
    }
  }

  lemma PartialFirst(ms: seq<Message>, n: nat, r: Outcome)
    requires ms != [] && n < |MessageText(ms[0])| && (r == Outcome([], false) || r == Outcome([ms[0].body], false))
    ensures Partial(ms, n, r)
  {
    forall j: nat | 0 < j <= |ms| ensures |AllText(ms[..j])| >= |MessageText(ms[0])| {
      assert ms[..j][0] == ms[0];
    }
  }

  lemma {:induction false} CutInFirst(ok: Legible, takes: Taker, ms: seq<Message>, n: nat, k: nat)
    requires ms != [] && ok("\r\n") && WellFramed(ok, ms[0]) && Named(ms[0].headers) && Willing(takes)
    requires n < |MessageText(ms[0])|
    ensures n <= |AllText(ms)| && Partial(ms, n, Read(ok, takes, AllText(ms)[..n], k))
  {
    assert AllText(ms)[..n] == MessageText(ms[0])[..n];
    CutMessage(ok, takes, ms[0], n, k);
    PartialFirst(ms, n, Read(ok, takes, AllText(ms)[..n], k));
  }

  lemma {:induction false} CutLater(ok: Legible, takes: Taker, ms: seq<Message>, n: nat, k: nat, m: nat, tail: Outcome)
    requires ms != [] && ok("\r\n") && WellFramed(ok, ms[0]) && Willing(takes)
    requires n == |MessageText(ms[0])| + m && m <= |AllText(ms[1..])|
    requires Read(ok, takes, AllText(ms[1..])[..m], k + 1) == tail && Partial(ms[1..], m, tail)
    ensures n <= |AllText(ms)| && Partial(ms, n, Read(ok, takes, AllText(ms)[..n], k))
  {
    CutBehind(ms, n);
    OneMessage(ok, takes, ms[0], AllText(ms[1..])[..m], k);
    PartialMore(ms, n, tail);
  }

  predicate AllNamed(ms: seq<Message>) { forall i :: 0 <= i < |ms| ==> Named(ms[i].headers) }

  /** A stream cut anywhere delivers only whole bodies, in order, and every message that is whole in it */
  lemma {:induction false} CutDeliversAPrefix(ok: Legible, takes: Taker, ms: seq<Message>, n: nat, k: nat)
    requires ok("\r\n") && AllFramed(ok, ms) && AllNamed(ms) && Willing(takes) && n <= |AllText(ms)|
    ensures Partial(ms, n, Read(ok, takes, AllText(ms)[..n], k))
    decreases |ms|
  {
    if ms == [] {
      assert Read(ok, takes, "", k) == Outcome([], false);
    } else {
      assert WellFramed(ok, ms[0]) && Named(ms[0].headers);
      if n < |MessageText(ms[0])| {
        CutInFirst(ok, takes, ms, n, k);
      } else {
        var m := n - |MessageText(ms[0])|;
        CutDeliversAPrefix(ok, takes, ms[1..], m, k + 1);
        CutLater(ok, takes, ms, n, k, m, Read(ok, takes, AllText(ms[1..])[..m], k + 1));
      }
    }
  }

  // ----- a receiver that refuses

  /** The number of the first body that is refused, or how many there are */
  function FirstRefused(takes: Taker, bodies: seq<string>, k: nat): (i: nat)
    ensures i <= |bodies| && forall j: nat :: j < i ==> takes(k + j, bodies[j])
    ensures i < |bodies| ==> !takes(k + i, bodies[i])
  {
    if bodies == [] || !takes(k, bodies[0]) then 0
    else
      var i := FirstRefused(takes, bodies[1..], k + 1);
      assert forall j: nat :: 0 < j < i + 1 ==>
        bodies[j] == bodies[1..][j - 1] && takes(k + 1 + (j - 1), bodies[1..][j - 1]);
      i + 1
  }

  function UpToRefusal(takes: Taker, all: seq<string>, k: nat): Outcome {
    var i := FirstRefused(takes, all, k);
    if i < |all| then Outcome(all[..i + 1], true) else Outcome(all, false)
  }

  lemma TakenFirst(takes: Taker, body: string, all: seq<string>, k: nat)
    ensures UpToRefusal(takes, [body] + all, k) ==
      if takes(k, body) then Before(body, UpToRefusal(takes, all, k + 1)) else Outcome([body], true)
  {
    assert ([body] + all)[1..] == all;
    var i := FirstRefused(takes, all, k + 1);
    if i < |all| { assert ([body] + all)[..i + 2] == [body] + all[..i + 1]; }
  }

  /** Over any stream at all: a receiver is handed what a willing one is, up to and with the first it refuses */
  lemma {:induction false} RefusalStops(ok: Legible, takes: Taker, willing: Taker, stream: string, k: nat)
    requires Willing(willing)
    ensures Read(ok, takes, stream, k) == UpToRefusal(takes, Read(ok, willing, stream, k).sent, k)
    decreases |stream|
  {
    match ReadHeaders(ok, stream, None)
    case Ended =>
    case Block(None, rest) => RefusalStops(ok, takes, willing, rest, k);
    case Block(Some(n), rest) =>
      if n <= |rest| {
        RefusalStops(ok, takes, willing, rest[n..], k + 1);
        TakenFirst(takes, rest[..n], Read(ok, willing, rest[n..], k + 1).sent, k);
      }
  }

  // ----- the frames this program writes

  predicate Ascii(s: string) { forall c :: c in s ==> c < 128 as char }

  ghost predicate Sound(ok: Legible) { forall s :: Ascii(s) ==> ok(s) }

  const FIELD := "Content-Length: "

  function LengthLine(n: nat): string { FIELD + Digits(n) }

  lemma {:induction false} ColonIs(s: string, n: nat)
    requires n < |s| && s[n] == ':' && forall i :: 0 <= i < n ==> s[i] != ':'
    ensures Colon(s) == n
  {
    if n > 0 { ColonIs(s[1..], n - 1); }
  }

  lemma {:induction false} TrimsLineEnd(line: string)
    requires line != "" && !IsSpace(line[|line| - 1])
    ensures TrimEnd(line + "\r\n") == line
  {
    var s, cr := line + "\r\n", line + "\r";
    assert s[..|s| - 1] == cr && cr[..|cr| - 1] == line;
    assert TrimEnd(cr) == line;
  }

  /** Digits behind a space are what is left of a value */
  lemma {:induction false} ValueIsRead(n: nat)
    requires n < USIZE
    ensures ParseLength(TrimStart(TrimEnd(" " + Digits(n)))) == Some(n)
  {
    var d := Digits(n);
    DigitsRead(n);
    assert d[0] in d && d[|d| - 1] in d;
    assert TrimEnd(" " + d) == " " + d && (" " + d)[1..] == d;
    assert TrimStart(d) == d;
  }

  lemma LengthIsRead(n: nat, length: Option<nat>)
    requires n < USIZE
    ensures Header(length, LengthLine(n)) == Some(n)
  {
    var line := LengthLine(n);
    assert |FIELD| == 16 && FIELD[14] == ':';
    ColonIs(line, 14);
    assert line[..14] == FIELD[..14] && SameName(FIELD[..14], NAME);
    assert line[15..] == " " + Digits(n);
    ValueIsRead(n);
  }

  lemma LengthLineIs(n: nat)
    ensures var line := LengthLine(n);
      line != "" && '\n' !in line && Ascii(line) && line[0] == 'C' && TrimEnd(line + "\r\n") == line
  {
    var d, line := Digits(n), LengthLine(n);
    DigitsRead(n);
    assert line[|line| - 1] == d[|d| - 1] && d[|d| - 1] in d;
    TrimsLineEnd(line);
    assert forall c :: c in line ==> c in FIELD || c in d;
  }

  /** A body framed by this program is one the reader takes, whatever it holds */
  lemma FrameIsFramed(ok: Legible, body: string)
    requires Sound(ok) && |body| < USIZE
    ensures var m := Message([LengthLine(|body|)], body);
      Frame(body) == MessageText(m) && WellFramed(ok, m) && Named(m.headers)
  {
    var line := LengthLine(|body|);
    LengthLineIs(|body|);
    LengthIsRead(|body|, None);
    assert Ascii(line + "\r\n");
    var headers := [line];
    assert headers[1..] == [] && Folded(None, headers) == Header(None, line);
    assert HeaderText(headers) == line + "\r\n" + HeaderText([]);
  }

  predicate Other(header: string) {
    var i := Colon(header); i == |header| || !SameName(header[..i], NAME)
  }

  lemma {:induction false} OthersFold(headers: seq<string>, length: Option<nat>)
    requires forall h :: h in headers ==> Other(TrimEnd(h + "\r\n"))
    ensures Folded(length, headers) == length
    decreases |headers|
  {
    if headers != [] { OthersFold(headers[1..], length); }
  }

  lemma {:induction false} FoldedAppend(length: Option<nat>, a: seq<string>, b: seq<string>)
    ensures Folded(length, a + b) == Folded(Folded(length, a), b)
    decreases |a|
  {
    if a == [] {
      assert a + b == b;
    } else {
      assert (a + b)[1..] == a[1..] + b;
      FoldedAppend(Header(length, TrimEnd(a[0] + "\r\n")), a[1..], b);
    }
  }

  /** Any other header lines may stand in front of the length and behind it */
  lemma ExtraHeadersAllowed(ok: Legible, front: seq<string>, behind: seq<string>, body: string)
    requires Sound(ok) && |body| < USIZE
    requires forall h :: h in front + behind ==> GoodLine(ok, h) && Other(TrimEnd(h + "\r\n"))
    ensures WellFramed(ok, Message(front + [LengthLine(|body|)] + behind, body))
  {
    var line := LengthLine(|body|);
    FrameIsFramed(ok, body);
    LengthLineIs(|body|);
    LengthIsRead(|body|, None);
    forall h | h in front || h in behind ensures GoodLine(ok, h) && Other(TrimEnd(h + "\r\n")) {
      assert h in front + behind;
    }
    OthersFold(front, None);
    FoldedAppend(None, front, [line]);
    FoldedAppend(None, front + [line], behind);
    OthersFold(behind, Some(|body|));
    var headers := front + [line] + behind;
    assert GoodLine(ok, line);
    forall i | 0 <= i < |headers| ensures GoodLine(ok, headers[i]) {
      assert headers[i] in front || headers[i] == line || headers[i] in behind;
    }
  }
}
