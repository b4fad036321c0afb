/** The directory an OSC 7 sequence reports: a file URL with percent escapes. Bytes are characters with their
    codes; which decoded texts are UTF-8 is a parameter. */
module CwdUrl {
  import opened Wrappers

  function HexValue(c: char): Option<nat> {
    if '0' <= c <= '9' then Some((c - '0') as nat)
    else if 'a' <= c <= 'f' then Some((c - 'a') as nat + 10)
    else if 'A' <= c <= 'F' then Some((c - 'A') as nat + 10)
    else None
  }

  /** Two characters read as a number to the base 16, which may be a digit behind a plus sign */
  function Pair(a: char, b: char): (r: Option<char>)
    ensures r.Some? ==> r.value < 256 as char
  {
    match (HexValue(a), HexValue(b))
    case (Some(x), Some(y)) => Some((16 * x + y) as char)
    case (None, Some(y)) => if a == '+' then Some(y as char) else None
    case _ => None
  }

  predicate Escapes(s: string) { |s| >= 3 && s[0] == '%' && Pair(s[1], s[2]).Some? }

  function Decode(s: string): string {
    if s == "" then ""
    else if Escapes(s) then [Pair(s[1], s[2]).value] + Decode(s[3..])
    else [s[0]] + Decode(s[1..])
  }

  const SCHEME := "file://"

  function Slash(s: string): (n: nat)
    ensures n <= |s| && (n < |s| ==> s[n] == '/') && forall i :: 0 <= i < n ==> s[i] != '/'
  {
    if s == "" || s[0] == '/' then 0 else 1 + Slash(s[1..])
  }

  /** The path of a URL, behind its scheme and its host */
  function UrlPath(url: string): Option<string> {
    if !(SCHEME <= url) then None else
    var rest := url[|SCHEME|..];
    if Slash(rest) == |rest| then None else Some(rest[Slash(rest)..])
  }

  function CwdFromUrl(utf8: string -> bool, url: string): Option<string> {
    match UrlPath(url)
    case None => None
    case Some(path) => if utf8(Decode(path)) then Some(Decode(path)) else None
  }

  lemma DecodesEscape(path: string, i: nat, out: string)
    requires i <= |path| && Escapes(path[i..])
    ensures i + 3 <= |path| && Pair(path[i + 1], path[i + 2]).Some?
    ensures out + Decode(path[i..]) == out + [Pair(path[i + 1], path[i + 2]).value] + Decode(path[i + 3..])
  {
    assert path[i..][3..] == path[i + 3..];
    Assoc(out, [Pair(path[i + 1], path[i + 2]).value], Decode(path[i + 3..]));
  }

  lemma DecodesOne(path: string, i: nat, out: string)
    requires i < |path| && !Escapes(path[i..])
    ensures out + Decode(path[i..]) == out + [path[i]] + Decode(path[i + 1..])
  {
    assert path[i..][1..] == path[i + 1..];
    Assoc(out, [path[i]], Decode(path[i + 1..]));
  }

  method ReadCwd(utf8: string -> bool, url: string) returns (r: Option<string>)
    ensures r == CwdFromUrl(utf8, url)
  {
    var found := UrlPath(url);
    if found.None? { return None; }
    var path, out, i := found.value, "", 0;
    while i < |path|
      invariant i <= |path| && Decode(path) == out + Decode(path[i..])
      decreases |path| - i
    {
      if Escapes(path[i..]) {
        DecodesEscape(path, i, out);
        out, i := out + [Pair(path[i + 1], path[i + 2]).value], i + 3;
      } else {
        DecodesOne(path, i, out);
        out, i := out + [path[i]], i + 1;
      }
    }
    assert path[|path|..] == "" && out + "" == out;
    r := if utf8(out) then Some(out) else None;
  }

  // ----- what a shell sends

  function HexDigit(n: nat, upper: bool): char
    requires n < 16
  {
    if n < 10 then '0' + n as char else (if upper then 'A' else 'a') + (n - 10) as char
  }

  /** Percent signs are always escaped, and whatever else the shell does not keep */
  function Encode(path: string, keep: char -> bool, upper: bool): string
    requires IsBytes(path)
  {
    if path == "" then "" else
    assert path[0] in path && forall c :: c in path[1..] ==> c in path;
    var c := path[0];
    (if keep(c) && c != '%' then [c] else ['%', HexDigit(c as nat / 16, upper), HexDigit(c as nat % 16, upper)])
    + Encode(path[1..], keep, upper)
  }

  lemma HexRead(c: char, upper: bool)
    requires c < 256 as char
    ensures Pair(HexDigit(c as nat / 16, upper), HexDigit(c as nat % 16, upper)) == Some(c)
  {}

  lemma {:induction false} DecodeChar(c: char, rest: string)
    requires c != '%'
    ensures Decode([c] + rest) == [c] + Decode(rest)
  {
    assert ([c] + rest)[1..] == rest;
  }

  lemma {:induction false} DecodeEscape(c: char, upper: bool, rest: string)
    requires c < 256 as char
    ensures Decode(['%', HexDigit(c as nat / 16, upper), HexDigit(c as nat % 16, upper)] + rest) == [c] + Decode(rest)
  {
    var s := ['%', HexDigit(c as nat / 16, upper), HexDigit(c as nat % 16, upper)] + rest;
    HexRead(c, upper);
    assert s[3..] == rest && Pair(s[1], s[2]) == Some(c) && Escapes(s);
  }

  lemma {:induction false} DecodeUndoesEncode(path: string, keep: char -> bool, upper: bool)
    requires IsBytes(path)
    ensures Decode(Encode(path, keep, upper)) == path
  {
    if path != "" {
      var c := path[0];
      assert c in path && forall x :: x in path[1..] ==> x in path;
      DecodeUndoesEncode(path[1..], keep, upper);
      if keep(c) && c != '%' {
        DecodeChar(c, Encode(path[1..], keep, upper));
      } else {
        DecodeEscape(c, upper, Encode(path[1..], keep, upper));
      }
      assert path == [c] + path[1..];
    }
  }

  /** Any absolute path comes back from its URL, whatever the host and whatever else was escaped */
  lemma {:induction false} CwdRoundTrips(utf8: string -> bool, host: string, path: string, keep: char -> bool,
                                         upper: bool)
    requires '/' !in host && IsBytes(path) && path != "" && path[0] == '/' && keep('/') && utf8(path)
    ensures CwdFromUrl(utf8, SCHEME + host + Encode(path, keep, upper)) == Some(path)
  {
    var coded := Encode(path, keep, upper);
    var url, rest := SCHEME + host + coded, host + coded;
    assert coded[0] == '/';
    assert url[..|SCHEME|] == SCHEME && url[|SCHEME|..] == rest;
    SlashBehind(host, coded);
    assert rest[|host|..] == coded;
    DecodeUndoesEncode(path, keep, upper);
  }

  lemma {:induction false} SlashBehind(host: string, path: string)
    requires '/' !in host && path != "" && path[0] == '/'
    ensures Slash(host + path) == |host|
  {
    var s := host + path;
    assert s[|host|] == '/' && forall i :: 0 <= i < |host| ==> s[i] == host[i] && s[i] in host;
  }

  // ----- paths sent without escapes

  /** Somewhere a percent sign stands in front of what reads as a byte */
  predicate HasEscape(s: string) { s != "" && (Escapes(s) || HasEscape(s[1..])) }

  lemma {:induction false} DecodeShrinks(s: string)
    ensures |Decode(s)| <= |s| && (HasEscape(s) ==> |Decode(s)| < |s|)
    decreases |s|
  {
    if s != "" { DecodeShrinks(if Escapes(s) then s[3..] else s[1..]); }
  }

  /** A path that was sent as it is is read as it is exactly if it holds no escape */
  lemma {:induction false} PlainPathExactly(s: string)
    ensures Decode(s) == s <==> !HasEscape(s)
    decreases |s|
  {
    DecodeShrinks(s);
    if s != "" && !HasEscape(s) {
      PlainPathExactly(s[1..]);
      assert s == [s[0]] + s[1..];
    }
  }

  /** A plus sign before a digit reads as a byte */
  lemma PlusIsRead()
    ensures Decode("%+f") == [0x0f as char] != "%+f"
  {
    assert Escapes("%+f") && "%+f"[3..] == "";
  }
}
