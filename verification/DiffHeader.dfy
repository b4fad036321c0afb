/** The new path of a `diff --git` line, whichever of its sides are quoted. */
module DiffHeader {
  import opened Wrappers
  import opened GitPath

  const DIFF := "diff --git "
  const QUOTED_B := " \"b/"
  const PLAIN_B := " b/"

  predicate StartsAt(s: string, i: nat, key: string) {
    i + |key| <= |s| && s[i..i + |key|] == key
  }

  /** The first quoted b side whose quote closes at the very end, looking on behind each one that does not */
  function QuotedB(rest: string, from: nat): Option<string>
    decreases |rest| - from
  {
    if from + |QUOTED_B| > |rest| then None
    else if StartsAt(rest, from, QUOTED_B) then
      var quoted := rest[from + |QUOTED_B|..];
      match QuotedToEnd(quoted)
      case Some(n) => Some(Unquote(quoted[..n]))
      case None => QuotedB(rest, from + |QUOTED_B|)
    else QuotedB(rest, from + 1)
  }

  /** The b side behind the quote that closes the a side */
  function AfterQuotedA(rest: string, i: nat, escaped: bool): Option<string>
    decreases |rest| - i
  {
    if i >= |rest| then None
    else if escaped then AfterQuotedA(rest, i + 1, false)
    else if rest[i] == '\\' then AfterQuotedA(rest, i + 1, true)
    else if rest[i] == '"' && StartsAt(rest, i + 1, PLAIN_B) then Some(rest[i + 1 + |PLAIN_B|..])
    else AfterQuotedA(rest, i + 1, false)
  }

  function Find(s: string, key: string, from: nat): Option<nat>
    decreases |s| - from
  {
    if from + |key| > |s| then None
    else if StartsAt(s, from, key) then Some(from)
    else Find(s, key, from + 1)
  }

  /** A byte that goes on a UTF-8 character */
  predicate Continues(c: char) { 0x80 as char <= c < 0xc0 as char }

  /** What follows three bytes, when they end on a character */
  function Behind3(rest: string): Option<string> {
    if |rest| < 3 || (|rest| > 3 && Continues(rest[3])) then None else Some(rest[3..])
  }

  function BSide(rest: string): Option<string> {
    if rest != "" && rest[0] == '"' then AfterQuotedA(rest, 1, false)
    else if StartsAt(rest, 0, "a/") then
      match Behind3(rest)
      case None => None
      case Some(after) =>
        match Find(after, PLAIN_B, 0)
        case Some(i) => if i + |PLAIN_B| <= |after| then Some(after[i + |PLAIN_B|..]) else None
        case None => None
    else None
  }

  function DiffPath(header: string): string {
    if !StartsAt(header, 0, DIFF) then "" else
    var rest := header[|DIFF|..];
    match QuotedB(rest, 0)
    case Some(path) => path
    case None => match BSide(rest) case Some(path) => path case None => ""
  }

  // ----- the headers git prints

  predicate NeedsQuotes(path: string, raw: bool) { exists c :: c in path && !Plain(c, raw) }

  function Side(prefix: string, path: string, raw: bool): string
    requires IsBytes(path)
  {
    if NeedsQuotes(path, raw) then "\"" + prefix + Quote(path, raw) + "\"" else prefix + path
  }

  function Header(was: string, now: string, raw: bool): string
    requires IsBytes(was) && IsBytes(now)
  {
    DIFF + (Side("a/", was, raw) + " " + Side("b/", now, raw))
  }

  // ----- looking for the quoted b side

  lemma {:induction false} QuotedBSkips(rest: string, i: nat, j: nat)
    requires i <= j && forall k :: i <= k < j ==> !StartsAt(rest, k, QUOTED_B)
    ensures QuotedB(rest, i) == QuotedB(rest, j)
    decreases j - i
  {
    if i < j { QuotedBSkips(rest, i + 1, j); }
  }

  lemma PlainHasNoQuote(path: string, raw: bool)
    requires !NeedsQuotes(path, raw)
    ensures forall k :: 0 <= k < |path| ==> path[k] != '"' && path[k] != '\\'
  {
    forall k | 0 <= k < |path| ensures path[k] != '"' && path[k] != '\\' {
      assert path[k] in path;
    }
  }

  lemma StartsNot(s: string, i: nat, key: string, j: nat)
    requires j < |key| && (i + j >= |s| || s[i + j] != key[j])
    ensures !StartsAt(s, i, key)
  {
    if i + |key| <= |s| { assert s[i..i + |key|][j] == s[i + j]; }
  }

  lemma StartsChar(s: string, i: nat, key: string, j: nat)
    requires j < |key| && StartsAt(s, i, key)
    ensures s[i + j] == key[j]
  {
    assert s[i..i + |key|][j] == s[i + j];
  }

  /** Inside a side, a quote has a backslash before it */
  lemma InnerQuote(path: string, raw: bool, j: nat)
    requires IsBytes(path) && 0 < j && j + 1 < |Side("a/", path, raw)| && Side("a/", path, raw)[j] == '"'
    ensures Side("a/", path, raw)[j - 1] == '\\'
  {
    var a := Side("a/", path, raw);
    if NeedsQuotes(path, raw) {
      var q := Quote(path, raw);
      QuoteIsWellQuoted(path, raw);
      assert forall k :: 0 <= k < |q| ==> a[k + 3] == q[k];
      assert j >= 3 && q[j - 3] == '"' && a[j - 1] == q[j - 4];
    } else {
      PlainHasNoQuote(path, raw);
    }
  }

  /** On the a side a quote behind a space can only be the one that closes it, and what follows is a space */
  lemma NoMatchInA(was: string, raw: bool, b: string, k: nat)
    requires IsBytes(was) && k < |Side("a/", was, raw)|
    ensures !StartsAt(Side("a/", was, raw) + " " + b, k, QUOTED_B)
  {
    var a := Side("a/", was, raw);
    var rest := a + " " + b;
    if rest[k] != ' ' {
      StartsNot(rest, k, QUOTED_B, 0);
    } else if rest[k + 1] != '"' {
      StartsNot(rest, k, QUOTED_B, 1);
    } else {
      if k + 2 < |a| { InnerQuote(was, raw, k + 1); }
      assert rest[k + 2] == ' ';
      StartsNot(rest, k, QUOTED_B, 2);
    }
  }

  lemma {:induction false} SkipsA(was: string, raw: bool, b: string)
    requires IsBytes(was)
    ensures var a := Side("a/", was, raw); QuotedB(a + " " + b, 0) == QuotedB(a + " " + b, |a|)
  {
    var a := Side("a/", was, raw);
    forall k | 0 <= k < |a| ensures !StartsAt(a + " " + b, k, QUOTED_B) { NoMatchInA(was, raw, b, k); }
    QuotedBSkips(a + " " + b, 0, |a|);
  }

  lemma QuotedParts(a: string, q: string)
    ensures var rest := a + " " + ("\"b/" + q + "\"");
      StartsAt(rest, |a|, QUOTED_B) && rest[|a| + |QUOTED_B|..] == q + "\"" && (q + "\"")[..|q|] == q
  {
    var rest := a + " " + ("\"b/" + q + "\"");
    assert rest == a + QUOTED_B + (q + "\"");
  }

  lemma {:induction false} QuotedHere(a: string, q: string)
    requires QuotedToEnd(q + "\"") == Some(|q|)
    ensures QuotedB(a + " " + ("\"b/" + q + "\""), |a|) == Some(Unquote(q))
  {
    QuotedParts(a, q);
  }

  lemma {:induction false} QuotedSide(path: string, raw: bool)
    requires IsBytes(path) && NeedsQuotes(path, raw)
    ensures Side("b/", path, raw) == "\"b/" + Quote(path, raw) + "\""
  {
    assert "\"" + "b/" == "\"b/";
  }

  lemma QuotedBFound(was: string, now: string, raw: bool)
    requires IsBytes(was) && IsBytes(now) && NeedsQuotes(now, raw)
    ensures QuotedB(Side("a/", was, raw) + " " + Side("b/", now, raw), 0) == Some(now)
  {
    QuotedSide(now, raw);
    SkipsA(was, raw, Side("b/", now, raw));
    QuoteIsWellQuoted(now, raw);
    QuotedHere(Side("a/", was, raw), Quote(now, raw));
    UnquoteUndoesQuote(now, raw);
  }

  lemma QuotedBMissing(was: string, now: string, raw: bool)
    requires IsBytes(was) && IsBytes(now) && !NeedsQuotes(now, raw)
    ensures QuotedB(Side("a/", was, raw) + " " + Side("b/", now, raw), 0) == None
  {
    var a, b := Side("a/", was, raw), Side("b/", now, raw);
    var rest := a + " " + b;
    PlainHasNoQuote(now, raw);
    forall k | 0 <= k < |rest| ensures !StartsAt(rest, k, QUOTED_B) {
      if k < |a| {
        NoMatchInA(was, raw, b, k);
      } else {
        if k + 1 < |rest| { assert rest[k + 1] == b[k - |a|]; }
        StartsNot(rest, k, QUOTED_B, 1);
      }
    }
    QuotedBSkips(rest, 0, |rest|);
  }

  // ----- behind a quoted a side

  lemma {:induction false} SkipsWellQuoted(rest: string, i: nat, inner: string)
    requires StartsAt(rest, i, inner) && WellQuoted(inner)
    ensures AfterQuotedA(rest, i, false) == AfterQuotedA(rest, i + |inner|, false)
    decreases |inner|
  {
    if inner != "" {
      assert rest[i..i + |inner|][0] == rest[i];
      var n := if inner[0] == '\\' then 2 else 1;
      assert rest[i + n..i + |inner|] == rest[i..i + |inner|][n..] == inner[n..];
      SkipsWellQuoted(rest, i + n, inner[n..]);
    }
  }

  /** The b side behind any quoted a side */
  lemma {:induction false} QuotedAt(inner: string, now: string)
    requires WellQuoted(inner)
    ensures BSide("\"" + inner + ("\"" + PLAIN_B + now)) == Some(now)
    ensures AfterQuotedA("\"" + inner + ("\"" + PLAIN_B + now), 1, false) == Some(now)
  {
    var rest := "\"" + inner + ("\"" + PLAIN_B + now);
    var at := 1 + |inner|;
    assert rest[1..at] == inner;
    SkipsWellQuoted(rest, 1, inner);
    assert rest[at] == '"';
    assert rest[at + 1..at + 4] == PLAIN_B;
    assert rest[at + 4..] == now;
  }

  lemma {:induction false} PrefixedQuote(path: string, raw: bool)
    requires IsBytes(path)
    ensures WellQuoted("a/" + Quote(path, raw))
  {
    var inner := "a/" + Quote(path, raw);
    QuoteIsWellQuoted(path, raw);
    assert inner[1..][1..] == Quote(path, raw);
    assert WellQuoted(inner[1..]);
  }

  lemma QuotedAParts(quoted: string, now: string)
    ensures "\"" + "a/" + quoted + "\"" + " " + ("b/" + now) == "\"" + ("a/" + quoted) + ("\"" + PLAIN_B + now)
  {
    assert "\"" + " " + ("b/" + now) == "\"" + PLAIN_B + now;
  }

  lemma QuotedASkipped(was: string, now: string, raw: bool)
    requires IsBytes(was) && NeedsQuotes(was, raw)
    ensures BSide(Side("a/", was, raw) + " " + ("b/" + now)) == Some(now)
  {
    PrefixedQuote(was, raw);
    QuotedAt("a/" + Quote(was, raw), now);
    QuotedAParts(Quote(was, raw), now);
  }

  // ----- both sides plain

  lemma {:induction false} FindFirst(s: string, key: string, from: nat, n: nat)
    requires from <= n && StartsAt(s, n, key)
    ensures Find(s, key, from).Some? && from <= Find(s, key, from).value <= n
    ensures (forall k :: from <= k < n ==> !StartsAt(s, k, key)) ==> Find(s, key, from) == Some(n)
    decreases n - from
  {
    if !StartsAt(s, from, key) { FindFirst(s, key, from + 1, n); }
  }

  lemma {:induction false} FindIsThere(s: string, key: string, from: nat)
    ensures Find(s, key, from).Some? ==> from <= Find(s, key, from).value && StartsAt(s, Find(s, key, from).value, key)
    ensures Find(s, key, from).None? ==> forall k :: from <= k ==> !StartsAt(s, k, key)
    decreases |s| - from
  {
    if from + |key| <= |s| && !StartsAt(s, from, key) { FindIsThere(s, key, from + 1); }
  }

  /** The old path that gives no way to tell where it ends, or whose first character is not one byte */
  predicate Misleads(was: string) {
    Find(was, PLAIN_B, 1).Some? || (|was| > 1 && 0x80 as char <= was[1] < 0xc0 as char)
  }

  lemma SplitPoint(was: string, now: string)
    requires was != ""
    ensures var after := was[1..] + PLAIN_B + now;
      && StartsAt(after, |was| - 1, PLAIN_B)
      && forall m :: 0 <= m < |was| - 1 ==> (StartsAt(after, m, PLAIN_B) <==> StartsAt(was, m + 1, PLAIN_B))
  {
    var after := was[1..] + PLAIN_B + now;
    assert after[|was| - 1..|was| + 2] == PLAIN_B;
    forall m | 0 <= m < |was| - 1 ensures StartsAt(after, m, PLAIN_B) <==> StartsAt(was, m + 1, PLAIN_B) {
      if m + 3 <= |was| - 1 {
        assert after[m..m + 3] == was[m + 1..m + 4];
      } else {
        StartsNot(after, m, PLAIN_B, |was| - 1 - m);
      }
    }
  }

  /** The text behind the first character of the old path, up to the first plain b side in it */
  lemma PlainSide(was: string, now: string)
    requires was != "" && was[0] != '"' && !(|was| > 1 && Continues(was[1]))
    ensures var after := was[1..] + PLAIN_B + now;
      var found := Find(after, PLAIN_B, 0);
      found.Some? && found.value + 3 <= |after| && BSide("a/" + was + " " + ("b/" + now))
        == Some(after[found.value + 3..])
  {
    var rest, after := "a/" + was + " " + ("b/" + now), was[1..] + PLAIN_B + now;
    assert rest[0..2] == "a/";
    assert rest[3..] == after;
    assert rest[3] == if |was| > 1 then was[1] else ' ';
    SplitPoint(was, now);
    FindFirst(after, PLAIN_B, 0, |was| - 1);
    FindIsThere(after, PLAIN_B, 0);
  }

  lemma PlainCut(was: string, now: string)
    requires was != "" && |was| > 1 && Continues(was[1])
    ensures BSide("a/" + was + " " + ("b/" + now)) == None
  {
    var rest := "a/" + was + " " + ("b/" + now);
    assert rest[0..2] == "a/" && rest[3] == was[1];
  }

  lemma {:induction false} FirstSplit(was: string, now: string)
    requires was != ""
    ensures var after := was[1..] + PLAIN_B + now;
      var found := Find(after, PLAIN_B, 0);
      found.Some? && found.value + 3 <= |after| && (after[found.value + 3..] == now <==> Find(was, PLAIN_B, 1).None?)
  {
    var after := was[1..] + PLAIN_B + now;
    SplitPoint(was, now);
    FindFirst(after, PLAIN_B, 0, |was| - 1);
    FindIsThere(after, PLAIN_B, 0);
    FindIsThere(was, PLAIN_B, 1);
    var m := Find(after, PLAIN_B, 0).value;
    if Find(was, PLAIN_B, 1).None? {
      assert forall k :: 0 <= k < |was| - 1 ==> !StartsAt(after, k, PLAIN_B);
      assert m == |was| - 1 && after[m + 3..] == now;
    } else {
      var k := Find(was, PLAIN_B, 1).value;
      assert StartsAt(after, k - 1, PLAIN_B);
      FindFirst(after, PLAIN_B, 0, k - 1);
      assert |after[m + 3..]| > |now|;
    }
  }

  lemma PlainFound(was: string, now: string)
    requires was != "" && now != "" && was[0] != '"'
    ensures (match BSide("a/" + was + " " + ("b/" + now)) case Some(path) => path case None => "") == now <==>
            !Misleads(was)
  {
    if |was| > 1 && Continues(was[1]) {
      PlainCut(was, now);
    } else {
      PlainSide(was, now);
      FirstSplit(was, now);
    }
  }

  /** The new path comes back from every header with a quoted side, and from one with both sides plain if
      and only if the old path does not mislead */
  lemma DiffPathExactly(was: string, now: string, raw: bool)
    requires IsBytes(was) && IsBytes(now) && was != "" && now != ""
    ensures DiffPath(Header(was, now, raw)) == now <==>
      NeedsQuotes(was, raw) || NeedsQuotes(now, raw) || !Misleads(was)
  {
    var rest := Side("a/", was, raw) + " " + Side("b/", now, raw);
    assert Header(was, now, raw)[0..|DIFF|] == DIFF && Header(was, now, raw)[|DIFF|..] == rest;
    if NeedsQuotes(now, raw) {
      QuotedBFound(was, now, raw);
    } else {
      QuotedBMissing(was, now, raw);
      if NeedsQuotes(was, raw) {
        QuotedASkipped(was, now, raw);
      } else {
        PlainHasNoQuote(was, raw);
        PlainFound(was, now);
      }
    }
  }

  // ----- paths that are misread

  lemma PlainLetters(path: string)
    requires forall c :: c in path ==> 'a' <= c <= 'z' || c == ' ' || c == '/'
    ensures !NeedsQuotes(path, false)
  {}

  lemma DirectoryIsMisread()
    ensures DiffPath(Header("a b/c", "x", false)) != "x"
  {
    var was := "a b/c";
    assert was[1..4] == PLAIN_B && StartsAt(was, 1, PLAIN_B);
    FindIsThere(was, PLAIN_B, 1);
    PlainLetters(was);
    PlainLetters("x");
    DiffPathExactly(was, "x", false);
  }

  /** An e with an acute accent is two bytes in UTF-8 */
  lemma TwoByteStartIsMisread()
    ensures DiffPath(Header([0xc3 as char, 0xa9 as char], "x", true)) != "x"
  {
    var was := [0xc3 as char, 0xa9 as char];
    assert Continues(was[1]) && !NeedsQuotes(was, true) && !NeedsQuotes("x", true);
    DiffPathExactly(was, "x", true);
  }
}
