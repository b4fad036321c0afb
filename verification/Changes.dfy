/** Patches as git prints them, from what changed in each file, and what splitting them gives back. */
module Changes {
  import opened Wrappers
  import opened GitPath
  import opened DiffHeader
  import P = Patch

  datatype Kind = New(mode: string) | Gone(mode: string) | Moved | Edited

  datatype Line = At(text: string) | Plus(text: string) | Minus(text: string) | Same(text: string) | Note(text: string)

  datatype Body = Binary(files: string) | Hunks(lines: seq<Line>)

  /** A file's two names, its kind, the header lines around the one that tells the kind, and what changed in it */
  datatype Change = Change(was: string, now: string, raw: bool, kind: Kind, before: seq<string>, behind: seq<string>,
                           body: Body)

  function LineText(line: Line): string {
    match line
    case At(text) => "@@" + text
    case Plus(text) => "+" + text
    case Minus(text) => "-" + text
    case Same(text) => " " + text
    case Note(text) => "\\" + text
  }

  function LineTexts(lines: seq<Line>): (r: seq<string>)
    ensures |r| == |lines| && forall i :: 0 <= i < |lines| ==> r[i] == LineText(lines[i])
  {
    if lines == [] then [] else [LineText(lines[0])] + LineTexts(lines[1..])
  }

  function KindLine(c: Change): seq<string>
    requires IsBytes(c.was)
  {
    match c.kind
    case New(mode) => ["new file mode " + mode]
    case Gone(mode) => ["deleted file mode " + mode]
    case Moved => ["rename from " + Side("", c.was, c.raw)]
    case Edited => []
  }

  function BinaryLine(c: Change): seq<string> {
    match c.body
    case Binary(files) => ["Binary files " + files]
    case Hunks(_) => []
  }

  predicate Names(c: Change) { IsBytes(c.was) && IsBytes(c.now) && c.was != "" && c.now != "" }

  function FileOf(c: Change): P.File
    requires Names(c)
  {
    P.File([Header(c.was, c.now, c.raw)] + (c.before + (KindLine(c) + (c.behind + BinaryLine(c)))),
           match c.body case Binary(_) => [] case Hunks(lines) => LineTexts(lines))
  }

  /** A header line that tells none of what is read from the headers */
  predicate Other(line: string) {
    && P.IsLine(line) && line != "" && !StartsAt(line, 0, "diff --git ") && !StartsAt(line, 0, "@@")
    && !StartsAt(line, 0, "rename from ") && !StartsAt(line, 0, "new file mode")
    && !StartsAt(line, 0, "deleted file mode") && !StartsAt(line, 0, "Binary files ")
  }

  predicate Others(lines: seq<string>) { forall i :: 0 <= i < |lines| ==> Other(lines[i]) }

  /** What a change prints is lines, and only its own ones tell what it is */
  predicate Printable(c: Change) {
    && Others(c.before) && Others(c.behind)
    && (c.kind.New? || c.kind.Gone? ==> P.IsLine(c.kind.mode))
    && match c.body
       case Binary(files) => P.IsLine(files)
       case Hunks(lines) =>
         (forall i :: 0 <= i < |lines| ==> '\n' !in lines[i].text) && (lines != [] ==> lines[0].At?)
  }

  function PatchText(c: Change): string
    requires Names(c)
  {
    P.FileText(FileOf(c))
  }

  function Texts(changes: seq<Change>): string
    requires forall c :: c in changes ==> Names(c)
  {
    if changes == [] then "" else PatchText(changes[0]) + Texts(changes[1..])
  }

  function Pluses(lines: seq<Line>): nat {
    if lines == [] then 0 else (if lines[0].Plus? then 1 else 0) + Pluses(lines[1..])
  }

  function Minuses(lines: seq<Line>): nat {
    if lines == [] then 0 else (if lines[0].Minus? then 1 else 0) + Minuses(lines[1..])
  }

  function StatusOf(kind: Kind): P.Status {
    match kind
    case New(_) => P.Added
    case Gone(_) => P.Deleted
    case Moved => P.Renamed
    case Edited => P.Modified
  }

  /** What one file's change has to come back as; a header that does not tell the new path is the exception */
  predicate Describes(d: P.FilePatch, c: Change)
    requires Names(c)
  {
    && d.status == StatusOf(c.kind)
    && d.oldPath == (if c.kind.Moved? then Some(c.was) else None)
    && (d.path == c.now <==> P.Told(P.Sides(c.was, c.now, c.raw)))
    && match c.body
       case Binary(_) => d.patch == "" && d.additions == 0 && d.deletions == 0
       case Hunks(lines) =>
         d.patch == PatchText(c) && d.additions == Pluses(lines) && d.deletions == Minuses(lines)
  }

  // ----- what is printed is lines

  predicate NoBreak(s: string) { '\n' !in s && '\r' !in s }

  lemma NoBreakIsLine(s: string)
    requires NoBreak(s)
    ensures P.IsLine(s)
  {
    if s != "" { assert s[|s| - 1] in s; }
  }

  lemma NoBreakBoth(a: string, b: string)
    requires NoBreak(a) && NoBreak(b)
    ensures NoBreak(a + b)
  {}

  lemma ByteNoBreak(b: char, raw: bool)
    requires b < 256 as char
    ensures NoBreak(QuoteByte(b, raw))
  {
    OctalOf(b as nat);
  }

  lemma {:induction false} QuoteNoBreak(path: string, raw: bool)
    requires IsBytes(path)
    ensures NoBreak(Quote(path, raw))
  {
    if path != "" {
      BytesTail(path);
      ByteNoBreak(path[0], raw);
      QuoteNoBreak(path[1..], raw);
      NoBreakBoth(QuoteByte(path[0], raw), Quote(path[1..], raw));
    }
  }

  lemma SideNoBreak(prefix: string, path: string, raw: bool)
    requires IsBytes(path) && NoBreak(prefix)
    ensures NoBreak(Side(prefix, path, raw))
  {
    if NeedsQuotes(path, raw) {
      QuoteNoBreak(path, raw);
      NoBreakBoth(prefix, Quote(path, raw));
    } else {
      forall c | c in path ensures c != '\n' && c != '\r' { assert Plain(c, raw); }
      NoBreakBoth(prefix, path);
    }
  }

  lemma HeaderIsLine(c: Change)
    requires Names(c)
    ensures P.IsLine(Header(c.was, c.now, c.raw)) && StartsAt(Header(c.was, c.now, c.raw), 0, DIFF)
  {
    var a, b := Side("a/", c.was, c.raw), Side("b/", c.now, c.raw);
    SideNoBreak("a/", c.was, c.raw);
    SideNoBreak("b/", c.now, c.raw);
    NoBreakBoth(a, " ");
    NoBreakBoth(a + " ", b);
    NoBreakBoth(DIFF, a + " " + b);
    NoBreakIsLine(Header(c.was, c.now, c.raw));
    assert Header(c.was, c.now, c.raw)[..|DIFF|] == DIFF;
  }

  /** A line that starts with a key and goes on with the rest of a line */
  lemma KeyedIsLine(key: string, rest: string)
    requires NoBreak(key) && key != "" && P.IsLine(rest)
    ensures P.IsLine(key + rest) && key + rest != "" && StartsAt(key + rest, 0, key)
  {
    assert (key + rest)[..|key|] == key;
    if rest == "" {
      assert key + rest == key;
      NoBreakIsLine(key);
    } else {
      assert (key + rest)[|key + rest| - 1] == rest[|rest| - 1];
    }
  }

  /** A header line of a file that is not its first */
  predicate HeaderLine(line: string) {
    P.IsLine(line) && line != "" && !StartsAt(line, 0, DIFF) && !StartsAt(line, 0, "@@")
  }

  predicate HeaderLines(lines: seq<string>) { forall i :: 0 <= i < |lines| ==> HeaderLine(lines[i]) }

  lemma OtherFirst(line: string, c: char)
    requires line != "" && line[0] == c && c != 'd' && c != '@'
    ensures !StartsAt(line, 0, DIFF) && !StartsAt(line, 0, "@@")
  {
    StartsNot(line, 0, DIFF, 0);
    StartsNot(line, 0, "@@", 0);
  }

  lemma NewLineOk(mode: string)
    requires P.IsLine(mode)
    ensures HeaderLine("new file mode " + mode)
  {
    KeyedIsLine("new file mode ", mode);
    OtherFirst("new file mode " + mode, 'n');
  }

  lemma GoneLineOk(mode: string, line: string)
    requires P.IsLine(mode) && line == "deleted file mode " + mode
    ensures HeaderLine(line)
  {
    KeyedIsLine("deleted file mode ", mode);
    assert line[1] == 'e';
    StartsNot(line, 0, DIFF, 1);
    StartsNot(line, 0, "@@", 0);
  }

  lemma RenameLineOk(was: string, raw: bool)
    requires IsBytes(was)
    ensures HeaderLine("rename from " + Side("", was, raw))
  {
    SideNoBreak("", was, raw);
    NoBreakIsLine(Side("", was, raw));
    KeyedIsLine("rename from ", Side("", was, raw));
    OtherFirst("rename from " + Side("", was, raw), 'r');
  }

  lemma KindLineOk(c: Change)
    requires Names(c) && Printable(c)
    ensures HeaderLines(KindLine(c))
  {
    match c.kind
    case New(mode) => NewLineOk(mode);
    case Gone(mode) => GoneLineOk(mode, "deleted file mode " + mode);
    case Moved => RenameLineOk(c.was, c.raw);
    case Edited =>
  }

  lemma BinaryLineOk(c: Change)
    requires Names(c) && Printable(c)
    ensures HeaderLines(BinaryLine(c))
  {
    if c.body.Binary? {
      KeyedIsLine("Binary files ", c.body.files);
      OtherFirst("Binary files " + c.body.files, 'B');
    }
  }

  lemma HeadersOk(c: Change)
    requires Names(c) && Printable(c)
    ensures HeaderLines(c.before + (KindLine(c) + (c.behind + BinaryLine(c))))
  {
    KindLineOk(c);
    BinaryLineOk(c);
  }

  lemma HunkLineOk(line: Line)
    requires '\n' !in line.text
    ensures '\n' !in LineText(line) && !StartsAt(LineText(line), 0, DIFF)
    ensures line.At? ==> StartsAt(LineText(line), 0, "@@")
  {
    StartsNot(LineText(line), 0, DIFF, 0);
    if line.At? { assert LineText(line)[..2] == "@@"; }
  }

  lemma HunksOk(c: Change)
    requires Names(c) && Printable(c) && c.body.Hunks?
    ensures var texts := LineTexts(c.body.lines);
      && (forall i :: 0 <= i < |texts| ==> '\n' !in texts[i] && !StartsAt(texts[i], 0, DIFF))
      && (texts != [] ==> StartsAt(texts[0], 0, "@@"))
  {
    var lines := c.body.lines;
    forall i | 0 <= i < |lines|
      ensures '\n' !in LineTexts(lines)[i] && !StartsAt(LineTexts(lines)[i], 0, DIFF)
    {
      HunkLineOk(lines[i]);
    }
    if lines != [] { HunkLineOk(lines[0]); }
  }

  lemma HeadersBehind(f: P.File, first: string, rest: seq<string>)
    requires HeaderLines(rest) && f.headers == [first] + rest
    ensures forall i :: 1 <= i < |f.headers| ==> HeaderLine(f.headers[i])
  {
    forall i | 1 <= i < |f.headers| ensures HeaderLine(f.headers[i]) { assert f.headers[i] == rest[i - 1]; }
  }

  lemma FileIsWellFormed(c: Change)
    requires Names(c) && Printable(c)
    ensures P.WellFormed(FileOf(c))
  {
    var f := FileOf(c);
    HeaderIsLine(c);
    HeadersOk(c);
    HeadersBehind(f, Header(c.was, c.now, c.raw), c.before + (KindLine(c) + (c.behind + BinaryLine(c))));
    if c.body.Hunks? { HunksOk(c); }
  }

  // ----- what is read from the headers

  predicate Lacks(lines: seq<string>, key: string) { forall i :: 0 <= i < |lines| ==> !StartsAt(lines[i], 0, key) }

  lemma {:induction false} ValueBehind(a: seq<string>, b: seq<string>, key: string)
    requires Lacks(a, key)
    ensures P.HeaderValue(a + b, key) == P.HeaderValue(b, key)
  {
    if a == [] {
      assert a + b == b;
    } else {
      assert (a + b)[1..] == a[1..] + b;
      ValueBehind(a[1..], b, key);
    }
  }

  /** The value of a key among a change's headers is that of the line that tells the kind, or of the binary one */
  lemma {:induction false} ValueIs(c: Change, key: string)
    requires Names(c) && Printable(c) && key in ["rename from ", "new file mode", "deleted file mode", "Binary files "]
    ensures P.HeaderValue(FileOf(c).headers, key)
            == if P.HeaderValue(KindLine(c), key).Some? then P.HeaderValue(KindLine(c), key)
               else P.HeaderValue(BinaryLine(c), key)
  {
    var first, tail := [Header(c.was, c.now, c.raw)], c.behind + BinaryLine(c);
    HeaderIsLine(c);
    StartsChar(first[0], 0, DIFF, 1);
    StartsNot(first[0], 0, key, if key == "deleted file mode" then 1 else 0);
    ValueBehind(first, c.before + (KindLine(c) + tail), key);
    ValueBehind(c.before, KindLine(c) + tail, key);
    ValueBehind(c.behind, BinaryLine(c), key);
    ValueOfOne(KindLine(c), tail, key);
  }

  lemma {:induction false} ValueOfOne(a: seq<string>, b: seq<string>, key: string)
    requires |a| <= 1
    ensures P.HeaderValue(a + b, key)
            == if P.HeaderValue(a, key).Some? then P.HeaderValue(a, key) else P.HeaderValue(b, key)
  {
    if a == [] { assert a + b == b; } else { assert (a + b)[1..] == b && a[1..] == []; }
  }

  /** A line that starts with one key starts with no other one */
  lemma {:induction false} KeyedValue(key: string, rest: string, other: string, i: nat)
    requires other == key || (i < |other| && (i >= |key| || key[i] != other[i]) && i < |key|)
    ensures P.HeaderValue([key + rest], other) == if other == key then Some(rest) else None
  {
    var line := key + rest;
    var lines := [line];
    assert lines[1..] == [];
    if other == key {
      assert line[..|key|] == key && line[|key|..] == rest;
    } else {
      StartsNot(line, 0, other, i);
    }
  }

  lemma KindValues(c: Change)
    requires Names(c)
    ensures P.HeaderValue(KindLine(c), "rename from ")
            == if c.kind.Moved? then Some(Side("", c.was, c.raw)) else None
    ensures P.HeaderValue(KindLine(c), "new file mode").Some? <==> c.kind.New?
    ensures P.HeaderValue(KindLine(c), "deleted file mode").Some? <==> c.kind.Gone?
    ensures P.HeaderValue(KindLine(c), "Binary files ") == None
  {
    match c.kind
    case New(mode) =>
      assert "new file mode " + mode == "new file mode" + (" " + mode);
      ThreeKeys("new file mode", " " + mode, 0);
    case Gone(mode) =>
      assert "deleted file mode " + mode == "deleted file mode" + (" " + mode);
      ThreeKeys("deleted file mode", " " + mode, 0);
    case Moved => ThreeKeys("rename from ", Side("", c.was, c.raw), 0);
    case Edited =>
  }

  lemma ThreeKeys(key: string, rest: string, i: nat)
    requires key in ["rename from ", "new file mode", "deleted file mode", "Binary files "] && i == 0
    ensures P.HeaderValue([key + rest], "rename from ") == if key == "rename from " then Some(rest) else None
    ensures P.HeaderValue([key + rest], "new file mode") == if key == "new file mode" then Some(rest) else None
    ensures P.HeaderValue([key + rest], "deleted file mode") == if key == "deleted file mode" then Some(rest) else None
    ensures P.HeaderValue([key + rest], "Binary files ") == if key == "Binary files " then Some(rest) else None
  {
    KeyedValue(key, rest, "rename from ", i);
    KeyedValue(key, rest, "new file mode", i);
    KeyedValue(key, rest, "deleted file mode", i);
    KeyedValue(key, rest, "Binary files ", i);
  }

  lemma BinaryValues(c: Change)
    ensures P.HeaderValue(BinaryLine(c), "Binary files ").Some? <==> c.body.Binary?
    ensures P.HeaderValue(BinaryLine(c), "rename from ") == None
    ensures P.HeaderValue(BinaryLine(c), "new file mode") == None
    ensures P.HeaderValue(BinaryLine(c), "deleted file mode") == None
  {
    if c.body.Binary? { ThreeKeys("Binary files ", c.body.files, 0); }
  }

  /** The status and the old path, read off the printed headers */
  lemma KindComesBack(c: Change)
    requires Names(c) && Printable(c)
    ensures P.StatusOf(FileOf(c).headers) == StatusOf(c.kind)
    ensures P.HeaderValue(FileOf(c).headers, "rename from ")
            == if c.kind.Moved? then Some(Side("", c.was, c.raw)) else None
    ensures P.HeaderValue(FileOf(c).headers, "Binary files ").Some? <==> c.body.Binary?
  {
    KindValues(c);
    BinaryValues(c);
    ValueIs(c, "rename from ");
    ValueIs(c, "new file mode");
    ValueIs(c, "deleted file mode");
    ValueIs(c, "Binary files ");
  }

  lemma {:induction false} TagsCounted(lines: seq<Line>)
    ensures P.Count(LineTexts(lines), '+') == Pluses(lines) && P.Count(LineTexts(lines), '-') == Minuses(lines)
  {
    if lines != [] {
      assert LineTexts(lines)[1..] == LineTexts(lines[1..]);
      TagsCounted(lines[1..]);
    }
  }

  lemma ExpectedDescribes(c: Change)
    requires Names(c) && Printable(c)
    ensures Describes(P.Expected(FileOf(c)), c)
  {
    KindComesBack(c);
    FileIsWellFormed(c);
    P.ExpectedPaths(FileOf(c), P.Sides(c.was, c.now, c.raw));
    P.RenameIsRead(c.was, c.raw);
    if c.body.Hunks? { TagsCounted(c.body.lines); }
  }

  function Files(changes: seq<Change>): (r: seq<P.File>)
    requires forall c :: c in changes ==> Names(c)
    ensures |r| == |changes| && forall i :: 0 <= i < |changes| ==> r[i] == FileOf(changes[i])
  {
    if changes == [] then [] else [FileOf(changes[0])] + Files(changes[1..])
  }

  lemma {:induction false} TextsAre(changes: seq<Change>)
    requires forall c :: c in changes ==> Names(c)
    ensures P.AllText(Files(changes)) == Texts(changes)
  {
    if changes != [] {
      assert Files(changes)[1..] == Files(changes[1..]);
      TextsAre(changes[1..]);
    }
  }

  /** Splitting the patches git prints for any changes gives, one a change and in order, its kind as the status, its old
      path, the number of lines that were added and removed, and its own text unless the file is binary */
  lemma {:induction false} SplitGivesTheChanges(changes: seq<Change>)
    requires forall c :: c in changes ==> Names(c) && Printable(c)
    ensures var split := P.SplitPatch(Texts(changes));
      |split| == |changes| && forall i :: 0 <= i < |changes| ==> Describes(split[i], changes[i])
  {
    var files := Files(changes);
    forall i | 0 <= i < |files| ensures P.WellFormed(files[i]) { FileIsWellFormed(changes[i]); }
    P.SplitUndoesConcat(files);
    TextsAre(changes);
    forall i | 0 <= i < |changes|
      ensures |P.ExpectedAll(files)| == |changes| && Describes(P.ExpectedAll(files)[i], changes[i])
    {
      P.ExpectedAt(files, i);
      ExpectedDescribes(changes[i]);
    }
    if changes == [] { assert P.ExpectedAll(files) == []; }
  }
}
