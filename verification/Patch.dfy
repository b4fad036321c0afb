/** Splitting the output of `git diff` into one patch per file. */
module Patch {
  import opened Wrappers
  import opened GitPath
  import opened DiffHeader

  const HUNK := "\n@@"

  datatype Status = Added | Modified | Deleted | Renamed

  datatype FilePatch = FilePatch(path: string, oldPath: Option<string>, status: Status, patch: string,
                                 additions: nat, deletions: nat)

  // ----- lines

  /** A line without the carriage return that may end it */
  function Chomp(line: string): string {
    if line != "" && line[|line| - 1] == '\r' then line[..|line| - 1] else line
  }

  /** The first newline, or the end of the text */
  function NewLine(text: string): (n: nat)
    ensures n <= |text| && (n < |text| ==> text[n] == '\n')
    ensures forall k :: 0 <= k < n ==> text[k] != '\n'
  {
    if text == "" || text[0] == '\n' then 0 else 1 + NewLine(text[1..])
  }

  /** A final newline ends the last line and does not start another */
  function Lines(text: string): seq<string>
    decreases |text|
  {
    if text == "" then [] else
    var n := NewLine(text);
    [Chomp(text[..n])] + (if n == |text| then [] else Lines(text[n + 1..]))
  }

  // ----- the splitter

  /** Matches that do not overlap, as the search goes on behind each one */
  function Matches(patch: string, from: nat): seq<nat>
    decreases |patch| - from
  {
    if from + |DIFF| > |patch| then []
    else if StartsAt(patch, from, DIFF) then [from] + Matches(patch, from + |DIFF|)
    else Matches(patch, from + 1)
  }

  function AtLineStart(patch: string, positions: seq<nat>): seq<nat> {
    if positions == [] then []
    else
      var i := positions[0];
      (if i == 0 || (i <= |patch| && patch[i - 1] == '\n') then [i] else []) + AtLineStart(patch, positions[1..])
  }

  function HeaderValue(lines: seq<string>, key: string): Option<string> {
    if lines == [] then None
    else if StartsAt(lines[0], 0, key) then Some(lines[0][|key|..])
    else HeaderValue(lines[1..], key)
  }

  function HeaderPath(line: string): string {
    if |line| >= 2 && line[0] == '"' && line[|line| - 1] == '"' then Unquote(line[1..|line| - 1]) else line
  }

  function Count(lines: seq<string>, mark: char): nat {
    if lines == [] then 0 else (if lines[0] != "" && lines[0][0] == mark then 1 else 0) + Count(lines[1..], mark)
  }

  function StatusOf(headers: seq<string>): Status {
    if HeaderValue(headers, "rename from ").Some? then Renamed
    else if HeaderValue(headers, "new file mode").Some? then Added
    else if HeaderValue(headers, "deleted file mode").Some? then Deleted
    else Modified
  }

  /** The first line of one file's patch, and the lines of its headers and of its hunks */
  datatype Parts = Parts(first: string, headers: seq<string>, hunks: Option<seq<string>>)

  function Summary(chunk: string, p: Parts): FilePatch {
    var renamed := HeaderValue(p.headers, "rename from ");
    FilePatch(DiffPath(p.first),
              if renamed.Some? then Some(HeaderPath(renamed.value)) else None,
              StatusOf(p.headers),
              if p.hunks.None? && HeaderValue(p.headers, "Binary files ").Some? then "" else chunk,
              if p.hunks.Some? then Count(p.hunks.value, '+') else 0,
              if p.hunks.Some? then Count(p.hunks.value, '-') else 0)
  }

  function FirstOf(lines: seq<string>): string { if lines == [] then "" else lines[0] }

  function PartsAt(chunk: string, marker: Option<nat>): Parts {
    match marker
    case Some(i) =>
      if i < |chunk| then Parts(FirstOf(Lines(chunk)), Lines(chunk[..i]), Some(Lines(chunk[i + 1..])))
      else Parts(FirstOf(Lines(chunk)), Lines(chunk), None)
    case None => Parts(FirstOf(Lines(chunk)), Lines(chunk), None)
  }

  /** The hunks start behind the first newline that two at signs follow */
  function Describe(chunk: string): FilePatch { Summary(chunk, PartsAt(chunk, Find(chunk, HUNK, 0))) }

  /** The text between each start and the next one */
  function Chunks(patch: string, starts: seq<nat>): seq<string> {
    if starts == [] then [] else
    var end := if |starts| > 1 then starts[1] else |patch|;
    [if starts[0] <= end <= |patch| then patch[starts[0]..end] else ""] + Chunks(patch, starts[1..])
  }

  function DescribeAll(chunks: seq<string>): seq<FilePatch> {
    if chunks == [] then [] else [Describe(chunks[0])] + DescribeAll(chunks[1..])
  }

  function SplitPatch(patch: string): seq<FilePatch> {
    DescribeAll(Chunks(patch, AtLineStart(patch, Matches(patch, 0))))
  }

  // ----- patches as git prints them

  datatype File = File(headers: seq<string>, hunks: seq<string>)

  function Text(lines: seq<string>): string {
    if lines == [] then "" else lines[0] + "\n" + Text(lines[1..])
  }

  predicate IsLine(line: string) { '\n' !in line && Chomp(line) == line }

  predicate WellFormed(f: File) {
    && f.headers != [] && StartsAt(f.headers[0], 0, DIFF)
    && (forall i :: 0 <= i < |f.headers| ==> IsLine(f.headers[i]) && f.headers[i] != "")
    && (forall i :: 1 <= i < |f.headers| ==> !StartsAt(f.headers[i], 0, DIFF) && !StartsAt(f.headers[i], 0, "@@"))
    && (forall i :: 0 <= i < |f.hunks| ==> '\n' !in f.hunks[i] && !StartsAt(f.hunks[i], 0, DIFF))
    && (f.hunks != [] ==> StartsAt(f.hunks[0], 0, "@@"))
  }

  function FileText(f: File): string { Text(f.headers + f.hunks) }

  function AllText(files: seq<File>): string {
    if files == [] then "" else FileText(files[0]) + AllText(files[1..])
  }

  function OwnParts(f: File): Parts {
    Parts(FirstOf(f.headers), f.headers, if f.hunks == [] then None else Some(f.hunks))
  }

  function Expected(f: File): FilePatch { Summary(FileText(f), OwnParts(f)) }

  // ----- reading lines back

  function ChompAll(lines: seq<string>): (r: seq<string>)
    ensures |r| == |lines| && forall i :: 0 <= i < |lines| ==> r[i] == Chomp(lines[i])
  {
    if lines == [] then [] else [Chomp(lines[0])] + ChompAll(lines[1..])
  }

  lemma {:induction false} FirstLine(line: string, rest: string)
    requires '\n' !in line
    ensures Lines(line + "\n" + rest) == [Chomp(line)] + Lines(rest)
  {
    var text := line + "\n" + rest;
    assert text[|line|] == '\n' && forall k :: 0 <= k < |line| ==> text[k] == line[k];
    assert NewLine(text) == |line|;
    assert text[..|line|] == line && text[|line| + 1..] == rest;
  }

  /** A line that ends in a carriage return and a newline is read without either */
  lemma {:induction false} ReturnsGo(line: string, rest: string)
    requires '\n' !in line
    ensures Lines(line + "\r\n" + rest) == [line] + Lines(rest)
  {
    var open := line + "\r";
    assert line + "\r\n" + rest == open + "\n" + rest && open[..|open| - 1] == line;
    FirstLine(open, rest);
  }

  /** A path between quotes is unquoted, and any other is taken as it is */
  lemma {:induction false} HeaderPathExactly(path: string)
    ensures HeaderPath("\"" + path + "\"") == Unquote(path)
    ensures path == "" || path[0] != '"' || path == "\"" || path[|path| - 1] != '"' ==> HeaderPath(path) == path
  {
    var quoted := "\"" + path + "\"";
    assert quoted[1..|quoted| - 1] == path;
  }

  lemma {:induction false} LastLine(line: string)
    requires '\n' !in line && line != ""
    ensures Lines(line) == [Chomp(line)]
  {
    assert NewLine(line) == |line|;
    assert line[..|line|] == line;
  }

  lemma {:induction false} LinesOfText(lines: seq<string>)
    requires forall k :: 0 <= k < |lines| ==> '\n' !in lines[k]
    ensures Lines(Text(lines)) == ChompAll(lines)
  {
    if lines != [] {
      FirstLine(lines[0], Text(lines[1..]));
      LinesOfText(lines[1..]);
    }
  }

  /** The same for a text whose last line has lost its newline */
  lemma {:induction false} LinesOfOpenText(open: string, lines: seq<string>)
    requires open + "\n" == Text(lines) && forall k :: 0 <= k < |lines| ==> '\n' !in lines[k] && lines[k] != ""
    ensures Lines(open) == ChompAll(lines)
    decreases |lines|
  {
    if |lines| == 1 {
      assert Text(lines[1..]) == "";
      assert open == (open + "\n")[..|open|] == lines[0];
      LastLine(open);
      assert ChompAll(lines) == [Chomp(lines[0])];
    } else if |lines| > 1 {
      var rest := Text(lines[1..]);
      TextEnds(lines[1..]);
      var tail := rest[..|rest| - 1];
      assert open == (open + "\n")[..|open|] == lines[0] + "\n" + tail;
      assert tail + "\n" == rest;
      FirstLine(lines[0], tail);
      LinesOfOpenText(tail, lines[1..]);
    }
  }

  lemma {:induction false} TextEnds(lines: seq<string>)
    requires lines != []
    ensures Text(lines) != "" && Text(lines)[|Text(lines)| - 1] == '\n'
  {
    if |lines| == 1 {
      assert Text(lines[1..]) == "";
    } else {
      TextEnds(lines[1..]);
    }
  }

  lemma {:induction false} TextAppend(a: seq<string>, b: seq<string>)
    ensures Text(a + b) == Text(a) + Text(b)
  {
    if a == [] {
      assert a + b == b;
    } else {
      assert (a + b)[1..] == a[1..] + b;
      TextAppend(a[1..], b);
    }
  }

  lemma {:induction false} CountChomped(lines: seq<string>, mark: char)
    requires mark != '\r'
    ensures Count(ChompAll(lines), mark) == Count(lines, mark)
  {
    if lines != [] { CountChomped(lines[1..], mark); }
  }

  // ----- where keys start

  lemma StartsShift(s: string, off: nat, i: nat, key: string)
    requires off <= |s|
    ensures StartsAt(s, off + i, key) <==> StartsAt(s[off..], i, key)
  {
    if off + i + |key| <= |s| { assert s[off + i..off + i + |key|] == s[off..][i..i + |key|]; }
  }

  /** A key without a newline starts a text exactly when it starts the text's first line */
  lemma LineStarts(line: string, rest: string, key: string)
    requires '\n' !in key
    ensures StartsAt(line + "\n" + rest, 0, key) <==> StartsAt(line, 0, key)
  {
    var text := line + "\n" + rest;
    if |key| <= |line| {
      assert text[0..|key|] == line[0..|key|];
    } else {
      assert key[|line|] in key && text[|line|] == '\n';
      StartsNot(text, 0, key, |line|);
    }
  }

  lemma NewLineBehind(first: string, rest: string)
    requires '\n' !in first
    ensures var text := first + "\n" + rest; forall k :: 0 <= k < |first| ==> text[k] != '\n'
  {
    forall k | 0 <= k < |first| ensures first[k] != '\n' {
      assert first[k] in first;
    }
  }

  lemma BehindLine(first: string, rest: string, i: nat)
    requires '\n' !in first && 0 < i <= |first + "\n" + rest| && (first + "\n" + rest)[i - 1] == '\n'
    ensures var off := |first| + 1;
      (first + "\n" + rest)[off..] == rest && off <= i && (i > off ==> rest[i - off - 1] == '\n')
  {
    NewLineBehind(first, rest);
  }

  predicate IsStart(patch: string, key: string, i: nat) {
    StartsAt(patch, i, key) && (i == 0 || patch[i - 1] == '\n')
  }

  lemma {:induction false} TextFirst(lines: seq<string>, tail: string)
    requires lines != []
    ensures Text(lines) + tail == lines[0] + "\n" + (Text(lines[1..]) + tail)
  {}

  lemma LaterStart(first: string, rest: string, key: string, i: nat)
    requires |first| < i && !StartsAt(rest, i - |first| - 1, key)
    ensures !StartsAt(first + "\n" + rest, i, key)
  {
    var text, off := first + "\n" + rest, |first| + 1;
    assert text[off..] == rest;
    StartsShift(text, off, i - off, key);
  }

  /** Past the first line of a text, only a line that starts with the key gives a start */
  lemma {:induction false} NoStart(lines: seq<string>, tail: string, key: string, i: nat)
    requires '\n' !in key && i < |Text(lines)| && (i == 0 || (Text(lines) + tail)[i - 1] == '\n')
    requires forall k :: 0 <= k < |lines| ==> '\n' !in lines[k] && !StartsAt(lines[k], 0, key)
    ensures !StartsAt(Text(lines) + tail, i, key)
    decreases |lines|, 1
  {
    if i == 0 {
      TextFirst(lines, tail);
      LineStarts(lines[0], Text(lines[1..]) + tail, key);
    } else {
      KeyLine(lines, tail, key, i);
    }
  }

  lemma {:induction false} KeyLine(lines: seq<string>, tail: string, key: string, i: nat)
    requires lines != [] && '\n' !in key && '\n' !in lines[0] && 0 < i < |Text(lines)|
    requires (Text(lines) + tail)[i - 1] == '\n'
    requires forall k :: 1 <= k < |lines| ==> '\n' !in lines[k] && !StartsAt(lines[k], 0, key)
    ensures !StartsAt(Text(lines) + tail, i, key)
    decreases |lines|, 0
  {
    TextFirst(lines, tail);
    BehindLine(lines[0], Text(lines[1..]) + tail, i);
    NoStart(lines[1..], tail, key, i - |lines[0]| - 1);
    LaterStart(lines[0], Text(lines[1..]) + tail, key, i);
  }

  // ----- finding the files

  function StartsFrom(patch: string, key: string, from: nat): seq<nat>
    decreases |patch| - from
  {
    if from >= |patch| then []
    else (if IsStart(patch, key, from) then [from] else []) + StartsFrom(patch, key, from + 1)
  }

  lemma {:induction false} StartsSkip(patch: string, key: string, i: nat, j: nat)
    requires i <= j && forall k :: i <= k < j ==> !IsStart(patch, key, k)
    ensures StartsFrom(patch, key, i) == StartsFrom(patch, key, j)
    decreases j - i
  {
    if i < j { StartsSkip(patch, key, i + 1, j); }
  }

  /** A match cannot start inside another one */
  lemma NoOverlap(patch: string, i: nat)
    requires StartsAt(patch, i, DIFF)
    ensures forall k :: i < k < i + |DIFF| ==> !StartsAt(patch, k, DIFF)
  {
    forall k | i < k < i + |DIFF| ensures !StartsAt(patch, k, DIFF) {
      StartsChar(patch, i, DIFF, k - i);
      StartsNot(patch, k, DIFF, 0);
    }
  }

  lemma {:induction false} TailTooShort(patch: string, from: nat)
    requires from + |DIFF| > |patch|
    ensures StartsFrom(patch, DIFF, from) == []
    decreases |patch| - from
  {
    if from < |patch| { TailTooShort(patch, from + 1); }
  }

  /** Matching without overlaps misses no line that starts a file */
  lemma {:induction false} MatchesMissNothing(patch: string, from: nat)
    ensures AtLineStart(patch, Matches(patch, from)) == StartsFrom(patch, DIFF, from)
    decreases |patch| - from
  {
    if from + |DIFF| > |patch| {
      TailTooShort(patch, from);
    } else if StartsAt(patch, from, DIFF) {
      var next := from + |DIFF|;
      NoOverlap(patch, from);
      StartsSkip(patch, DIFF, from + 1, next);
      MatchesMissNothing(patch, next);
      assert ([from] + Matches(patch, next))[1..] == Matches(patch, next);
    } else {
      MatchesMissNothing(patch, from + 1);
    }
  }

  function FileTexts(files: seq<File>): seq<string> {
    if files == [] then [] else [FileText(files[0])] + FileTexts(files[1..])
  }

  lemma StartsHere(patch: string, off: nat, f: File, rest: string)
    requires WellFormed(f) && off <= |patch| && patch[off..] == FileText(f) + rest
    requires (off == 0 || patch[off - 1] == '\n')
    ensures IsStart(patch, DIFF, off)
  {
    var lines := f.headers + f.hunks;
    assert lines[0] == f.headers[0] && FileText(f) + rest == lines[0] + "\n" + (Text(lines[1..]) + rest);
    StartsShift(patch, off, 0, DIFF);
    LineStarts(lines[0], Text(lines[1..]) + rest, DIFF);
  }

  lemma NoStartInside(patch: string, off: nat, f: File, rest: string, i: nat)
    requires WellFormed(f) && off < i < off + |FileText(f)| && off <= |patch| && patch[off..] == FileText(f) + rest
    ensures !IsStart(patch, DIFF, i)
  {
    var lines := f.headers + f.hunks;
    if patch[i - 1] == '\n' {
      assert patch[i - 1] == patch[off..][i - 1 - off];
      KeyLine(lines, rest, DIFF, i - off);
      StartsShift(patch, off, i - off, DIFF);
    }
  }

  /** A file's text has a start at its first byte and no other */
  lemma FileStarts(patch: string, off: nat, f: File, rest: string)
    requires WellFormed(f) && off <= |patch| && patch[off..] == FileText(f) + rest
    requires (off == 0 || patch[off - 1] == '\n')
    ensures IsStart(patch, DIFF, off) && forall i :: off < i < off + |FileText(f)| ==> !IsStart(patch, DIFF, i)
  {
    StartsHere(patch, off, f, rest);
    forall i | off < i < off + |FileText(f)| ensures !IsStart(patch, DIFF, i) { NoStartInside(patch, off, f, rest, i); }
  }

  lemma FileSplit(patch: string, off: nat, text: string, rest: string)
    requires off <= |patch| && patch[off..] == text + rest && text != "" && text[|text| - 1] == '\n'
    ensures off + |text| <= |patch| && patch[off..off + |text|] == text && patch[off + |text|..] == rest
    ensures patch[off + |text| - 1] == '\n'
  {
    assert patch[off..][..|text|] == text && patch[off..][|text|..] == rest;
    assert patch[off..][|text| - 1] == patch[off + |text| - 1];
  }

  ghost predicate FirstIs(starts: seq<nat>, off: nat, end: nat) {
    if starts == [] then off == end else starts[0] == off
  }

  lemma {:induction false} OneChunk(patch: string, off: nat, next: nat, starts: seq<nat>, chunks: seq<string>)
    requires off <= next <= |patch| && Chunks(patch, starts) == chunks && FirstIs(starts, next, |patch|)
    ensures Chunks(patch, [off] + starts) == [patch[off..next]] + chunks
  {
    assert ([off] + starts)[1..] == starts;
  }

  /** Starts that cut the patch from `off` on into the given texts */
  ghost predicate CutsInto(patch: string, off: nat, starts: seq<nat>, texts: seq<string>) {
    Chunks(patch, starts) == texts && FirstIs(starts, off, |patch|)
  }

  lemma CutsMore(patch: string, off: nat, next: nat, starts: seq<nat>, texts: seq<string>)
    requires off <= next <= |patch| && CutsInto(patch, next, starts, texts)
    ensures CutsInto(patch, off, [off] + starts, [patch[off..next]] + texts)
  {
    OneChunk(patch, off, next, starts, texts);
  }

  /** The starts from a file on are its own first byte and those behind its text */
  lemma FirstStart(patch: string, off: nat, f: File, rest: string)
    requires WellFormed(f) && off <= |patch| && patch[off..] == FileText(f) + rest
    requires (off == 0 || patch[off - 1] == '\n')
    ensures StartsFrom(patch, DIFF, off) == [off] + StartsFrom(patch, DIFF, off + |FileText(f)|)
  {
    TextEnds(f.headers + f.hunks);
    FileStarts(patch, off, f, rest);
    OneStart(patch, DIFF, off, off + |FileText(f)|);
  }

  lemma {:induction false} OneStart(patch: string, key: string, off: nat, next: nat)
    requires off < next <= |patch| && IsStart(patch, key, off) && forall i :: off < i < next ==> !IsStart(patch, key, i)
    ensures StartsFrom(patch, key, off) == [off] + StartsFrom(patch, key, next)
  {
    StartsSkip(patch, key, off + 1, next);
  }

  /** Where a file's text ends and what follows it */
  lemma FileEnds(patch: string, off: nat, f: File, rest: string)
    requires WellFormed(f) && off <= |patch| && patch[off..] == FileText(f) + rest
    ensures var next := off + |FileText(f)|;
      off < next <= |patch| && patch[off..next] == FileText(f) && patch[next..] == rest && patch[next - 1] == '\n'
  {
    TextEnds(f.headers + f.hunks);
    FileSplit(patch, off, FileText(f), rest);
  }

  /** What one file adds in front of the cuts behind it */
  lemma {:induction false} FileCuts(patch: string, off: nat, next: nat, f: File, rest: string, texts: seq<string>)
    requires WellFormed(f) && off <= |patch| && patch[off..] == FileText(f) + rest
    requires (off == 0 || patch[off - 1] == '\n')
    requires next == off + |FileText(f)| && CutsInto(patch, next, StartsFrom(patch, DIFF, next), texts)
    ensures CutsInto(patch, off, StartsFrom(patch, DIFF, off), [FileText(f)] + texts)
  {
    FileEnds(patch, off, f, rest);
    FirstStart(patch, off, f, rest);
    CutsMore(patch, off, next, StartsFrom(patch, DIFF, next), texts);
  }

  lemma {:induction false} NoCuts(patch: string)
    ensures CutsInto(patch, |patch|, StartsFrom(patch, DIFF, |patch|), [])
  {}

  lemma {:induction false} ChunksOfFiles(patch: string, off: nat, files: seq<File>)
    requires (forall i :: 0 <= i < |files| ==> WellFormed(files[i])) && off <= |patch|
    requires patch[off..] == AllText(files) && (off == 0 || patch[off - 1] == '\n')
    ensures CutsInto(patch, off, StartsFrom(patch, DIFF, off), FileTexts(files))
    decreases |files|
  {
    if files == [] {
      NoCuts(patch);
    } else {
      var f, rest, texts := files[0], AllText(files[1..]), FileTexts(files[1..]);
      var next := off + |FileText(f)|;
      assert WellFormed(f) && patch[off..] == FileText(f) + rest;
      assert CutsInto(patch, next, StartsFrom(patch, DIFF, next), texts) by {
        FileEnds(patch, off, f, rest);
        ChunksOfFiles(patch, next, files[1..]);
      }
      FileCuts(patch, off, next, f, rest, texts);
    }
  }

  // ----- one file

  lemma NoEarlierMarker(f: File, last: nat)
    requires WellFormed(f) && last + 1 == |Text(f.headers)|
    ensures FileText(f) == Text(f.headers) + Text(f.hunks)
    ensures forall i :: 0 <= i < last ==> !StartsAt(FileText(f), i, HUNK)
  {
    TextAppend(f.headers, f.hunks);
    forall i | 0 <= i < last ensures !StartsAt(FileText(f), i, HUNK) { NoMarker(f.headers, Text(f.hunks), i); }
  }

  lemma {:induction false} NoKey(text: string, key: string, last: nat)
    requires |key| >= 2 && |text| == last + 1 && forall i :: 0 <= i < last ==> !StartsAt(text, i, key)
    ensures Find(text, key, 0) == None
  {
    FindIsThere(text, key, 0);
  }

  lemma MarkerHere(f: File, last: nat)
    requires WellFormed(f) && f.hunks != [] && last + 1 == |Text(f.headers)|
    ensures StartsAt(Text(f.headers) + Text(f.hunks), last, HUNK)
  {
    var text, tail := Text(f.headers) + Text(f.hunks), Text(f.hunks);
    TextEnds(f.headers);
    LineStarts(f.hunks[0], Text(f.hunks[1..]), "@@");
    assert tail == f.hunks[0] + "\n" + Text(f.hunks[1..]);
    assert text[last..last + 3] == "\n" + tail[0..2];
  }

  /** The marker of the first hunk: the newline that ends the headers */
  lemma MarkerIs(f: File)
    requires WellFormed(f)
    ensures Find(FileText(f), HUNK, 0) == if f.hunks == [] then None else Some(|Text(f.headers)| - 1)
    ensures Text(f.headers) != ""
  {
    var last := |Text(f.headers)| - 1;
    TextEnds(f.headers);
    NoEarlierMarker(f, last);
    if f.hunks == [] {
      NoKey(FileText(f), HUNK, last);
    } else {
      MarkerHere(f, last);
      FindFirst(FileText(f), HUNK, 0, last);
    }
  }

  lemma StartsTail(s: string, i: nat, key: string)
    requires key != ""
    ensures StartsAt(s, i, key) ==> StartsAt(s, i + 1, key[1..])
  {
    if StartsAt(s, i, key) { assert s[i + 1..i + |key|] == s[i..i + |key|][1..]; }
  }

  lemma {:induction false} NoMarker(headers: seq<string>, tail: string, i: nat)
    requires headers != [] && i + 1 < |Text(headers)| && '\n' !in headers[0]
    requires forall k :: 1 <= k < |headers| ==> '\n' !in headers[k] && !StartsAt(headers[k], 0, "@@")
    ensures !StartsAt(Text(headers) + tail, i, HUNK)
  {
    var text := Text(headers) + tail;
    if text[i] != '\n' {
      StartsNot(text, i, HUNK, 0);
    } else {
      KeyLine(headers, tail, "@@", i + 1);
      StartsTail(text, i, HUNK);
      assert HUNK[1..] == "@@";
    }
  }

  lemma {:induction false} ChompSame(lines: seq<string>)
    requires forall i :: 0 <= i < |lines| ==> IsLine(lines[i])
    ensures ChompAll(lines) == lines
  {}

  lemma DescribeHeaders(f: File)
    requires WellFormed(f)
    ensures Lines(FileText(f)) != [] && Lines(FileText(f))[0] == f.headers[0]
    ensures f.hunks == [] ==> Lines(FileText(f)) == f.headers
  {
    LinesOfText(f.headers + f.hunks);
    assert (f.headers + f.hunks)[0] == f.headers[0];
    if f.hunks == [] {
      assert f.headers + f.hunks == f.headers;
      ChompSame(f.headers);
    }
  }

  /** The parts of a file's text in front of and behind the newline that ends its headers */
  lemma TextParts(f: File)
    requires WellFormed(f) && f.hunks != []
    ensures var chunk, head := FileText(f), Text(f.headers);
      0 < |head| <= |chunk| && chunk[..|head| - 1] + "\n" == head && chunk[|head|..] == Text(f.hunks)
  {
    TextAppend(f.headers, f.hunks);
    TextEnds(f.headers);
  }

  lemma {:induction false} OpenHeaders(f: File, open: string)
    requires WellFormed(f) && open + "\n" == Text(f.headers)
    ensures Lines(open) == f.headers
  {
    LinesOfOpenText(open, f.headers);
    ChompSame(f.headers);
  }

  lemma {:induction false} HunkCounts(hunks: seq<string>)
    requires forall k :: 0 <= k < |hunks| ==> '\n' !in hunks[k]
    ensures Count(Lines(Text(hunks)), '+') == Count(hunks, '+') && Count(Lines(Text(hunks)), '-') == Count(hunks, '-')
  {
    LinesOfText(hunks);
    CountChomped(hunks, '+');
    CountChomped(hunks, '-');
  }

  /** Only the counts of the hunks are summed up */
  lemma SummarySame(chunk: string, p: Parts, q: Parts)
    requires p.first == q.first && p.headers == q.headers && p.hunks.Some? && q.hunks.Some?
    requires Count(p.hunks.value, '+') == Count(q.hunks.value, '+')
    requires Count(p.hunks.value, '-') == Count(q.hunks.value, '-')
    ensures Summary(chunk, p) == Summary(chunk, q)
  {}

  lemma {:induction false} DescribeAt(chunk: string, i: nat, first: string, headers: seq<string>, behind: string)
    requires i < |chunk| && Find(chunk, HUNK, 0) == Some(i)
    requires FirstOf(Lines(chunk)) == first && Lines(chunk[..i]) == headers && chunk[i + 1..] == behind
    ensures Describe(chunk) == Summary(chunk, Parts(first, headers, Some(Lines(behind))))
  {}

  lemma {:induction false} DescribeWhole(chunk: string, headers: seq<string>)
    requires Find(chunk, HUNK, 0) == None && Lines(chunk) == headers
    ensures Describe(chunk) == Summary(chunk, Parts(FirstOf(headers), headers, None))
  {}

  /** The parts as they are found in the text */
  function FoundParts(f: File): Parts { Parts(FirstOf(f.headers), f.headers, Some(Lines(Text(f.hunks)))) }

  lemma DescribeFound(f: File)
    requires WellFormed(f) && f.hunks != []
    ensures Describe(FileText(f)) == Summary(FileText(f), FoundParts(f))
  {
    var chunk, i := FileText(f), |Text(f.headers)| - 1;
    MarkerIs(f);
    assert FirstOf(Lines(chunk)) == f.headers[0] by { DescribeHeaders(f); }
    TextParts(f);
    assert Lines(chunk[..i]) == f.headers by { OpenHeaders(f, chunk[..i]); }
    DescribeAt(chunk, i, f.headers[0], f.headers, Text(f.hunks));
  }

  lemma SummaryFound(f: File)
    requires WellFormed(f) && f.hunks != []
    ensures Summary(FileText(f), FoundParts(f)) == Expected(f)
  {
    HunkCounts(f.hunks);
    SummarySame(FileText(f), FoundParts(f), OwnParts(f));
  }

  /** A file's patch is described from exactly its own headers and hunks */
  lemma DescribeFile(f: File)
    requires WellFormed(f)
    ensures Describe(FileText(f)) == Expected(f)
  {
    if f.hunks == [] {
      MarkerIs(f);
      DescribeHeaders(f);
      DescribeWhole(FileText(f), f.headers);
    } else {
      DescribeFound(f);
      SummaryFound(f);
    }
  }

  lemma {:induction false} ChunksOfAll(files: seq<File>, patch: string)
    requires (forall i :: 0 <= i < |files| ==> WellFormed(files[i])) && patch == AllText(files)
    ensures Chunks(patch, AtLineStart(patch, Matches(patch, 0))) == FileTexts(files)
  {
    MatchesMissNothing(patch, 0);
    assert patch[0..] == patch;
    ChunksOfFiles(patch, 0, files);
  }

  function ExpectedAll(files: seq<File>): seq<FilePatch> {
    if files == [] then [] else [Expected(files[0])] + ExpectedAll(files[1..])
  }

  lemma {:induction false} DescribeFiles(files: seq<File>)
    requires forall i :: 0 <= i < |files| ==> WellFormed(files[i])
    ensures DescribeAll(FileTexts(files)) == ExpectedAll(files)
  {
    if files != [] {
      DescribeFile(files[0]);
      DescribeFiles(files[1..]);
      assert FileTexts(files)[1..] == FileTexts(files[1..]);
    }
  }

  /** Splitting the patches of many files gives each file's own text, in order, with the paths and status
      of its headers and the exact number of lines its hunks add and delete */
  lemma {:induction false} SplitUndoesConcat(files: seq<File>)
    requires forall i :: 0 <= i < |files| ==> WellFormed(files[i])
    ensures SplitPatch(AllText(files)) == ExpectedAll(files)
  {
    ChunksOfAll(files, AllText(files));
    DescribeFiles(files);
  }

  // ----- the paths of a split

  /** What git names a file in the two sides of its header */
  datatype Sides = Sides(was: string, now: string, raw: bool)

  predicate Titled(f: File, s: Sides) {
    && IsBytes(s.was) && IsBytes(s.now) && s.was != "" && s.now != ""
    && WellFormed(f) && f.headers[0] == Header(s.was, s.now, s.raw)
  }

  /** The header tells the new path */
  predicate Told(s: Sides) { NeedsQuotes(s.was, s.raw) || NeedsQuotes(s.now, s.raw) || !Misleads(s.was) }

  /** A rename names the old path, quoted when that is needed */
  predicate RenamedFrom(f: File, s: Sides)
    requires IsBytes(s.was)
  {
    HeaderValue(f.headers, "rename from ") == Some(Side("", s.was, s.raw))
  }

  lemma RenameIsRead(was: string, raw: bool)
    requires IsBytes(was)
    ensures HeaderPath(Side("", was, raw)) == was
  {
    var side := Side("", was, raw);
    if NeedsQuotes(was, raw) {
      assert side[1..|side| - 1] == "" + Quote(was, raw) == Quote(was, raw);
      UnquoteUndoesQuote(was, raw);
    } else {
      assert side == was;
      PlainHasNoQuote(was, raw);
    }
  }

  lemma ExpectedPaths(f: File, s: Sides)
    requires Titled(f, s)
    ensures Expected(f).path == s.now <==> Told(s)
    ensures RenamedFrom(f, s) ==> Expected(f).oldPath == Some(s.was)
  {
    DiffPathExactly(s.was, s.now, s.raw);
    RenameIsRead(s.was, s.raw);
  }

  lemma {:induction false} ExpectedAt(files: seq<File>, i: nat)
    requires i < |files|
    ensures |ExpectedAll(files)| == |files| && ExpectedAll(files)[i] == Expected(files[i])
  {
    if |files| > 1 { ExpectedAt(files[1..], if i == 0 then 0 else i - 1); }
  }

  predicate AllTitled(files: seq<File>, sides: seq<Sides>) {
    |sides| == |files| && forall i :: 0 <= i < |files| ==> Titled(files[i], sides[i])
  }

  /** A description with the new path if and only if the header tells it, and a rename's old path in any case */
  predicate Names(d: FilePatch, f: File, s: Sides)
    requires IsBytes(s.was)
  {
    (d.path == s.now <==> Told(s)) && (RenamedFrom(f, s) ==> d.oldPath == Some(s.was))
  }

  lemma {:induction false} NamesAt(files: seq<File>, sides: seq<Sides>, split: seq<FilePatch>, i: nat)
    requires AllTitled(files, sides) && i < |files| && split == ExpectedAll(files)
    ensures |split| == |files| && Names(split[i], files[i], sides[i])
  {
    assert Titled(files[i], sides[i]);
    ExpectedAt(files, i);
    ExpectedPaths(files[i], sides[i]);
  }

  lemma TitledIsWellFormed(files: seq<File>, sides: seq<Sides>)
    requires AllTitled(files, sides)
    ensures forall i :: 0 <= i < |files| ==> WellFormed(files[i])
  {
    forall i | 0 <= i < |files| ensures WellFormed(files[i]) { assert Titled(files[i], sides[i]); }
  }

  /** Splitting the patches of many files gives one description a file, in order: its path is the new one if and only
      if its header tells it, and a rename's old path always comes back */
  lemma {:induction false} SplitPathsExactly(files: seq<File>, sides: seq<Sides>)
    requires AllTitled(files, sides)
    ensures var split := SplitPatch(AllText(files));
      |split| == |files| && forall i :: 0 <= i < |files| ==> Names(split[i], files[i], sides[i])
  {
    TitledIsWellFormed(files, sides);
    SplitUndoesConcat(files);
    var split := SplitPatch(AllText(files));
    forall i | 0 <= i < |files| ensures |split| == |files| && Names(split[i], files[i], sides[i]) {
      NamesAt(files, sides, split, i);
    }
  }
}
