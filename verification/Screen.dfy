/** The part of a terminal the serializer relies on: printing with deferred wrap, wide characters and
    their spacers, combining marks, carriage return, line feed scrolling into history, SGR and cursor
    positioning, first as operations and then as the text that asks for them. A row that scrolls in is
    erased with the pen's background. */
module Screen {
  import opened Sgr
  import opened Text

  datatype Shape = Narrow | Wide | Spacer | LeadingSpacer

  /** `wrap` is the WRAPLINE flag, which the last cell of a row carries when the text goes on below */
  datatype Cell = Cell(c: char, marks: string, style: Style, shape: Shape, wrap: bool)

  type Row = seq<Cell>

  const BLANK := Cell(' ', "", DEFAULT, Narrow, false)

  /** `width` is the display width of a character: 0 for a combining mark, 1, or 2 for a wide one */
  datatype Geometry = Geometry(cols: nat, rows: nat, scrollback: nat, width: char -> nat)

  ghost predicate ValidGeometry(g: Geometry) {
    g.cols >= 2 && g.rows >= 1 && g.width(' ') == 1
  }

  datatype Term = Term(history: seq<Row>, screen: seq<Row>, line: nat, col: nat, wrapNext: bool, pen: Style)

  predicate Valid(g: Geometry, t: Term) {
    && g.cols >= 2 && |t.screen| == g.rows && t.line < g.rows && t.col < g.cols
    && |t.history| <= g.scrollback
    && forall r :: r in t.screen ==> |r| == g.cols
  }

  /** What a terminal is asked to do */
  datatype Op =
    | Ris
    | Pen(params: seq<Param>)
    | Return
    | Feed
    | Goto(row: nat, column: nat)     // one-based
    | Print(c: char)

  // ----- the terminal

  function Filled(g: Geometry, cell: Cell): (r: Row)
    ensures |r| == g.cols && forall i :: 0 <= i < g.cols ==> r[i] == cell
  {
    seq(g.cols, _ => cell)
  }

  function Erased(pen: Style): Cell {
    BLANK.(style := DEFAULT.(bg := pen.bg))
  }

  function Fresh(g: Geometry): (t: Term)
    requires g.cols >= 2 && g.rows >= 1
    ensures Valid(g, t)
  {
    Term([], seq(g.rows, _ => Filled(g, BLANK)), 0, 0, false, DEFAULT)
  }

  /** The top row goes into the history, which drops its oldest row when it is full */
  function LineFeed(g: Geometry, t: Term): (t': Term)
    requires Valid(g, t)
    ensures Valid(g, t') && t'.col == t.col && t'.pen == t.pen
  {
    if t.line + 1 < g.rows then t.(line := t.line + 1)
    else
      var grown := t.history + [t.screen[0]];
      t.(history := if |grown| > g.scrollback then grown[1..] else grown,
         screen := t.screen[1..] + [Filled(g, Erased(t.pen))])
  }

  /** The row the cursor is on, with the cursor and the pen */
  datatype Strip = Strip(cells: Row, col: nat, wrapNext: bool, pen: Style)

  predicate ValidStrip(g: Geometry, s: Strip) {
    |s.cells| == g.cols && s.col < g.cols
  }

  function Focus(g: Geometry, t: Term): (s: Strip)
    requires Valid(g, t)
    ensures ValidStrip(g, s)
  {
    Strip(t.screen[t.line], t.col, t.wrapNext, t.pen)
  }

  function Refocus(g: Geometry, t: Term, s: Strip): (t': Term)
    requires Valid(g, t) && ValidStrip(g, s)
    ensures Valid(g, t')
  {
    t.(screen := t.screen[t.line := s.cells], col := s.col, wrapNext := s.wrapNext, pen := s.pen)
  }

  function Put(g: Geometry, s: Strip, cell: Cell): (s': Strip)
    requires ValidStrip(g, s)
    ensures ValidStrip(g, s')
  {
    s.(cells := s.cells[s.col := cell])
  }

  function Advance(g: Geometry, s: Strip): (s': Strip)
    requires ValidStrip(g, s)
    ensures ValidStrip(g, s')
  {
    if s.col + 1 < g.cols then s.(col := s.col + 1) else s.(wrapNext := true)
  }

  /** A combining mark joins the character before the cursor */
  function PutMark(g: Geometry, s: Strip, c: char): (s': Strip)
    requires ValidStrip(g, s)
    ensures ValidStrip(g, s')
  {
    var col := if s.wrapNext || s.col == 0 then s.col else s.col - 1;
    var at := if s.cells[col].shape.Spacer? && col > 0 then col - 1 else col;
    s.(cells := s.cells[at := s.cells[at].(marks := s.cells[at].marks + [c])])
  }

  /** A character goes into the strip, which has room for it */
  function PutChar(g: Geometry, s: Strip, c: char): (s': Strip)
    requires ValidStrip(g, s)
    ensures ValidStrip(g, s')
  {
    if g.width(c) == 0 then PutMark(g, s, c)
    else if g.width(c) == 1 || s.col + 1 >= g.cols then Advance(g, Put(g, s, Cell(c, "", s.pen, Narrow, false)))
    else
      var s1 := Put(g, s, Cell(c, "", s.pen, Wide, false)).(col := s.col + 1);
      Advance(g, Put(g, s1, Cell(' ', "", s.pen, Spacer, false)))
  }

  function WrapLine(g: Geometry, t: Term): (t': Term)
    requires Valid(g, t)
    ensures Valid(g, t') && t'.col == 0 && !t'.wrapNext && t'.pen == t.pen
  {
    var s := Focus(g, t);
    LineFeed(g, Refocus(g, t, Put(g, s, s.cells[s.col].(wrap := true)))).(col := 0, wrapNext := false)
  }

  /** Whether a character fits where the cursor is */
  predicate HasRoom(g: Geometry, s: Strip, c: char) {
    g.width(c) == 0 || (!s.wrapNext && (g.width(c) == 1 || s.col + 1 < g.cols))
  }

  /** Makes room on the next row; a wide character leaves a spacer at the edge it did not fit */
  function MakeRoom(g: Geometry, t: Term, c: char): (t': Term)
    requires Valid(g, t)
    ensures Valid(g, t')
  {
    if HasRoom(g, Focus(g, t), c) then t
    else if t.wrapNext then WrapLine(g, t)
    else WrapLine(g, Refocus(g, t, Put(g, Focus(g, t), Cell(' ', "", t.pen, LeadingSpacer, false))))
  }

  function PrintChar(g: Geometry, t: Term, c: char): (t': Term)
    requires Valid(g, t)
    ensures Valid(g, t')
  {
    var t1 := MakeRoom(g, t, c);
    Refocus(g, t1, PutChar(g, Focus(g, t1), c))
  }

  function Do(g: Geometry, t: Term, op: Op): (t': Term)
    requires Valid(g, t)
    ensures Valid(g, t')
  {
    match op
    case Ris => Fresh(g)
    case Pen(params) => t.(pen := Read(params, t.pen))
    case Return => t.(col := 0, wrapNext := false)
    case Feed => LineFeed(g, t)
    case Goto(row, column) =>
      t.(line := if row == 0 then 0 else if row > g.rows then g.rows - 1 else row - 1,
         col := if column == 0 then 0 else if column > g.cols then g.cols - 1 else column - 1,
         wrapNext := false)
    case Print(c) => PrintChar(g, t, c)
  }

  function DoAll(g: Geometry, t: Term, ops: seq<Op>): (t': Term)
    requires Valid(g, t)
    ensures Valid(g, t')
    decreases |ops|
  {
    if ops == [] then t else DoAll(g, Do(g, t, ops[0]), ops[1..])
  }

  lemma {:induction false} DoAllAppend(g: Geometry, t: Term, a: seq<Op>, b: seq<Op>)
    requires Valid(g, t)
    ensures DoAll(g, t, a + b) == DoAll(g, DoAll(g, t, a), b)
    decreases |a|
  {
    if a == [] {
      assert a + b == b;
    } else {
      assert (a + b)[1..] == a[1..] + b;
      DoAllAppend(g, Do(g, t, a[0]), a[1..], b);
    }
  }

  // ----- the text

  const ESC: char := 0x1b as char

  predicate Shows(c: char) { c >= ' ' && c != 0x7f as char }

  predicate ValidOp(op: Op) {
    match op
    case Pen(params) => params != [] && forall i :: 0 <= i < |params| ==> params[i] != []
    case Print(c) => Shows(c)
    case _ => true
  }

  /** The number of operations that have no text of their own */
  function Misprints(ops: seq<Op>): nat {
    if ops == [] then 0 else (if ValidOp(ops[0]) then 0 else 1) + Misprints(ops[1..])
  }

  predicate Printing(ops: seq<Op>) { Misprints(ops) == 0 }

  function ParamText(p: Param): string {
    if p == [] then "" else if |p| == 1 then Digits(p[0]) else Digits(p[0]) + [':'] + ParamText(p[1..])
  }

  function ParamsText(ps: seq<Param>): string {
    if ps == [] then "" else if |ps| == 1 then ParamText(ps[0]) else ParamText(ps[0]) + [';'] + ParamsText(ps[1..])
  }

  function OpText(op: Op): string {
    match op
    case Ris => [ESC, 'c']
    case Pen(params) => [ESC, '['] + ParamsText(params) + ['m']
    case Return => ['\r']
    case Feed => ['\n']
    case Goto(row, column) => [ESC, '['] + ParamsText([[row], [column]]) + ['H']
    case Print(c) => [c]
  }

  function OpsText(ops: seq<Op>): string {
    if ops == [] then "" else OpText(ops[0]) + OpsText(ops[1..])
  }

  datatype Scan = Scan(params: seq<Param>, rest: string)

  /** The parameters of a control sequence, up to its final byte */
  function ScanParams(s: string, done: seq<Param>, sub: Param, acc: nat): (r: Scan)
    ensures |r.rest| <= |s|
    decreases |s|
  {
    if s == [] then Scan(done + [sub + [acc]], [])
    else if IsDigit(s[0]) then ScanParams(s[1..], done, sub, 10 * acc + DigitValue(s[0]))
    else if s[0] == ':' then ScanParams(s[1..], done, sub + [acc], 0)
    else if s[0] == ';' then ScanParams(s[1..], done + [sub + [acc]], [], 0)
    else Scan(done + [sub + [acc]], s)
  }

  /** The operations a terminal finds in a text; sequences the serializer never prints are skipped */
  function Lex(s: string): seq<Op>
    decreases |s|
  {
    if s == [] then []
    else if s[0] == '\r' then [Return] + Lex(s[1..])
    else if s[0] == '\n' then [Feed] + Lex(s[1..])
    else if s[0] != ESC then [Print(s[0])] + Lex(s[1..])
    else if |s| >= 2 && s[1] == 'c' then [Ris] + Lex(s[2..])
    else if |s| >= 2 && s[1] == '[' then
      var scan := ScanParams(s[2..], [], [], 0);
      if scan.rest == [] then []
      else if scan.rest[0] == 'm' then [Pen(scan.params)] + Lex(scan.rest[1..])
      else if scan.rest[0] == 'H' && |scan.params| == 2 && |scan.params[0]| == |scan.params[1]| == 1
      then [Goto(scan.params[0][0], scan.params[1][0])] + Lex(scan.rest[1..])
      else Lex(scan.rest[1..])
    else Lex(s[1..])
  }

  lemma {:induction false} ScanDigits(n: nat, rest: string, done: seq<Param>, sub: Param)
    ensures ScanParams(Digits(n) + rest, done, sub, 0) == ScanParams(rest, done, sub, n)
  {
    if n < 10 {
      assert (Digits(n) + rest)[1..] == rest;
    } else {
      var last := [Digit(n % 10)];
      assert Digits(n) + rest == Digits(n / 10) + (last + rest);
      ScanDigits(n / 10, last + rest, done, sub);
      assert (last + rest)[1..] == rest;
    }
  }

  /** What the scan does once a parameter is complete */
  function Complete(rest: string, done: seq<Param>): Scan
    requires rest != []
  {
    if rest[0] == ';' then ScanParams(rest[1..], done, [], 0) else Scan(done, rest)
  }

  lemma {:induction false} ScanParam(p: Param, rest: string, done: seq<Param>, sub: Param)
    requires p != [] && rest != [] && !IsDigit(rest[0]) && rest[0] != ':'
    ensures ScanParams(ParamText(p) + rest, done, sub, 0) == Complete(rest, done + [sub + p])
    decreases |p|
  {
    if |p| == 1 {
      ScanDigits(p[0], rest, done, sub);
      assert sub + p == sub + [p[0]];
    } else {
      var tail := ParamText(p[1..]) + rest;
      ScanSub(p, tail, rest, done, sub);
      ScanParam(p[1..], rest, done, sub + [p[0]]);
      assert sub + [p[0]] + p[1..] == sub + p;
    }
  }

  lemma {:induction false} ScanSub(p: Param, tail: string, rest: string, done: seq<Param>, sub: Param)
    requires |p| > 1 && tail == ParamText(p[1..]) + rest
    ensures ScanParams(ParamText(p) + rest, done, sub, 0) == ScanParams(tail, done, sub + [p[0]], 0)
  {
    assert ParamText(p) + rest == Digits(p[0]) + ([':'] + tail);
    ScanDigits(p[0], [':'] + tail, done, sub);
    assert ([':'] + tail)[1..] == tail;
  }

  lemma {:induction false} ParamsSplit(ps: seq<Param>, rest: string)
    requires |ps| > 1
    ensures ParamsText(ps) + rest == ParamText(ps[0]) + ([';'] + (ParamsText(ps[1..]) + rest))
  {}

  lemma ParamApart(done: seq<Param>, ps: seq<Param>)
    requires ps != []
    ensures done + [ps[0]] + ps[1..] == done + ps
  {}

  lemma {:induction false} AfterSemicolon(tail: string, done: seq<Param>)
    ensures Complete([';'] + tail, done) == ScanParams(tail, done, [], 0)
  {
    assert ([';'] + tail)[1..] == tail;
  }

  lemma {:induction false} ScanAll(ps: seq<Param>, rest: string, done: seq<Param>)
    requires ps != [] && (forall i :: 0 <= i < |ps| ==> ps[i] != [])
    requires rest != [] && !IsDigit(rest[0]) && rest[0] != ':' && rest[0] != ';'
    ensures ScanParams(ParamsText(ps) + rest, done, [], 0) == Scan(done + ps, rest)
    decreases |ps|
  {
    assert [] + ps[0] == ps[0];
    if |ps| == 1 {
      ScanParam(ps[0], rest, done, []);
      assert done + [ps[0]] == done + ps;
    } else {
      var tail := ParamsText(ps[1..]) + rest;
      ParamsSplit(ps, rest);
      ScanParam(ps[0], [';'] + tail, done, []);
      AfterSemicolon(tail, done + [ps[0]]);
      ScanAll(ps[1..], rest, done + [ps[0]]);
      ParamApart(done, ps);
    }
  }

  lemma SequenceTail(params: string, final: char, rest: string)
    ensures ([ESC, '['] + params + [final] + rest)[2..] == params + ([final] + rest)
  {}

  lemma {:induction false} ScanSequence(params: seq<Param>, final: char, rest: string)
    requires params != [] && (forall i :: 0 <= i < |params| ==> params[i] != [])
    requires final == 'm' || final == 'H'
    ensures ScanParams(([ESC, '['] + ParamsText(params) + [final] + rest)[2..], [], [], 0)
            == Scan(params, [final] + rest)
  {
    SequenceTail(ParamsText(params), final, rest);
    ScanAll(params, [final] + rest, []);
    assert [] + params == params;
  }

  lemma {:induction false} LexSequence(params: seq<Param>, final: char, rest: string)
    requires params != [] && (forall i :: 0 <= i < |params| ==> params[i] != [])
    requires final == 'm' || (final == 'H' && |params| == 2 && |params[0]| == |params[1]| == 1)
    ensures Lex([ESC, '['] + ParamsText(params) + [final] + rest) ==
            [if final == 'm' then Pen(params) else Goto(params[0][0], params[1][0])] + Lex(rest)
  {
    var s := [ESC, '['] + ParamsText(params) + [final] + rest;
    ScanSequence(params, final, rest);
    assert s[0] == ESC && s[1] == '[' && |s| >= 2;
    assert ([final] + rest)[1..] == rest;
  }

  lemma {:induction false} LexOp(op: Op, rest: string)
    requires ValidOp(op)
    ensures Lex(OpText(op) + rest) == [op] + Lex(rest)
  {
    match op
    case Pen(params) => LexSequence(params, 'm', rest);
    case Goto(row, column) => LexSequence([[row], [column]], 'H', rest);
    case Ris => assert ([ESC, 'c'] + rest)[2..] == rest;
    case Return => assert (['\r'] + rest)[1..] == rest;
    case Feed => assert (['\n'] + rest)[1..] == rest;
    case Print(c) => assert ([c] + rest)[1..] == rest;
  }

  /** A terminal reads back exactly the operations that were printed */
  lemma {:induction false} LexUndoesPrinting(ops: seq<Op>)
    requires Printing(ops)
    ensures Lex(OpsText(ops)) == ops
  {
    if ops != [] {
      LexOp(ops[0], OpsText(ops[1..]));
      LexUndoesPrinting(ops[1..]);
    }
  }

  lemma {:induction false} OpsTextAppend(a: seq<Op>, b: seq<Op>)
    ensures OpsText(a + b) == OpsText(a) + OpsText(b)
  {
    if a == [] {
      assert a + b == b;
    } else {
      assert (a + b)[1..] == a[1..] + b;
      OpsTextAppend(a[1..], b);
    }
  }
}
