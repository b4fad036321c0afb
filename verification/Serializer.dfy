/** The serializer's own loops, which push text onto one buffer while they keep the pen and whether the
    row above wrapped; each is proved to print exactly the operations of its specification. */
module Serializer {
  import opened Wrappers
  import opened Sgr
  import opened Screen
  import opened Snapshot
  import opened RoundTrip

  lemma {:induction false} ParamsTextSnoc(a: seq<Param>, b: seq<Param>)
    requires a != []
    ensures ParamsText(a + b) == ParamsText(a) + TailText(b)
    decreases |a|
  {
    if |a| == 1 {
      if b == [] {
        assert a + b == a;
      } else {
        assert (a + b)[1..] == b;
        TailIsRest(b);
      }
    } else {
      assert (a + b)[1..] == a[1..] + b;
      ParamsTextSnoc(a[1..], b);
    }
  }

  /** Parameters that follow others, each after its semicolon */
  function TailText(ps: seq<Param>): string {
    if ps == [] then "" else [';'] + ParamText(ps[0]) + TailText(ps[1..])
  }

  lemma {:induction false} TailIsRest(ps: seq<Param>)
    requires ps != []
    ensures TailText(ps) == [';'] + ParamsText(ps)
  {
    if |ps| == 1 {
      assert TailText(ps[1..]) == "";
    } else {
      TailIsRest(ps[1..]);
    }
  }

  lemma {:induction false} TailTextAppend(a: seq<Param>, b: seq<Param>)
    ensures TailText(a + b) == TailText(a) + TailText(b)
  {
    if a == [] {
      assert a + b == b;
    } else {
      assert (a + b)[1..] == a[1..] + b;
      TailTextAppend(a[1..], b);
    }
  }

  /** A color's parameters; the default colors print nothing */
  method WriteColor(color: Color, base: nat, bright: nat, extended: nat) returns (out: string)
    ensures out == TailText(ColorParams(color, base, bright, extended))
  {
    match color {
      case Named(n) =>
        if n < 16 && base == extended {
          out := TailText([[extended], [5], [n]]);
        } else if n < 8 {
          out := TailText([[base + n]]);
        } else if n < 16 {
          out := TailText([[bright + n - 8]]);
        } else {
          out := "";
        }
      case Indexed(i) => out := TailText([[extended], [5], [i]]);
      case Rgb(r, g, b) => out := TailText([[extended], [2], [r], [g], [b]]);
    }
  }

  method WriteFlags(flags: set<Flag>) returns (out: string)
    ensures out == TailText(FlagParams(ORDER, flags))
  {
    out := WriteInOrder(ORDER, flags);
  }

  /** The text of the flags from place `i` on */
  function FlagsText(order: seq<Flag>, i: nat, flags: set<Flag>): string
    requires i <= |order|
  {
    TailText(FlagParams(order[i..], flags))
  }

  method WriteInOrder(order: seq<Flag>, flags: set<Flag>) returns (out: string)
    ensures out == TailText(FlagParams(order, flags))
  {
    out := "";
    FlagsEnds(order, flags);
    for i := 0 to |order|
      invariant out + FlagsText(order, i, flags) == TailText(FlagParams(order, flags))
    {
      FlagsStep(order, i, flags);
      if order[i] in flags {
        Assoc(out, FlagText(order[i]), FlagsText(order, i + 1, flags));
        out := out + FlagText(order[i]);
      }
    }
  }

  function FlagText(flag: Flag): string { [';'] + ParamText(Code(flag)) }

  lemma {:induction false} FlagsEnds(order: seq<Flag>, flags: set<Flag>)
    ensures FlagsText(order, 0, flags) == TailText(FlagParams(order, flags)) && FlagsText(order, |order|, flags) == ""
  {
    assert order[0..] == order && order[|order|..] == [];
  }

  lemma FlagsStep(order: seq<Flag>, i: nat, flags: set<Flag>)
    requires i < |order|
    ensures FlagsText(order, i, flags)
            == if order[i] in flags then FlagText(order[i]) + FlagsText(order, i + 1, flags)
               else FlagsText(order, i + 1, flags)
  {
    var rest := FlagParams(order[i + 1..], flags);
    assert order[i..][1..] == order[i + 1..];
    if order[i] in flags {
      assert ([Code(order[i])] + rest)[1..] == rest;
    } else {
      assert [] + rest == rest;
    }
  }

  method WriteSgr(style: Style) returns (out: string)
    ensures out == OpText(Pen(Params(style)))
  {
    var flags := WriteFlags(style.flags);
    var fg := WriteColor(style.fg, 30, 90, 38);
    var bg := WriteColor(style.bg, 40, 100, 48);
    var underline := "";
    if style.underline.Some? {
      underline := WriteColor(style.underline.value, 58, 58, 58);
    }
    out := [ESC, '['] + "0" + flags + fg + bg + underline + ['m'];
    ColorsText(style);
    Glue(flags, fg, bg, underline);
    SgrText(FlagParams(ORDER, style.flags), ColorsParams(style));
  }

  lemma Glue(flags: string, fg: string, bg: string, underline: string)
    ensures [ESC, '['] + "0" + flags + fg + bg + underline + ['m']
            == [ESC, '['] + ("0" + (flags + (fg + bg + underline))) + ['m']
  {}

  lemma ColorsText(s: Style)
    ensures TailText(ColorsParams(s)) ==
      TailText(ColorParams(s.fg, 30, 90, 38)) + TailText(ColorParams(s.bg, 40, 100, 48))
      + (if s.underline.Some? then TailText(ColorParams(s.underline.value, 58, 58, 58)) else "")
  {
    var fg, bg := ColorParams(s.fg, 30, 90, 38), ColorParams(s.bg, 40, 100, 48);
    var underline := if s.underline.Some? then ColorParams(s.underline.value, 58, 58, 58) else [];
    TailTextAppend(fg, bg);
    TailTextAppend(fg + bg, underline);
  }

  lemma {:induction false} SgrText(flags: seq<Param>, colors: seq<Param>)
    ensures OpText(Pen([[0]] + flags + colors)) == [ESC, '['] + ("0" + (TailText(flags) + TailText(colors))) + ['m']
  {
    var zero: seq<Param> := [[0]];
    assert ParamsText(zero) == "0";
    TailTextAppend(flags, colors);
    ParamsTextSnoc(zero, flags + colors);
    assert zero + flags + colors == zero + (flags + colors);
  }

  method WriteMarks(marks: string) returns (out: string)
    ensures out == OpsText(MarkOps(marks))
  {
    out := "";
    for i := 0 to |marks|
      invariant out + OpsText(MarkOps(marks[i..])) == OpsText(MarkOps(marks))
    {
      assert marks[i..][1..] == marks[i + 1..];
      assert MarkOps(marks[i..])[1..] == MarkOps(marks[i + 1..]);
      out := out + [marks[i]];
    }
  }

  method WriteCell(pen: Style, cell: Cell) returns (out: string, pen': Style)
    ensures out == OpsText(CellOps(pen, cell)) && pen' == cell.style
  {
    out := "";
    if cell.style != pen {
      out := WriteSgr(cell.style);
      OneText(Pen(Params(cell.style)));
    }
    pen' := cell.style;
    out := out + [if cell.c == '\t' then ' ' else cell.c];
    var marks := WriteMarks(cell.marks);
    CellText(pen, cell);
    out := out + marks;
  }

  lemma CellText(pen: Style, cell: Cell)
    ensures OpsText(CellOps(pen, cell))
            == OpsText(PenOps(pen, cell.style)) + [Visible(cell.c)] + OpsText(MarkOps(cell.marks))
  {
    var shown := Print(Visible(cell.c));
    OpsTextAppend(PenOps(pen, cell.style) + [shown], MarkOps(cell.marks));
    OpsTextAppend(PenOps(pen, cell.style), [shown]);
    OneText(shown);
  }

  method WriteRow(row: Row, end: nat, pen0: Style) returns (out: string, pen: Style)
    requires end <= |row|
    ensures out == OpsText(RowOps(pen0, row, 0, end)) && pen == RowPen(pen0, row, 0, end)
  {
    out, pen := "", pen0;
    for col := 0 to end
      invariant out + OpsText(RowOps(pen, row, col, end)) == OpsText(RowOps(pen0, row, 0, end))
      invariant RowPen(pen, row, col, end) == RowPen(pen0, row, 0, end)
    {
      if !IsSpacer(row[col]) {
        OpsTextAppend(CellOps(pen, row[col]), RowOps(row[col].style, row, col + 1, end));
        var cell, pen' := WriteCell(pen, row[col]);
        out, pen := out + cell, pen';
      }
    }
  }

  /** One past the last cell that is not a default one */
  method LastUsed(row: Row) returns (end: nat)
    ensures end == Used(row)
  {
    end := |row|;
    while end > 0 && row[end - 1] == BLANK
      invariant end <= |row| && Used(row[..end]) == Used(row)
    {
      assert row[..end][..end - 1] == row[..end - 1];
      end := end - 1;
    }
  }

  method WriteBreak(pen: Style) returns (out: string)
    ensures out == OpsText(BreakOps(pen))
  {
    BreakText(pen);
    out := "";
    if pen != DEFAULT {
      out := [ESC, '['] + "0" + ['m'];
    }
    out := out + ['\r', '\n'];
  }

  /** One pass of the loop over the rows */
  method WriteLine(lines: seq<Row>, i: nat, pen0: Style, prevWrapped: bool) returns (out: string, pen: Style,
                   wrapped: bool)
    requires i < |lines| && prevWrapped == (i > 0 && Wrapped(lines[i - 1]))
    ensures wrapped == Wrapped(lines[i]) && pen == RowPen(PenBefore(lines, i, pen0), lines[i], 0, End(lines[i]))
    ensures out == OpsText(BeforeOps(lines, i, pen0))
                   + OpsText(RowOps(PenBefore(lines, i, pen0), lines[i], 0, End(lines[i])))
  {
    var row := lines[i];
    wrapped := row != [] && row[|row| - 1].wrap;
    var end := |row|;
    if !wrapped { end := LastUsed(row); }
    pen, out := pen0, "";
    if i > 0 && !(prevWrapped && end > 0) {
      out := WriteBreak(pen);
      pen := DEFAULT;
    }
    var text, pen' := WriteRow(row, end, pen);
    out, pen := out + text, pen';
  }

  method WriteGrid(g: Geometry, lines: seq<Row>) returns (out: string)
    ensures out == OpsText(LinesOps(lines, 0, DEFAULT))
  {
    out := "";
    var pen, prevWrapped := DEFAULT, false;
    for i := 0 to |lines|
      invariant prevWrapped == (i > 0 && Wrapped(lines[i - 1]))
      invariant out + OpsText(LinesOps(lines, i, pen)) == OpsText(LinesOps(lines, 0, DEFAULT))
    {
      LinesText(lines, i, pen);
      var text, pen', wrapped := WriteLine(lines, i, pen, prevWrapped);
      Assoc(out, text, OpsText(LinesOps(lines, i + 1, pen')));
      out, pen, prevWrapped := out + text, pen', wrapped;
    }
    ResetText();
    Assoc(out, [ESC, '['], "0" + ['m']);
    out := out + ([ESC, '['] + "0" + ['m']);
  }

  lemma ResetText()
    ensures OpsText(RESET) == [ESC, '['] + "0" + ['m']
  {
    assert RESET[1..] == [];
    var zero: seq<Param> := [[0]];
    assert ParamsText(zero) == "0";
  }

  lemma BreakText(pen: Style)
    ensures OpsText(BreakOps(pen)) == (if pen == DEFAULT then "" else [ESC, '['] + "0" + ['m']) + ['\r', '\n']
  {
    assert NEW_LINE[1..] == [Feed] && NEW_LINE[1..][1..] == [];
    assert OpsText(NEW_LINE) == ['\r'] + (['\n'] + "");
    if pen == DEFAULT {
      assert BreakOps(pen) == NEW_LINE;
    } else {
      ResetText();
      OpsTextAppend(RESET, NEW_LINE);
    }
  }

  lemma LinesText(lines: seq<Row>, i: nat, pen: Style)
    requires i < |lines|
    ensures var pen1 := PenBefore(lines, i, pen);
      OpsText(LinesOps(lines, i, pen)) ==
      OpsText(BeforeOps(lines, i, pen)) + OpsText(RowOps(pen1, lines[i], 0, End(lines[i])))
      + OpsText(LinesOps(lines, i + 1, RowPen(pen1, lines[i], 0, End(lines[i]))))
  {
    var pen1 := PenBefore(lines, i, pen);
    var row, rest := RowOps(pen1, lines[i], 0, End(lines[i])),
      LinesOps(lines, i + 1, RowPen(pen1, lines[i], 0, End(lines[i])));
    OpsTextAppend(BeforeOps(lines, i, pen) + row, rest);
    OpsTextAppend(BeforeOps(lines, i, pen), row);
  }

  /** Rewrites the last cell of the cursor's row when the wrap is pending */
  method WriteRewrite(g: Geometry, t: Term) returns (out: string)
    requires Valid(g, t)
    ensures out == OpsText(RewriteOps(g, t))
  {
    out := "";
    if t.wrapNext && !IsSpacer(LastCell(g, t)) {
      var text, _ := WriteCell(DEFAULT, LastCell(g, t));
      out := text;
    }
  }

  method WriteCursor(g: Geometry, t: Term) returns (out: string)
    requires Valid(g, t)
    ensures out == OpsText(CursorOps(g, t))
  {
    var go := Where(g, t);
    var last := WriteRewrite(g, t);
    var pen := WriteSgr(t.pen);
    CursorText(go, RewriteOps(g, t), Pen(Params(t.pen)));
    out := OpText(go) + last + pen;
  }

  lemma {:induction false} CursorText(go: Op, mid: seq<Op>, pen: Op)
    ensures OpsText([go] + mid + [pen]) == OpText(go) + OpsText(mid) + OpText(pen)
  {
    OpsTextAppend([go] + mid, [pen]);
    OpsTextAppend([go], mid);
    OneText(go);
    OneText(pen);
  }

  lemma OneText(op: Op)
    ensures OpsText([op]) == OpText(op)
  {
    assert [op][1..] == [];
  }

  /** The snapshot of a primary screen */
  method Serialize(g: Geometry, t: Term, maxHistory: nat) returns (out: string)
    requires Valid(g, t)
    ensures out == OpsText(SnapshotOps(g, t, maxHistory))
  {
    var lines := Lines(t, maxHistory);
    var grid := WriteGrid(g, lines);
    var cursor := WriteCursor(g, t);
    out := [ESC, 'c'] + grid + cursor;
    OpsTextAppend([Ris] + LinesOps(lines, 0, DEFAULT), CursorOps(g, t));
    OpsTextAppend([Ris], LinesOps(lines, 0, DEFAULT));
    OneText(Ris);
  }
}
