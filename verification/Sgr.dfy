/** Cell styles, the SGR sequence the serializer prints for one, and how a terminal reads it back
    (ECMA-48 section 8.3.117, with colon sub-parameters for the underline styles). */
module Sgr {
  import opened Wrappers

  /** Named colors 0-15 are the palette; above them are the defaults, the cursor and the dim variants */
  datatype Color = Named(n: nat) | Indexed(i: nat) | Rgb(r: nat, g: nat, b: nat)

  const FOREGROUND := 256
  const BACKGROUND := 257

  datatype Flag =
    | Bold | Dim | Italic | Underline | DoubleUnderline | Undercurl | DottedUnderline | DashedUnderline
    | Inverse | Hidden | Strikeout

  datatype Style = Style(fg: Color, bg: Color, flags: set<Flag>, underline: Option<Color>)

  const DEFAULT := Style(Named(FOREGROUND), Named(BACKGROUND), {}, None)

  /** A parameter and its colon separated sub-parameters */
  type Param = seq<nat>

  // ----- printing

  /** The order write_sgr goes through the flags in */
  const ORDER: seq<Flag> :=
    [Bold, Dim, Italic]
    + [Underline, DoubleUnderline, Undercurl, DottedUnderline, DashedUnderline]
    + [Inverse, Hidden, Strikeout]

  function Code(f: Flag): Param {
    match f
    case Bold => [1]
    case Dim => [2]
    case Italic => [3]
    case Underline => [4]
    case DoubleUnderline => [4, 2]
    case Undercurl => [4, 3]
    case DottedUnderline => [4, 4]
    case DashedUnderline => [4, 5]
    case Inverse => [7]
    case Hidden => [8]
    case Strikeout => [9]
  }

  function FlagParams(order: seq<Flag>, flags: set<Flag>): seq<Param> {
    if order == [] then [] else (if order[0] in flags then [Code(order[0])] else []) + FlagParams(order[1..], flags)
  }

  /** `base` for colors 0-7, `bright` for 8-15, `extended` for the 256 palette and truecolor */
  function ColorParams(c: Color, base: nat, bright: nat, extended: nat): seq<Param> {
    match c
    case Named(n) =>
      if n < 16 && base == extended then [[extended], [5], [n]]
      else if n < 8 then [[base + n]]
      else if n < 16 then [[bright + n - 8]]
      else []
    case Indexed(i) => [[extended], [5], [i]]
    case Rgb(r, g, b) => [[extended], [2], [r], [g], [b]]
  }

  function UnderlineParams(c: Option<Color>): seq<Param> {
    if c.Some? then ColorParams(c.value, 58, 58, 58) else []
  }

  function ColorsParams(s: Style): seq<Param> {
    ColorParams(s.fg, 30, 90, 38) + ColorParams(s.bg, 40, 100, 48)
    + UnderlineParams(s.underline)
  }

  function Params(s: Style): seq<Param> {
    [[0]] + FlagParams(ORDER, s.flags) + ColorsParams(s)
  }

  /** A color prints nothing exactly if it is a default or a dim one, and a code of its own only if it is one of the
      sixteen */
  lemma PrintedCodes(c: Color, base: nat, extended: nat)
    requires (base == 30 && extended == 38) || (base == 40 && extended == 48)
    ensures var params := ColorParams(c, base, base + 60, extended);
      && (params == [] <==> c.Named? && c.n >= 16)
      && (|params| == 1 ==>
            c.Named? && |params[0]| == 1
            && (base <= params[0][0] <= base + 7 || base + 60 <= params[0][0] <= base + 67))
    ensures UnderlineParams(Some(c)) == [] <==> c.Named? && c.n >= 16
  {}

  // ----- reading

  const UNDERLINES := {Underline, DoubleUnderline, Undercurl, DottedUnderline, DashedUnderline}

  /** A terminal keeps one underline style at a time */
  function SetFlag(flags: set<Flag>, f: Flag): set<Flag> {
    (if f in UNDERLINES then flags - UNDERLINES else flags) + {f}
  }

  function FlagOf(p: Param): Option<Flag> {
    if p == [1] then Some(Bold)
    else if p == [2] then Some(Dim)
    else if p == [3] then Some(Italic)
    else if p == [4] then Some(Underline)
    else if p == [4, 2] then Some(DoubleUnderline)
    else if p == [4, 3] then Some(Undercurl)
    else if p == [4, 4] then Some(DottedUnderline)
    else if p == [4, 5] then Some(DashedUnderline)
    else if p == [7] then Some(Inverse)
    else if p == [8] then Some(Hidden)
    else if p == [9] then Some(Strikeout)
    else None
  }

  /** The color after 38, 48 or 58, and how many parameters it takes */
  function ExtendedColor(rest: seq<Param>): Option<(Color, nat)> {
    if |rest| >= 2 && rest[0] == [5] && |rest[1]| == 1 then Some((Indexed(rest[1][0]), 2))
    else if |rest| >= 4 && rest[0] == [2] && |rest[1]| == |rest[2]| == |rest[3]| == 1
    then Some((Rgb(rest[1][0], rest[2][0], rest[3][0]), 4))
    else None
  }

  function SetExtended(pen: Style, which: nat, c: Color): Style {
    if which == 38 then pen.(fg := c) else if which == 48 then pen.(bg := c) else pen.(underline := Some(c))
  }

  /** A parameter that stands on its own */
  function ReadOne(p: Param, pen: Style): Style {
    if FlagOf(p).Some? then pen.(flags := SetFlag(pen.flags, FlagOf(p).value))
    else if |p| != 1 then pen
    else if p[0] == 0 then DEFAULT
    else if 30 <= p[0] < 38 then pen.(fg := Named(p[0] - 30))
    else if p[0] == 39 then pen.(fg := Named(FOREGROUND))
    else if 40 <= p[0] < 48 then pen.(bg := Named(p[0] - 40))
    else if p[0] == 49 then pen.(bg := Named(BACKGROUND))
    else if p[0] == 59 then pen.(underline := None)
    else if 90 <= p[0] < 98 then pen.(fg := Named(p[0] - 90 + 8))
    else if 100 <= p[0] < 108 then pen.(bg := Named(p[0] - 100 + 8))
    else pen
  }

  predicate IsExtended(p: Param) { p == [38] || p == [48] || p == [58] }

  function Read(params: seq<Param>, pen: Style): Style
    decreases |params|
  {
    if params == [] then pen
    else if IsExtended(params[0]) then
      match ExtendedColor(params[1..])
      case Some((c, n)) =>
        if 1 + n <= |params| then Read(params[1 + n..], SetExtended(pen, params[0][0], c)) else pen
      case None => pen
    else Read(params[1..], ReadOne(params[0], pen))
  }

  // ----- the round trip

  function SetAll(order: seq<Flag>, flags: set<Flag>, to: set<Flag>): set<Flag> {
    if order == [] then to
    else SetAll(order[1..], flags, if order[0] in flags then SetFlag(to, order[0]) else to)
  }

  function ReadColor(c: Color, default: nat): Color {
    if c.Named? && c.n >= 16 then Named(default) else c
  }

  function ReadUnderline(c: Option<Color>): Option<Color> {
    match c
    case Some(Named(n)) => if n < 16 then Some(Indexed(n)) else None
    case _ => c
  }

  /** What is left of a style after it is printed and read back */
  function Readable(s: Style): Style {
    Style(ReadColor(s.fg, FOREGROUND), ReadColor(s.bg, BACKGROUND), SetAll(ORDER, s.flags, {}),
      ReadUnderline(s.underline))
  }

  lemma FlagOfCode(f: Flag)
    ensures FlagOf(Code(f)) == Some(f) && !IsExtended(Code(f))
  {}

  lemma {:induction false} ReadFlags(order: seq<Flag>, flags: set<Flag>, rest: seq<Param>, pen: Style)
    ensures Read(FlagParams(order, flags) + rest, pen) == Read(rest, pen.(flags := SetAll(order, flags, pen.flags)))
  {
    if order == [] {
      assert FlagParams(order, flags) + rest == rest;
    } else {
      var tail := FlagParams(order[1..], flags);
      if order[0] in flags {
        var code := Code(order[0]);
        FlagOfCode(order[0]);
        assert FlagParams(order, flags) + rest == [code] + (tail + rest);
        assert ([code] + (tail + rest))[1..] == tail + rest;
        ReadFlags(order[1..], flags, rest, pen.(flags := SetFlag(pen.flags, order[0])));
      } else {
        assert FlagParams(order, flags) + rest == tail + rest;
        ReadFlags(order[1..], flags, rest, pen);
      }
    }
  }

  lemma {:induction false} ReadExtended(which: nat, c: Color, rest: seq<Param>, pen: Style)
    requires which == 38 || which == 48 || which == 58
    requires !c.Named?
    ensures Read(ColorParams(c, which, which, which) + rest, pen) == Read(rest, SetExtended(pen, which, c))
  {
    var all := ColorParams(c, which, which, which) + rest;
    var n := if c.Rgb? then 4 else 2;
    assert all[0] == [which];
    assert all[1..][0] == all[1] && all[1..][1] == all[2];
    assert ExtendedColor(all[1..]) == Some((c, n));
    assert all[1 + n..] == rest;
  }

  lemma {:induction false} ReadSingle(p: Param, rest: seq<Param>, pen: Style)
    requires !IsExtended(p)
    ensures Read([p] + rest, pen) == Read(rest, ReadOne(p, pen))
  {
    assert ([p] + rest)[1..] == rest;
  }

  /** A named color as the one parameter it is printed as */
  lemma NamedFg(n: nat, pen: Style)
    requires n < 16
    ensures var p := if n < 8 then 30 + n else 90 + n - 8;
      ColorParams(Named(n), 30, 90, 38) == [[p]] && !IsExtended([p]) && ReadOne([p], pen) == pen.(fg := Named(n))
  {}

  lemma NamedBg(n: nat, pen: Style)
    requires n < 16
    ensures var p := if n < 8 then 40 + n else 100 + n - 8;
      ColorParams(Named(n), 40, 100, 48) == [[p]] && !IsExtended([p]) && ReadOne([p], pen) == pen.(bg := Named(n))
  {}

  lemma {:induction false} ReadFg(c: Color, rest: seq<Param>, pen: Style)
    ensures Read(ColorParams(c, 30, 90, 38) + rest, pen) ==
            Read(rest, if c.Named? && c.n >= 16 then pen else pen.(fg := c))
  {
    if !c.Named? {
      assert ColorParams(c, 30, 90, 38) == ColorParams(c, 38, 38, 38);
      ReadExtended(38, c, rest, pen);
    } else if c.n >= 16 {
      assert [] + rest == rest;
    } else {
      NamedFg(c.n, pen);
      ReadSingle([if c.n < 8 then 30 + c.n else 90 + c.n - 8], rest, pen);
    }
  }

  lemma {:induction false} ReadBg(c: Color, rest: seq<Param>, pen: Style)
    ensures Read(ColorParams(c, 40, 100, 48) + rest, pen) ==
            Read(rest, if c.Named? && c.n >= 16 then pen else pen.(bg := c))
  {
    if !c.Named? {
      assert ColorParams(c, 40, 100, 48) == ColorParams(c, 48, 48, 48);
      ReadExtended(48, c, rest, pen);
    } else if c.n >= 16 {
      assert [] + rest == rest;
    } else {
      NamedBg(c.n, pen);
      ReadSingle([if c.n < 8 then 40 + c.n else 100 + c.n - 8], rest, pen);
    }
  }

  lemma {:induction false} ReadUnderlineColor(c: Option<Color>, pen: Style)
    requires pen.underline == None
    ensures Read(UnderlineParams(c), pen) == pen.(underline := ReadUnderline(c))
  {
    if c.Some? {
      var params := ColorParams(c.value, 58, 58, 58);
      assert params + [] == params;
      if !c.value.Named? {
        ReadExtended(58, c.value, [], pen);
      } else if c.value.n < 16 {
        assert ColorParams(Indexed(c.value.n), 58, 58, 58) == params;
        ReadExtended(58, Indexed(c.value.n), [], pen);
      }
    }
  }

  lemma {:induction false} ReadColors(s: Style, pen: Style)
    requires pen.fg == Named(FOREGROUND) && pen.bg == Named(BACKGROUND) && pen.underline == None
    ensures Read(ColorsParams(s), pen) == pen.(fg := ReadColor(s.fg, FOREGROUND), bg := ReadColor(s.bg, BACKGROUND),
                                               underline := ReadUnderline(s.underline))
  {
    var fg, bg := ColorParams(s.fg, 30, 90, 38), ColorParams(s.bg, 40, 100, 48);
    var underline := UnderlineParams(s.underline);
    Assoc(fg, bg, underline);
    ReadFg(s.fg, bg + underline, pen);
    var p1 := pen.(fg := ReadColor(s.fg, FOREGROUND));
    ReadBg(s.bg, underline, p1);
    ReadUnderlineColor(s.underline, p1.(bg := ReadColor(s.bg, BACKGROUND)));
  }

  /** Whatever the pen was, reading what write_sgr prints leaves the readable part of the style */
  lemma {:induction false} ReadParams(s: Style, pen: Style)
    ensures Read(Params(s), pen) == Readable(s)
  {
    var flags, colors := FlagParams(ORDER, s.flags), ColorsParams(s);
    Assoc([[0]], flags, colors);
    ReadSingle([0], flags + colors, pen);
    ReadFlags(ORDER, s.flags, colors, DEFAULT);
    ReadColors(s, DEFAULT.(flags := SetAll(ORDER, s.flags, {})));
  }

  predicate OneUnderline(flags: set<Flag>) {
    forall f, g :: f in flags && g in flags && f in UNDERLINES && g in UNDERLINES ==> f == g
  }

  lemma {:induction false} SetAllKeepsOne(order: seq<Flag>, flags: set<Flag>, to: set<Flag>)
    requires OneUnderline(to)
    ensures OneUnderline(SetAll(order, flags, to))
  {
    if order != [] {
      SetAllKeepsOne(order[1..], flags, if order[0] in flags then SetFlag(to, order[0]) else to);
    }
  }

  lemma {:induction false} SetAllOfOne(order: seq<Flag>, flags: set<Flag>, to: set<Flag>)
    requires OneUnderline(flags) && to <= flags
    ensures SetAll(order, flags, to) == to + (set f | f in order && f in flags)
  {
    if order != [] {
      var to' := if order[0] in flags then SetFlag(to, order[0]) else to;
      if order[0] in flags { assert to' == to + {order[0]}; }
      SetAllOfOne(order[1..], flags, to');
      assert forall f :: f in order <==> f == order[0] || f in order[1..];
    }
  }

  /** The styles that come back as they were: default or printable colors, an underline color that is not
      a named one, and at most one underline style */
  predicate Printable(s: Style) {
    && (s.fg.Named? ==> s.fg.n < 16 || s.fg.n == FOREGROUND)
    && (s.bg.Named? ==> s.bg.n < 16 || s.bg.n == BACKGROUND)
    && (s.underline.Some? ==> !s.underline.value.Named?)
    && OneUnderline(s.flags)
  }

  lemma EveryFlagInOrder(f: Flag)
    ensures f in ORDER
  {
    assert ORDER[0] == Bold && ORDER[1] == Dim && ORDER[2] == Italic && ORDER[3] == Underline;
    assert ORDER[4] == DoubleUnderline && ORDER[5] == Undercurl && ORDER[6] == DottedUnderline;
    assert ORDER[7] == DashedUnderline;
    assert ORDER[8] == Inverse && ORDER[9] == Hidden && ORDER[10] == Strikeout;
  }

  /** A style survives printing and reading if and only if it is printable */
  lemma {:induction false} StyleRoundTrips(s: Style, pen: Style)
    ensures Read(Params(s), pen) == s <==> Printable(s)
  {
    ReadParams(s, pen);
    SetAllKeepsOne(ORDER, s.flags, {});
    if OneUnderline(s.flags) {
      SetAllOfOne(ORDER, s.flags, {});
      forall f | f in s.flags ensures f in ORDER { EveryFlagInOrder(f); }
      assert (set f | f in ORDER && f in s.flags) == s.flags;
    }
  }

  lemma ReadableIsPrintable(s: Style)
    ensures Printable(Readable(s)) && (Readable(s) == s <==> Printable(s))
  {
    StyleRoundTrips(s, DEFAULT);
    ReadParams(s, DEFAULT);
    SetAllKeepsOne(ORDER, s.flags, {});
  }

  // ----- styles that do not come back

  /** Of two underline kinds the terminal keeps the one it reads last */
  lemma {:induction false} TwoUnderlinesAreLost(pen: Style)
    ensures var s := DEFAULT.(flags := {Underline, Undercurl}); Read(Params(s), pen) != s
  {
    var s := DEFAULT.(flags := {Underline, Undercurl});
    assert Underline in s.flags && Undercurl in s.flags;
    StyleRoundTrips(s, pen);
  }

  /** It comes back as the indexed color of the same number */
  lemma {:induction false} NamedUnderlineIsLost(n: nat, pen: Style)
    requires n < 16
    ensures var s := DEFAULT.(underline := Some(Named(n)));
      Read(Params(s), pen) == s.(underline := Some(Indexed(n))) != s
  {
    var s, back := DEFAULT.(underline := Some(Named(n))), DEFAULT.(underline := Some(Indexed(n)));
    ReadParams(s, pen);
    ReadableIsPrintable(back);
  }

  const DIM_BLACK := 259

  /** The dim colors print nothing, so the default one comes back */
  lemma {:induction false} DimColorIsLost(pen: Style)
    ensures var s := DEFAULT.(fg := Named(DIM_BLACK)); Read(Params(s), pen) == DEFAULT != s
  {
    var s := DEFAULT.(fg := Named(DIM_BLACK));
    ReadParams(s, pen);
    ReadableIsPrintable(DEFAULT);
  }
}
