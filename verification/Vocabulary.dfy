/** Correcting a transcript by the vocabulary: whole words that spell an alias or a term in any case become
    the term as written. Text is taken character by character; what the characters are is a parameter. */
module Vocabulary {
  import opened Wrappers

  /** The lower case of one character, and the classes of characters the program and its library ask for */
  datatype Script = Script(
    lower: char -> string,
    alnum: char -> bool,
    space: char -> bool,
    cased: char -> bool,
    ignorable: char -> bool)

  const SIGMA := '\U{3A3}'
  const MEDIAL := '\U{3C3}'
  const FINAL := '\U{3C2}'

  datatype Term = Term(text: string, aliases: seq<string>)

  type Entry = (string, string)

  /** No character vanishes in lower case, and on its own a capital sigma becomes the medial one */
  ghost predicate Sound(s: Script) { (forall c :: s.lower(c) != "") && s.lower(SIGMA) == [MEDIAL] }

  function Lowered(s: Script, text: string): string {
    if text == "" then "" else s.lower(text[0]) + Lowered(s, text[1..])
  }

  // ----- the key of an alias: trimmed, and in the lower case of a whole text

  function Trim(s: Script, text: string): string
    decreases |text|
  {
    if text == "" then ""
    else if s.space(text[0]) then Trim(s, text[1..])
    else if s.space(text[|text| - 1]) then Trim(s, text[..|text| - 1])
    else text
  }

  /** Whether the first character that counts is a cased one */
  predicate CasedAhead(s: Script, text: string) {
    text != "" && if s.ignorable(text[0]) then CasedAhead(s, text[1..]) else s.cased(text[0])
  }

  predicate CasedBehind(s: Script, text: string) {
    text != "" && var c := text[|text| - 1]; if s.ignorable(c) then CasedBehind(s, text[..|text| - 1]) else s.cased(c)
  }

  /** A capital sigma at the end of a word of more than one letter */
  predicate FinalSigma(s: Script, text: string, i: nat)
    requires i < |text|
  {
    text[i] == SIGMA && CasedBehind(s, text[..i]) && !CasedAhead(s, text[i + 1..])
  }

  predicate HasFinalSigma(s: Script, text: string) {
    exists i: nat :: i < |text| && FinalSigma(s, text, i)
  }

  function LowerAt(s: Script, text: string, i: nat): string
    requires i < |text|
  {
    if FinalSigma(s, text, i) then [FINAL] else s.lower(text[i])
  }

  /** The first `n` characters of a text in lower case */
  function LowerText(s: Script, text: string, n: nat): string
    requires n <= |text|
  {
    if n == 0 then "" else LowerText(s, text, n - 1) + LowerAt(s, text, n - 1)
  }

  function Fold(s: Script, alias: string): string {
    var trimmed := Trim(s, alias);
    LowerText(s, trimmed, |trimmed|)
  }

  // ----- the reference: a map from keys to terms, and positions in the input

  /** Definitions in order, later ones over earlier ones; an alias that folds to nothing defines nothing */
  function Define(s: Script, dict: map<string, string>, names: seq<string>, text: string): map<string, string>
    decreases |names|
  {
    if names == [] then dict else
    var key := Fold(s, names[0]);
    Define(s, if key == "" then dict else dict[key := text], names[1..], text)
  }

  function Dictionary(s: Script, dict: map<string, string>, terms: seq<Term>): map<string, string>
    decreases |terms|
  {
    if terms == [] then dict
    else Dictionary(s, Define(s, dict, terms[0].aliases + [terms[0].text], terms[0].text), terms[1..])
  }

  predicate WordStart(s: Script, input: string, at: nat)
    requires at <= |input|
  {
    at == 0 || !s.alnum(input[at - 1])
  }

  /** `n` characters from `at` on spell a key, and no word goes on behind them */
  predicate Whole(s: Script, dict: map<string, string>, input: string, at: nat, n: nat) {
    && 0 < n && at + n <= |input| && Lowered(s, input[at..at + n]) in dict
    && (at + n == |input| || !s.alnum(input[at + n]))
  }

  /** The longest such stretch of at most `n` characters, or 0 */
  function Longest(s: Script, dict: map<string, string>, input: string, at: nat, n: nat): (k: nat)
    ensures k <= n && (k > 0 ==> Whole(s, dict, input, at, k))
    ensures forall m :: k < m <= n ==> !Whole(s, dict, input, at, m)
  {
    if n == 0 || Whole(s, dict, input, at, n) then n else Longest(s, dict, input, at, n - 1)
  }

  /** What is replaced at a position, or 0 when its character is copied */
  function Taken(s: Script, dict: map<string, string>, input: string, at: nat): (n: nat)
    requires at <= |input|
    ensures n > 0 ==> Whole(s, dict, input, at, n)
  {
    if WordStart(s, input, at) then Longest(s, dict, input, at, |input| - at) else 0
  }

  function Corrected(s: Script, dict: map<string, string>, input: string, at: nat): string
    requires at <= |input|
    decreases |input| - at
  {
    if at == |input| then "" else
    var n := Taken(s, dict, input, at);
    if n > 0 then dict[Lowered(s, input[at..at + n])] + Corrected(s, dict, input, at + n)
    else [input[at]] + Corrected(s, dict, input, at + 1)
  }

  // ----- the segmentation is unique

  datatype Piece = Copy | Swap(n: nat)

  function Len(piece: Piece): nat { if piece.Swap? then piece.n else 1 }

  /** No more than `n` characters from `at` on are a key */
  ghost predicate NoLonger(s: Script, dict: map<string, string>, input: string, at: nat, n: nat) {
    forall m :: n < m ==> !Whole(s, dict, input, at, m)
  }

  /** At a word start that can be replaced stands its longest key, anywhere else a copied character */
  ghost predicate Fitting(s: Script, dict: map<string, string>, input: string, at: nat, piece: Piece) {
    && at < |input|
    && match piece
       case Swap(n) => WordStart(s, input, at) && Whole(s, dict, input, at, n) && NoLonger(s, dict, input, at, n)
       case Copy => WordStart(s, input, at) ==> NoLonger(s, dict, input, at, 0)
  }

  /** How far such pieces reach from `at` on */
  ghost function Reach(s: Script, dict: map<string, string>, input: string, at: nat, pieces: seq<Piece>): Option<nat>
    decreases |pieces|
  {
    if pieces == [] then Some(at)
    else if Fitting(s, dict, input, at, pieces[0]) then Reach(s, dict, input, at + Len(pieces[0]), pieces[1..])
    else None
  }

  /** A cut of the input from `at` on into such pieces */
  ghost predicate Cuts(s: Script, dict: map<string, string>, input: string, at: nat, pieces: seq<Piece>) {
    Reach(s, dict, input, at, pieces) == Some(|input|)
  }

  function Shown(s: Script, dict: map<string, string>, input: string, at: nat, piece: Piece): string {
    if at + Len(piece) > |input| then ""
    else if piece.Copy? then [input[at]]
    else if Lowered(s, input[at..at + piece.n]) in dict then dict[Lowered(s, input[at..at + piece.n])]
    else ""
  }

  function Rendered(s: Script, dict: map<string, string>, input: string, at: nat, pieces: seq<Piece>): string
    decreases |pieces|
  {
    if pieces == [] then ""
    else Shown(s, dict, input, at, pieces[0]) + Rendered(s, dict, input, at + Len(pieces[0]), pieces[1..])
  }

  function First(s: Script, dict: map<string, string>, input: string, at: nat): (p: Piece)
    requires at < |input|
    ensures at < at + Len(p) <= |input|
  {
    if Taken(s, dict, input, at) > 0 then Swap(Taken(s, dict, input, at)) else Copy
  }

  function Pieces(s: Script, dict: map<string, string>, input: string, at: nat): seq<Piece>
    requires at <= |input|
    decreases |input| - at
  {
    if at == |input| then []
    else [First(s, dict, input, at)] + Pieces(s, dict, input, at + Len(First(s, dict, input, at)))
  }

  lemma FittingIsFirst(s: Script, dict: map<string, string>, input: string, at: nat, piece: Piece)
    requires at < |input|
    ensures Fitting(s, dict, input, at, piece) <==> piece == First(s, dict, input, at)
  {
    var n := Taken(s, dict, input, at);
    if WordStart(s, input, at) {
      assert forall m :: m > |input| - at ==> !Whole(s, dict, input, at, m);
      assert NoLonger(s, dict, input, at, n);
    }
  }

  lemma CorrectedStep(s: Script, dict: map<string, string>, input: string, at: nat, piece: Piece)
    requires at < |input| && piece == First(s, dict, input, at)
    ensures Corrected(s, dict, input, at)
            == Shown(s, dict, input, at, piece) + Corrected(s, dict, input, at + Len(piece))
  {}

  lemma PiecesStep(s: Script, dict: map<string, string>, input: string, at: nat, pieces: seq<Piece>, first: Piece,
                   rest: seq<Piece>)
    requires at < |input| && pieces != [] && first == pieces[0] == First(s, dict, input, at) && rest == pieces[1..]
    requires rest == Pieces(s, dict, input, at + Len(first))
    ensures pieces == Pieces(s, dict, input, at)
  {
    assert pieces == [first] + rest;
  }

  lemma {:induction false} CutsAreUnique(s: Script, dict: map<string, string>, input: string, at: nat,
                                         pieces: seq<Piece>)
    requires at <= |input| && Cuts(s, dict, input, at, pieces)
    ensures pieces == Pieces(s, dict, input, at)
    decreases |pieces|
  {
    if pieces != [] {
      FittingIsFirst(s, dict, input, at, pieces[0]);
      CutsAreUnique(s, dict, input, at + Len(pieces[0]), pieces[1..]);
      PiecesStep(s, dict, input, at, pieces, pieces[0], pieces[1..]);
    }
  }

  lemma {:induction false} RenderedIsCorrected(s: Script, dict: map<string, string>, input: string, at: nat,
                                               pieces: seq<Piece>)
    requires at <= |input| && Cuts(s, dict, input, at, pieces)
    ensures Rendered(s, dict, input, at, pieces) == Corrected(s, dict, input, at)
    decreases |pieces|
  {
    if pieces != [] {
      FittingIsFirst(s, dict, input, at, pieces[0]);
      CorrectedStep(s, dict, input, at, pieces[0]);
      RenderedIsCorrected(s, dict, input, at + Len(pieces[0]), pieces[1..]);
    }
  }

  lemma {:induction false} PiecesCut(s: Script, dict: map<string, string>, input: string, at: nat)
    requires at <= |input|
    ensures Cuts(s, dict, input, at, Pieces(s, dict, input, at))
    decreases |input| - at
  {
    if at < |input| {
      var first := First(s, dict, input, at);
      var rest := Pieces(s, dict, input, at + Len(first));
      FittingIsFirst(s, dict, input, at, first);
      PiecesCut(s, dict, input, at + Len(first));
      assert ([first] + rest)[1..] == rest;
    }
  }

  /** There is exactly one such cut of the input, and its rendering is the corrected text */
  lemma {:induction false} OneSegmentation(s: Script, dict: map<string, string>, input: string, pieces: seq<Piece>)
    ensures Cuts(s, dict, input, 0, pieces) <==> pieces == Pieces(s, dict, input, 0)
    ensures Cuts(s, dict, input, 0, pieces) ==> Rendered(s, dict, input, 0, pieces) == Corrected(s, dict, input, 0)
  {
    PiecesCut(s, dict, input, 0);
    if Cuts(s, dict, input, 0, pieces) {
      CutsAreUnique(s, dict, input, 0, pieces);
      RenderedIsCorrected(s, dict, input, 0, pieces);
    }
  }

  // ----- matching in any case

  lemma {:induction false} LoweredSnoc(s: Script, text: string, c: char)
    ensures Lowered(s, text + [c]) == Lowered(s, text) + s.lower(c)
  {
    if text == "" {
      assert text + [c] == [c] && [c][1..] == "";
    } else {
      assert (text + [c])[1..] == text[1..] + [c];
      LoweredSnoc(s, text[1..], c);
    }
  }

  /** A longer prefix has a longer lower case, which starts with the shorter one's */
  lemma {:induction false} LoweredGrows(s: Script, input: string, n: nat, m: nat)
    requires n <= m <= |input|
    ensures Lowered(s, input[..n]) <= Lowered(s, input[..m])
    ensures Sound(s) && n < m ==> |Lowered(s, input[..n])| < |Lowered(s, input[..m])|
    decreases m
  {
    if n < m {
      assert input[..m] == input[..m - 1] + [input[m - 1]];
      LoweredSnoc(s, input[..m - 1], input[m - 1]);
      LoweredGrows(s, input, n, m - 1);
    }
  }

  ghost predicate Spells(s: Script, input: string, key: string, n: nat) {
    n <= |input| && Lowered(s, input[..n]) == key
  }

  lemma {:induction false} NotSpelled(s: Script, input: string, key: string, len: nat)
    requires len <= |input|
    requires !(Lowered(s, input[..len]) <= key)
    ensures forall n :: len <= n ==> !Spells(s, input, key, n)
  {
    forall n | len <= n ensures !Spells(s, input, key, n) {
      if n <= |input| { LoweredGrows(s, input, len, n); }
    }
  }

  /** Takes the characters of `low` off `wanted` one by one */
  method Eat(low: string, wanted: string) returns (r: Option<string>)
    ensures r.Some? <==> low <= wanted
    ensures r.Some? ==> wanted == low + r.value
  {
    var rest := wanted;
    for i := 0 to |low|
      invariant wanted == low[..i] + rest
    {
      if rest == "" || rest[0] != low[i] {
        assert rest != "" ==> wanted[i] == rest[0];
        return None;
      }
      assert low[..i + 1] == low[..i] + [low[i]];
      rest := rest[1..];
    }
    assert low[..|low|] == low;
    return Some(rest);
  }

  lemma PrefixCancels(front: string, a: string, b: string)
    ensures front + a <= front + b <==> a <= b
  {
    assert (front + b)[|front|..] == b && (front + a)[|front|..] == a;
    if front + a <= front + b { assert forall i :: 0 <= i < |a| ==> a[i] == (front + a)[|front| + i] == b[i]; }
  }

  lemma {:induction false} Differs(s: Script, input: string, key: string, len: nat, wanted: string)
    requires len < |input| && key == Lowered(s, input[..len]) + wanted && wanted != ""
    requires !(s.lower(input[len]) <= wanted)
    ensures forall n: nat :: !Spells(s, input, key, n)
  {
    var front, low := Lowered(s, input[..len]), s.lower(input[len]);
    assert input[..len + 1] == input[..len] + [input[len]];
    LoweredSnoc(s, input[..len], input[len]);
    PrefixCancels(front, low, wanted);
    NotSpelled(s, input, key, len + 1);
    forall n: nat | n <= len ensures !Spells(s, input, key, n) { LoweredGrows(s, input, n, len); }
  }

  lemma SpelledOnce(s: Script, input: string, key: string, len: nat)
    requires Sound(s) && Spells(s, input, key, len)
    ensures forall m: nat :: Spells(s, input, key, m) ==> m == len
  {
    forall m: nat | Spells(s, input, key, m) ensures m == len {
      if m < len { LoweredGrows(s, input, m, len); } else { LoweredGrows(s, input, len, m); }
    }
  }

  lemma {:induction false} TooShort(s: Script, input: string, key: string, wanted: string)
    requires key == Lowered(s, input) + wanted && wanted != ""
    ensures forall n: nat :: !Spells(s, input, key, n)
  {
    forall n: nat | n <= |input| ensures !Spells(s, input, key, n) {
      LoweredGrows(s, input, n, |input|);
      assert input[..|input|] == input;
    }
  }

  /** The number of characters at the start of `input` that spell `key` in any case */
  method MatchIgnoringCase(s: Script, input: string, key: string) returns (r: Option<nat>)
    requires Sound(s)
    ensures r.Some? ==> Spells(s, input, key, r.value) && forall m: nat :: Spells(s, input, key, m) ==> m == r.value
    ensures r.None? ==> forall n: nat :: !Spells(s, input, key, n)
  {
    var wanted, len := key, 0;
    while len < |input| && wanted != ""
      invariant len <= |input| && key == Lowered(s, input[..len]) + wanted
      decreases |input| - len
    {
      var left := Eat(s.lower(input[len]), wanted);
      if left.None? {
        Differs(s, input, key, len, wanted);
        return None;
      }
      assert input[..len + 1] == input[..len] + [input[len]];
      LoweredSnoc(s, input[..len], input[len]);
      wanted, len := left.value, len + 1;
    }
    if wanted == "" {
      SpelledOnce(s, input, key, len);
      return Some(len);
    }
    assert input[..len] == input;
    TooShort(s, input, key, wanted);
    return None;
  }

  // ----- final sigmas

  /** Character by character a text is as long in lower case as it is as a whole */
  lemma {:induction false} LowerLengths(s: Script, text: string, n: nat)
    requires Sound(s) && n <= |text|
    ensures |LowerText(s, text, n)| == |Lowered(s, text[..n])|
  {
    if n > 0 {
      LowerLengths(s, text, n - 1);
      assert text[..n] == text[..n - 1] + [text[n - 1]];
      LoweredSnoc(s, text[..n - 1], text[n - 1]);
    }
  }

  lemma {:induction false} LowerSame(s: Script, text: string, n: nat)
    requires n <= |text| && forall i: nat :: i < n ==> !FinalSigma(s, text, i)
    ensures LowerText(s, text, n) == Lowered(s, text[..n])
  {
    if n > 0 {
      LowerSame(s, text, n - 1);
      assert text[..n] == text[..n - 1] + [text[n - 1]];
      LoweredSnoc(s, text[..n - 1], text[n - 1]);
    }
  }

  lemma {:induction false} LowerTextGrows(s: Script, text: string, n: nat, m: nat)
    requires n <= m <= |text|
    ensures LowerText(s, text, n) <= LowerText(s, text, m)
  {
    if n < m { LowerTextGrows(s, text, n, m - 1); }
  }

  lemma PrefixAt(a: string, b: string, k: nat, c: char)
    requires a <= b && k < |a| && a[k] == c
    ensures k < |b| && b[k] == c
  {}

  /** As a whole the word has a final sigma where the sigma was */
  lemma {:induction false} FinalAt(s: Script, text: string, i: nat)
    requires Sound(s) && i < |text| && FinalSigma(s, text, i)
    ensures var k := |Lowered(s, text[..i])|; k < |LowerText(s, text, |text|)| && LowerText(s, text, |text|)[k] == FINAL
  {
    var k := |LowerText(s, text, i)|;
    LowerLengths(s, text, i);
    LowerTextGrows(s, text, i + 1, |text|);
    PrefixAt(LowerText(s, text, i + 1), LowerText(s, text, |text|), k, FINAL);
  }

  /** And character by character a medial one */
  lemma {:induction false} MedialAt(s: Script, text: string, i: nat)
    requires Sound(s) && i < |text| && text[i] == SIGMA
    ensures var k := |Lowered(s, text[..i])|; k < |Lowered(s, text)| && Lowered(s, text)[k] == MEDIAL
  {
    assert text[..i + 1] == text[..i] + [SIGMA] && text[..|text|] == text;
    LoweredSnoc(s, text[..i], SIGMA);
    LoweredGrows(s, text, i + 1, |text|);
    PrefixAt(Lowered(s, text[..i + 1]), Lowered(s, text), |Lowered(s, text[..i])|, MEDIAL);
  }

  lemma {:induction false} LowerDiffers(s: Script, text: string, i: nat)
    requires Sound(s) && i < |text| && FinalSigma(s, text, i)
    ensures LowerText(s, text, |text|) != Lowered(s, text)
  {
    FinalAt(s, text, i);
    MedialAt(s, text, i);
  }

  /** A word spells its own lower case character by character exactly if no capital sigma ends it */
  lemma {:induction false} LowersToItself(s: Script, word: string)
    requires Sound(s)
    ensures LowerText(s, word, |word|) == Lowered(s, word) <==> !HasFinalSigma(s, word)
  {
    assert word[..|word|] == word;
    if HasFinalSigma(s, word) {
      var i: nat :| i < |word| && FinalSigma(s, word, i);
      LowerDiffers(s, word, i);
    } else {
      LowerSame(s, word, |word|);
    }
  }

  lemma {:induction false} LoweredAppend(s: Script, a: string, b: string)
    ensures Lowered(s, a + b) == Lowered(s, a) + Lowered(s, b)
    decreases |a|
  {
    if a == "" {
      assert a + b == b;
    } else {
      assert (a + b)[1..] == a[1..] + b;
      LoweredAppend(s, a[1..], b);
    }
  }

  lemma {:induction false} LoweredNotEmpty(s: Script, text: string)
    requires Sound(s)
    ensures text != "" ==> Lowered(s, text) != ""
  {}

  /** Only stretches of one length can spell a key from one position */
  lemma {:induction false} OneLength(s: Script, input: string, at: nat, n: nat, m: nat)
    requires Sound(s) && at + n <= |input| && at + m <= |input|
    requires |Lowered(s, input[at..at + n])| == |Lowered(s, input[at..at + m])|
    ensures n == m
  {
    var rest := input[at..];
    assert rest[..n] == input[at..at + n] && rest[..m] == input[at..at + m];
    if n < m { LoweredGrows(s, rest, n, m); } else if m < n { LoweredGrows(s, rest, m, n); }
  }

  /** The vocabulary of one alias */
  function Only(s: Script, alias: string, text: string): map<string, string> { Define(s, map[], [alias], text) }

  lemma OnlyIs(s: Script, alias: string, text: string)
    requires Fold(s, alias) != ""
    ensures Only(s, alias, text) == map[Fold(s, alias) := text]
  {
    var names: seq<string> := [alias];
    var dict: map<string, string> := map[Fold(s, alias) := text];
    assert names[1..] == [] && Define(s, dict, [], text) == dict;
    assert Define(s, map[], names, text) == Define(s, dict, names[1..], text);
  }

  /** A key as long as what stands at a position is spelled there by nothing shorter or longer */
  lemma {:induction false} OnlyWhole(s: Script, key: string, text: string, input: string, at: nat, n: nat, m: nat)
    requires Sound(s) && 0 < n && at + n <= |input| && (at + n == |input| || !s.alnum(input[at + n]))
    requires |Lowered(s, input[at..at + n])| == |key|
    ensures Whole(s, map[key := text], input, at, m) <==> m == n && Lowered(s, input[at..at + n]) == key
  {
    if Whole(s, map[key := text], input, at, m) { OneLength(s, input, at, n, m); }
  }

  /** A whole word of the input that is the alias in any case */
  ghost predicate Occurs(s: Script, alias: string, input: string, at: nat, n: nat) {
    && 0 < n && at + n <= |input| && WordStart(s, input, at) && (at + n == |input| || !s.alnum(input[at + n]))
    && LowerText(s, input[at..at + n], n) == Fold(s, alias)
  }

  lemma OccursWhole(s: Script, alias: string, text: string, input: string, at: nat, n: nat, m: nat)
    requires Sound(s) && Occurs(s, alias, input, at, n)
    ensures Fold(s, alias) != ""
    ensures Whole(s, Only(s, alias, text), input, at, m) <==> m == n && !HasFinalSigma(s, input[at..at + n])
  {
    var word, key := input[at..at + n], Fold(s, alias);
    LowersToItself(s, word);
    LowerLengths(s, word, n);
    LoweredNotEmpty(s, word);
    assert word[..n] == word;
    OnlyIs(s, alias, text);
    OnlyWhole(s, key, text, input, at, n, m);
  }

  /** An alias that stands in the input in any case, as a whole word, is replaced there if and only if no capital
      sigma ends a word of it: the alias was put in lower case as a whole, the input is read character by character */
  lemma OccurrenceIsTakenExactly(s: Script, alias: string, text: string, input: string, at: nat, n: nat)
    requires Sound(s) && Occurs(s, alias, input, at, n)
    ensures Taken(s, Only(s, alias, text), input, at) == if HasFinalSigma(s, input[at..at + n]) then 0 else n
  {
    var taken := Taken(s, Only(s, alias, text), input, at);
    OccursWhole(s, alias, text, input, at, n, taken);
    OccursWhole(s, alias, text, input, at, n, n);
  }

  /** Beside other terms such an occurrence is still replaced, by that alias or a longer one */
  lemma OccurrenceIsTaken(s: Script, dict: map<string, string>, alias: string, input: string, at: nat, n: nat)
    requires Sound(s) && Occurs(s, alias, input, at, n) && Fold(s, alias) in dict
    ensures !HasFinalSigma(s, input[at..at + n]) ==> Taken(s, dict, input, at) >= n
  {
    var word := input[at..at + n];
    LowersToItself(s, word);
    assert !HasFinalSigma(s, word) ==> Whole(s, dict, input, at, n);
  }

  lemma {:induction false} NothingTaken(s: Script, dict: map<string, string>, input: string, at: nat)
    requires at <= |input| && forall a: nat, n: nat :: !Whole(s, dict, input, a, n)
    ensures Corrected(s, dict, input, at) == input[at..]
    decreases |input| - at
  {
    if at < |input| {
      NothingTaken(s, dict, input, at + 1);
      assert input[at..] == [input[at]] + input[at + 1..];
    }
  }

  /** Inside a word nothing shorter can spell its key */
  lemma InsideIsShorter(s: Script, word: string, at: nat, n: nat)
    requires Sound(s) && at + n <= |word| && |Lowered(s, word[at..at + n])| == |Lowered(s, word)|
    ensures at == 0 && n == |word|
  {
    assert word == word[..at] + (word[at..at + n] + word[at + n..]);
    LoweredAppend(s, word[..at], word[at..at + n] + word[at + n..]);
    LoweredAppend(s, word[at..at + n], word[at + n..]);
    LoweredNotEmpty(s, word[..at]);
    LoweredNotEmpty(s, word[at + n..]);
  }

  /** An input that is one occurrence of an alias becomes the term if and only if no capital sigma ends a word of
      it, and stays as it is otherwise */
  lemma {:induction false} WordIsCorrectedExactly(s: Script, alias: string, text: string, word: string)
    requires Sound(s) && Occurs(s, alias, word, 0, |word|)
    ensures Corrected(s, Only(s, alias, text), word, 0) == if HasFinalSigma(s, word) then word else text
  {
    var dict, n := Only(s, alias, text), |word|;
    assert word[0..n] == word && word[..n] == word;
    OccurrenceIsTakenExactly(s, alias, text, word, 0, n);
    OccursWhole(s, alias, text, word, 0, n, n);
    OnlyIs(s, alias, text);
    if HasFinalSigma(s, word) {
      LowerLengths(s, word, n);
      forall at: nat, m: nat ensures !Whole(s, dict, word, at, m) {
        if Whole(s, dict, word, at, m) { InsideIsShorter(s, word, at, m); }
      }
      NothingTaken(s, dict, word, 0);
    } else {
      assert Corrected(s, dict, word, n) == "" && text + "" == text;
    }
  }

  /** Two capitals of which the second is a sigma: as an alias they are not found where they stand */
  lemma {:induction false} SigmaIsNotFound(s: Script, first: char, text: string)
    requires Sound(s) && s.cased(first) && !s.ignorable(first) && !s.space(first) && !s.space(SIGMA)
    ensures Corrected(s, Only(s, [first, SIGMA], text), [first, SIGMA], 0) == [first, SIGMA]
  {
    var word := [first, SIGMA];
    assert Trim(s, word) == word && word[0..2] == word && word[2..] == "" && word[..1] == [first];
    assert FinalSigma(s, word, 1);
    assert Occurs(s, word, word, 0, 2);
    WordIsCorrectedExactly(s, word, text, word);
  }

  /** One on its own is */
  lemma {:induction false} LoneSigmaIsFound(s: Script, text: string)
    requires Sound(s) && !s.space(SIGMA)
    ensures Corrected(s, Only(s, [SIGMA], text), [SIGMA], 0) == text
  {
    var word := [SIGMA];
    assert Trim(s, word) == word && word[0..1] == word && word[..0] == "";
    assert !HasFinalSigma(s, word);
    assert Occurs(s, word, word, 0, 1);
    WordIsCorrectedExactly(s, word, text, word);
  }

  // ----- the replacements

  /** A list that holds exactly the entries of a map */
  ghost predicate Lists(list: seq<Entry>, dict: map<string, string>) {
    && (forall e :: e in list ==> e.0 in dict && dict[e.0] == e.1)
    && (forall k :: k in dict ==> (k, dict[k]) in list)
  }

  function Without(list: seq<Entry>, key: string): (r: seq<Entry>)
    ensures forall e :: e in r <==> e in list && e.0 != key
  {
    if list == [] then [] else
    assert forall e :: e in list <==> e == list[0] || e in list[1..];
    (if list[0].0 == key then [] else [list[0]]) + Without(list[1..], key)
  }

  method Collect(s: Script, terms: seq<Term>) returns (list: seq<Entry>)
    ensures Lists(list, Dictionary(s, map[], terms))
  {
    list := [];
    ghost var dict: map<string, string> := map[];
    for i := 0 to |terms|
      invariant Lists(list, dict) && Dictionary(s, dict, terms[i..]) == Dictionary(s, map[], terms)
    {
      assert terms[i..][1..] == terms[i + 1..];
      var names := terms[i].aliases + [terms[i].text];
      ghost var start := dict;
      for j := 0 to |names|
        invariant Lists(list, dict)
        invariant Define(s, dict, names[j..], terms[i].text) == Define(s, start, names, terms[i].text)
      {
        assert names[j..][1..] == names[j + 1..];
        var key := Fold(s, names[j]);
        if key == "" { continue; }
        list := Without(list, key) + [(key, terms[i].text)];
        dict := dict[key := terms[i].text];
      }
      assert names[|names|..] == [];
    }
    assert terms[|terms|..] == [];
  }

  ghost predicate LongestFirst(list: seq<Entry>) {
    forall i, j :: 0 <= i < j < |list| ==> |list[i].0| >= |list[j].0|
  }

  /** Behind every entry whose key is at least as long */
  function InsertByLength(e: Entry, list: seq<Entry>): seq<Entry> {
    if list == [] || |list[0].0| < |e.0| then [e] + list else [list[0]] + InsertByLength(e, list[1..])
  }

  function SortByLength(list: seq<Entry>): seq<Entry> {
    if list == [] then [] else InsertByLength(list[|list| - 1], SortByLength(list[..|list| - 1]))
  }

  lemma {:induction false} InsertPermutes(e: Entry, list: seq<Entry>)
    ensures multiset(InsertByLength(e, list)) == multiset(list) + multiset{e}
  {
    if list != [] && |list[0].0| >= |e.0| {
      InsertPermutes(e, list[1..]);
      assert list == [list[0]] + list[1..];
    }
  }

  lemma {:induction false} InsertSorts(e: Entry, list: seq<Entry>)
    requires LongestFirst(list)
    ensures LongestFirst(InsertByLength(e, list))
  {
    if list != [] && |list[0].0| >= |e.0| {
      var r := InsertByLength(e, list[1..]);
      InsertSorts(e, list[1..]);
      InsertPermutes(e, list[1..]);
      forall i | 0 <= i < |r| ensures |r[i].0| <= |list[0].0| {
        assert r[i] in multiset(r);
        assert r[i] == e || r[i] in list[1..];
      }
    }
  }

  lemma {:induction false} SortIsSort(list: seq<Entry>)
    ensures multiset(SortByLength(list)) == multiset(list) && LongestFirst(SortByLength(list))
  {
    if list != [] {
      var n := |list| - 1;
      SortIsSort(list[..n]);
      InsertPermutes(list[n], SortByLength(list[..n]));
      InsertSorts(list[n], SortByLength(list[..n]));
      assert list == list[..n] + [list[n]];
    }
  }

  /** Whether a key spells the start of `rest` up to the end of a word */
  ghost predicate Fits(s: Script, rest: string, key: string, n: nat) {
    Spells(s, rest, key, n) && (n == |rest| || !s.alnum(rest[n]))
  }

  ghost predicate NoneFits(s: Script, rest: string, list: seq<Entry>, upto: nat) {
    forall j, n :: 0 <= j < upto && j < |list| ==> !Fits(s, rest, list[j].0, n)
  }

  /** Entry `i` fits `hit.0` characters, and none before it fits any */
  ghost predicate IsFirst(s: Script, rest: string, list: seq<Entry>, i: nat, hit: (nat, Entry)) {
    i < |list| && list[i] == hit.1 && Fits(s, rest, hit.1.0, hit.0) && NoneFits(s, rest, list, i)
  }

  /** The first entry of the list that fits */
  method FirstFit(s: Script, rest: string, list: seq<Entry>) returns (r: Option<(nat, Entry)>)
    requires Sound(s)
    ensures match r
      case Some(hit) => exists i: nat :: IsFirst(s, rest, list, i, hit)
      case None => NoneFits(s, rest, list, |list|)
  {
    for i := 0 to |list|
      invariant NoneFits(s, rest, list, i)
    {
      var found := MatchIgnoringCase(s, rest, list[i].0);
      if found.Some? && (found.value == |rest| || !s.alnum(rest[found.value])) {
        assert IsFirst(s, rest, list, i, (found.value, list[i]));
        return Some((found.value, list[i]));
      }
    }
    return None;
  }

  // ----- the scan

  lemma {:induction false} FitIsWhole(s: Script, dict: map<string, string>, input: string, at: nat, key: string, n: nat)
    requires at <= |input|
    ensures Fits(s, input[at..], key, n) && key in dict && n > 0 ==>
      Whole(s, dict, input, at, n) && Lowered(s, input[at..at + n]) == key
    ensures Whole(s, dict, input, at, n) ==> Fits(s, input[at..], Lowered(s, input[at..at + n]), n)
  {
    if at + n <= |input| { assert input[at..][..n] == input[at..at + n]; }
  }

  /** A key longer than any other that spells fewer characters */
  ghost predicate Outgrows(s: Script, rest: string, key: string, m: nat) {
    forall n: nat, less :: n < m && Spells(s, rest, less, n) ==> |less| < |key|
  }

  /** A whole word is the fit of some entry, whose key is longer than any that spells less */
  lemma WholeIsListed(s: Script, dict: map<string, string>, list: seq<Entry>, input: string, at: nat, m: nat)
    requires Sound(s) && Lists(list, dict) && at <= |input| && Whole(s, dict, input, at, m)
    ensures exists j :: 0 <= j < |list| && Fits(s, input[at..], list[j].0, m) && Outgrows(s, input[at..], list[j].0, m)
  {
    var rest, found := input[at..], Lowered(s, input[at..at + m]);
    FitIsWhole(s, dict, input, at, found, m);
    forall n: nat, key | n < m && Spells(s, rest, key, n) ensures |key| < |found| {
      LoweredGrows(s, rest, n, m);
    }
    assert (found, dict[found]) in list;
    var j :| 0 <= j < |list| && list[j] == (found, dict[found]);
    assert Fits(s, rest, list[j].0, m);
  }

  /** An entry before which nothing fits, in a list sorted by length, is the longest there is */
  lemma {:induction false} FirstIsLongest(s: Script, dict: map<string, string>, list: seq<Entry>, input: string,
                                          at: nat, i: nat, n: nat)
    requires Sound(s) && Lists(list, dict) && LongestFirst(list) && at <= |input| && i < |list| && list[i].0 != ""
    requires Fits(s, input[at..], list[i].0, n)
    requires NoneFits(s, input[at..], list, i)
    ensures n > 0 && Longest(s, dict, input, at, |input| - at) == n
    ensures dict[Lowered(s, input[at..at + n])] == list[i].1
  {
    assert list[i] in list;
    FitIsWhole(s, dict, input, at, list[i].0, n);
    forall m: nat | n < m ensures !Whole(s, dict, input, at, m) {
      if Whole(s, dict, input, at, m) { WholeIsListed(s, dict, list, input, at, m); }
    }
  }

  lemma {:induction false} NoneIsWhole(s: Script, dict: map<string, string>, list: seq<Entry>, input: string, at: nat)
    requires Sound(s) && Lists(list, dict) && at <= |input|
    requires NoneFits(s, input[at..], list, |list|)
    ensures Longest(s, dict, input, at, |input| - at) == 0
  {
    var n := Longest(s, dict, input, at, |input| - at);
    if n > 0 { WholeIsListed(s, dict, list, input, at, n); }
  }

  ghost predicate NoEmptyKey(dict: map<string, string>) { "" !in dict }

  lemma {:induction false} DefineHasNoEmpty(s: Script, dict: map<string, string>, names: seq<string>, text: string)
    requires NoEmptyKey(dict)
    ensures NoEmptyKey(Define(s, dict, names, text))
    decreases |names|
  {
    if names != [] {
      var key := Fold(s, names[0]);
      DefineHasNoEmpty(s, if key == "" then dict else dict[key := text], names[1..], text);
    }
  }

  lemma {:induction false} DictionaryHasNoEmpty(s: Script, dict: map<string, string>, terms: seq<Term>)
    requires NoEmptyKey(dict)
    ensures NoEmptyKey(Dictionary(s, dict, terms))
    decreases |terms|
  {
    if terms != [] {
      var names := terms[0].aliases + [terms[0].text];
      DefineHasNoEmpty(s, dict, names, terms[0].text);
      DictionaryHasNoEmpty(s, Define(s, dict, names, terms[0].text), terms[1..]);
    }
  }

  lemma {:induction false} SortedLists(list: seq<Entry>, dict: map<string, string>)
    requires Lists(list, dict)
    ensures Lists(SortByLength(list), dict) && LongestFirst(SortByLength(list))
  {
    var sorted := SortByLength(list);
    SortIsSort(list);
    forall e ensures e in sorted <==> e in list {
      assert e in multiset(sorted) <==> e in multiset(list);
    }
  }

  lemma {:induction false} HitIsTaken(s: Script, dict: map<string, string>, list: seq<Entry>, input: string, at: nat,
                                      rest: string, hit: (nat, Entry))
    requires Sound(s) && Lists(list, dict) && LongestFirst(list) && NoEmptyKey(dict)
    requires at <= |input| && rest == input[at..] && WordStart(s, input, at)
    requires exists i: nat :: IsFirst(s, rest, list, i, hit)
    ensures 0 < hit.0 == Taken(s, dict, input, at) && dict[Lowered(s, input[at..at + hit.0])] == hit.1.1
  {
    var i: nat :| IsFirst(s, rest, list, i, hit);
    assert list[i] in list;
    FirstIsLongest(s, dict, list, input, at, i, hit.0);
  }

  /** What is taken behind `previous`, from the list of replacements */
  method Pick(s: Script, ghost dict: map<string, string>, list: seq<Entry>, ghost input: string, ghost at: nat,
              rest: string, previous: Option<char>)
    returns (r: Option<(nat, string)>)
    requires Sound(s) && Lists(list, dict) && LongestFirst(list) && NoEmptyKey(dict)
    requires at <= |input| && rest == input[at..] && previous == if at == 0 then None else Some(input[at - 1])
    ensures var n := Taken(s, dict, input, at);
      if r.Some? then 0 < n == r.value.0 && dict[Lowered(s, input[at..at + n])] == r.value.1 else n == 0
  {
    if previous.Some? && s.alnum(previous.value) { return None; }
    var hit := FirstFit(s, rest, list);
    if hit.None? {
      NoneIsWhole(s, dict, list, input, at);
      return None;
    }
    HitIsTaken(s, dict, list, input, at, rest, hit.value);
    return Some((hit.value.0, hit.value.1.1));
  }

  /** What is written so far, and what the reference writes from `at` on */
  ghost predicate Written(s: Script, dict: map<string, string>, input: string, at: nat, out: string) {
    at <= |input| && Corrected(s, dict, input, 0) == out + Corrected(s, dict, input, at)
  }

  lemma WriteFirst(s: Script, dict: map<string, string>, input: string, at: nat, out: string, piece: Piece)
    requires Written(s, dict, input, at, out) && at < |input| && piece == First(s, dict, input, at)
    ensures Written(s, dict, input, at + Len(piece), out + Shown(s, dict, input, at, piece))
  {
    CorrectedStep(s, dict, input, at, piece);
    Assoc(out, Shown(s, dict, input, at, piece), Corrected(s, dict, input, at + Len(piece)));
  }

  lemma {:induction false} AllWritten(s: Script, dict: map<string, string>, input: string, out: string)
    ensures Written(s, dict, input, 0, "")
    ensures Written(s, dict, input, |input|, out) ==> out == Corrected(s, dict, input, 0)
  {}

  lemma RestSplit(input: string, at: nat, rest: string, n: nat)
    requires at <= |input| && rest == input[at..] && 0 < n <= |rest|
    ensures at + n <= |input| && rest[n..] == input[at + n..] && rest[..n][n - 1] == input[at + n - 1]
    ensures rest[0] == input[at]
  {}

  /** What is written at one position, and what is left behind it */
  method WritePiece(s: Script, ghost dict: map<string, string>, list: seq<Entry>, ghost input: string, ghost at: nat,
                    rest: string, previous: Option<char>, out: string)
    returns (out': string, rest': string, last: Option<char>, ghost next: nat)
    requires Sound(s) && Lists(list, dict) && LongestFirst(list) && NoEmptyKey(dict) && at < |input|
    requires rest == input[at..] && previous == if at == 0 then None else Some(input[at - 1])
    ensures var piece := First(s, dict, input, at);
      next == at + Len(piece) && out' == out + Shown(s, dict, input, at, piece)
    ensures rest' == input[next..] && last == Some(input[next - 1])
  {
    var hit := Pick(s, dict, list, input, at, rest, previous);
    if hit.Some? {
      var (len, text) := hit.value;
      RestSplit(input, at, rest, len);
      return out + text, rest[len..], Some(rest[..len][len - 1]), at + len;
    }
    RestSplit(input, at, rest, 1);
    return out + [rest[0]], rest[1..], Some(rest[0]), at + 1;
  }

  /** One position of the scan: a whole word replaced, or a character copied */
  method Advance(s: Script, ghost dict: map<string, string>, list: seq<Entry>, ghost input: string, ghost at: nat,
                 rest: string, previous: Option<char>, out: string)
    returns (out': string, rest': string, last: Option<char>, ghost next: nat)
    requires Sound(s) && Lists(list, dict) && LongestFirst(list) && NoEmptyKey(dict) && Written(s, dict, input, at, out)
    requires rest != "" && rest == input[at..] && previous == if at == 0 then None else Some(input[at - 1])
    ensures at < next && Written(s, dict, input, next, out') && rest' == input[next..] && last == Some(input[next - 1])
  {
    WriteFirst(s, dict, input, at, out, First(s, dict, input, at));
    out', rest', last, next := WritePiece(s, dict, list, input, at, rest, previous, out);
  }

  /** The transcript with each whole word that spells a key replaced, by the longest key from each word start */
  method ApplyVocabulary(s: Script, input: string, terms: seq<Term>) returns (out: string)
    requires Sound(s)
    ensures out == Corrected(s, Dictionary(s, map[], terms), input, 0)
  {
    ghost var dict := Dictionary(s, map[], terms);
    var list := Collect(s, terms);
    SortedLists(list, dict);
    DictionaryHasNoEmpty(s, map[], terms);
    list := SortByLength(list);
    AllWritten(s, dict, input, "");
    out := "";
    var rest, previous: Option<char> := input, None;
    ghost var at: nat := 0;
    while rest != ""
      invariant Written(s, dict, input, at, out) && rest == input[at..]
      invariant previous == if at == 0 then None else Some(input[at - 1])
      decreases |rest|
    {
      out, rest, previous, at := Advance(s, dict, list, input, at, rest, previous, out);
    }
    AllWritten(s, dict, input, out);
  }

  // ----- which definition a key has

  /** Every definition a list of terms makes, in order */
  function Definitions(s: Script, terms: seq<Term>): seq<Entry> {
    if terms == [] then [] else Named(s, terms[0].aliases + [terms[0].text], terms[0].text) + Definitions(s, terms[1..])
  }

  function Named(s: Script, names: seq<string>, text: string): seq<Entry> {
    if names == [] then []
    else (if Fold(s, names[0]) == "" then [] else [(Fold(s, names[0]), text)]) + Named(s, names[1..], text)
  }

  function Extended(dict: map<string, string>, defs: seq<Entry>): map<string, string>
    decreases |defs|
  {
    if defs == [] then dict else Extended(dict[defs[0].0 := defs[0].1], defs[1..])
  }

  lemma {:induction false} ExtendedAppend(dict: map<string, string>, a: seq<Entry>, b: seq<Entry>)
    ensures Extended(dict, a + b) == Extended(Extended(dict, a), b)
    decreases |a|
  {
    if a == [] {
      assert a + b == b;
    } else {
      assert (a + b)[1..] == a[1..] + b;
      ExtendedAppend(dict[a[0].0 := a[0].1], a[1..], b);
    }
  }

  lemma {:induction false} DefineExtends(s: Script, dict: map<string, string>, names: seq<string>, text: string)
    ensures Define(s, dict, names, text) == Extended(dict, Named(s, names, text))
    decreases |names|
  {
    if names != [] {
      var key := Fold(s, names[0]);
      var next := if key == "" then dict else dict[key := text];
      DefineExtends(s, next, names[1..], text);
      if key == "" {
        assert Named(s, names, text) == Named(s, names[1..], text);
      } else {
        assert Named(s, names, text)[1..] == Named(s, names[1..], text);
      }
    }
  }

  lemma {:induction false} DictionaryExtends(s: Script, dict: map<string, string>, terms: seq<Term>)
    ensures Dictionary(s, dict, terms) == Extended(dict, Definitions(s, terms))
    decreases |terms|
  {
    if terms != [] {
      var names, text := terms[0].aliases + [terms[0].text], terms[0].text;
      DefineExtends(s, dict, names, text);
      DictionaryExtends(s, Define(s, dict, names, text), terms[1..]);
      ExtendedAppend(dict, Named(s, names, text), Definitions(s, terms[1..]));
    }
  }

  ghost predicate LastFor(defs: seq<Entry>, i: nat) {
    i < |defs| && forall j :: i < j < |defs| ==> defs[j].0 != defs[i].0
  }

  lemma {:induction false} ExtendedLast(dict: map<string, string>, defs: seq<Entry>, i: nat)
    requires LastFor(defs, i)
    ensures defs[i].0 in Extended(dict, defs) && Extended(dict, defs)[defs[i].0] == defs[i].1
    decreases |defs|
  {
    if i == 0 {
      ExtendedKeeps(dict[defs[0].0 := defs[0].1], defs[1..], defs[0].0);
    } else {
      assert LastFor(defs[1..], i - 1);
      ExtendedLast(dict[defs[0].0 := defs[0].1], defs[1..], i - 1);
    }
  }

  lemma {:induction false} ExtendedKeeps(dict: map<string, string>, defs: seq<Entry>, key: string)
    requires forall e :: e in defs ==> e.0 != key
    ensures key in Extended(dict, defs) <==> key in dict
    ensures key in dict ==> Extended(dict, defs)[key] == dict[key]
    decreases |defs|
  {
    if defs != [] { ExtendedKeeps(dict[defs[0].0 := defs[0].1], defs[1..], key); }
  }

  /** Of several definitions of one key the last counts, and a key nothing defines is no key */
  lemma {:induction false} LastDefinitionWins(s: Script, terms: seq<Term>, i: nat, key: string)
    ensures LastFor(Definitions(s, terms), i) ==>
      var e := Definitions(s, terms)[i]; e.0 in Dictionary(s, map[], terms) && Dictionary(s, map[], terms)[e.0] == e.1
    ensures (forall e :: e in Definitions(s, terms) ==> e.0 != key) ==> key !in Dictionary(s, map[], terms)
  {
    var defs := Definitions(s, terms);
    DictionaryExtends(s, map[], terms);
    if LastFor(defs, i) { ExtendedLast(map[], defs, i); }
    if forall e :: e in defs ==> e.0 != key { ExtendedKeeps(map[], defs, key); }
  }

  ghost predicate DistinctKeys(defs: seq<Entry>) {
    forall i, j :: 0 <= i < j < |defs| ==> defs[i].0 != defs[j].0
  }

  /** Terms that define no key twice may come in any order */
  lemma {:induction false} OrderIsIrrelevant(s: Script, a: seq<Term>, b: seq<Term>, input: string)
    requires multiset(Definitions(s, a)) == multiset(Definitions(s, b))
    requires DistinctKeys(Definitions(s, a)) && DistinctKeys(Definitions(s, b))
    ensures Dictionary(s, map[], a) == Dictionary(s, map[], b)
    ensures Corrected(s, Dictionary(s, map[], a), input, 0) == Corrected(s, Dictionary(s, map[], b), input, 0)
  {
    DictionaryExtends(s, map[], a);
    DictionaryExtends(s, map[], b);
    SameEntries(Definitions(s, a), Definitions(s, b));
    SameEntries(Definitions(s, b), Definitions(s, a));
    assert Dictionary(s, map[], a) == Dictionary(s, map[], b);
  }

  lemma {:induction false} SameEntries(a: seq<Entry>, b: seq<Entry>)
    requires multiset(a) == multiset(b) && DistinctKeys(a) && DistinctKeys(b)
    ensures forall k :: k in Extended(map[], a) ==>
            k in Extended(map[], b) && Extended(map[], a)[k] == Extended(map[], b)[k]
  {
    forall k | k in Extended(map[], a)
      ensures k in Extended(map[], b) && Extended(map[], a)[k] == Extended(map[], b)[k]
    {
      if forall e :: e in a ==> e.0 != k {
        ExtendedKeeps(map[], a, k);
      } else {
        var e :| e in a && e.0 == k;
        assert e in multiset(b);
        var i :| 0 <= i < |a| && a[i] == e;
        var j :| 0 <= j < |b| && b[j] == e;
        ExtendedLast(map[], a, i);
        ExtendedLast(map[], b, j);
      }
    }
  }
}
