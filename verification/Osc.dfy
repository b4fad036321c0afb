/** The scanner that finds OSC sequences in raw output, chunk by chunk. The payloads it finds are what it
    hands to the parser, which is a function of the payload alone. */
module OscScan {
  import opened Wrappers

  const MAX_PAYLOAD := 4096

  const ESC: byte := 0x1b
  const BEL: byte := 0x07
  const CAN: byte := 0x18
  const SUB: byte := 0x1a

  /** `Skipping` is not a state of the scanner: inside one chunk it stands for the rest of a payload that
      grew too long, which the scanner jumps over in one go */
  datatype State = Ground | Esc | Osc(payload: Bytes) | OscEsc(payload: Bytes) | Skipping

  datatype Out = Out(state: State, found: seq<Bytes>)

  predicate Ends(b: byte) { b == BEL || b == ESC || b == CAN || b == SUB }

  // ----- the scanner, one byte at a time

  function EscByte(b: byte): State {
    if b == ']' as int then Osc([]) else if b == ESC then Esc else Ground
  }

  function Byte(s: State, b: byte): Out {
    match s
    case Ground => Out(if b == ESC then Esc else Ground, [])
    case Esc => Out(EscByte(b), [])
    case Osc(p) =>
      if b == BEL then Out(Ground, [p])
      else if b == ESC then Out(OscEsc(p), [])
      else if Ends(b) then Out(Ground, [])
      else Out(if |p| + 1 > MAX_PAYLOAD then Skipping else Osc(p + [b]), [])
    case OscEsc(p) => if b == '\\' as int then Out(Ground, [p]) else Out(EscByte(b), [])
    case Skipping => Out(if Ends(b) then Ground else Skipping, [])
  }

  function Scan(s: State, bytes: Bytes): Out
    decreases |bytes|
  {
    if bytes == [] then Out(s, []) else
    var o := Byte(s, bytes[0]);
    var rest := Scan(o.state, bytes[1..]);
    Out(rest.state, o.found + rest.found)
  }

  /** Between chunks an oversized payload is forgotten */
  function Kept(s: State): State { if s.Skipping? then Ground else s }

  /** A state the scanner keeps between chunks */
  predicate Held(s: State) {
    !s.Skipping? && (s.Osc? || s.OscEsc? ==> |s.payload| <= MAX_PAYLOAD)
  }

  // ----- the scanner, in bulk

  lemma {:induction false} GroundJumps(bytes: Bytes, n: nat)
    requires n <= |bytes| && forall i :: 0 <= i < n ==> bytes[i] != ESC
    ensures Scan(Ground, bytes) == Scan(Ground, bytes[n..])
    decreases n
  {
    if n == 0 {
      assert bytes[0..] == bytes;
    } else {
      GroundJumps(bytes[1..], n - 1);
      assert bytes[1..][n - 1..] == bytes[n..];
    }
  }

  lemma {:induction false} SkippingJumps(bytes: Bytes, n: nat)
    requires n <= |bytes| && forall i :: 0 <= i < n ==> !Ends(bytes[i])
    ensures Scan(Skipping, bytes) == Scan(Skipping, bytes[n..])
    decreases n
  {
    if n == 0 {
      assert bytes[0..] == bytes;
    } else {
      SkippingJumps(bytes[1..], n - 1);
      assert bytes[1..][n - 1..] == bytes[n..];
    }
  }

  lemma {:induction false} PayloadByte(p: Bytes, bytes: Bytes)
    requires bytes != [] && !Ends(bytes[0])
    ensures Scan(Osc(p), bytes) == Scan(if |p| + 1 > MAX_PAYLOAD then Skipping else Osc(p + [bytes[0]]), bytes[1..])
  {
    var rest := Scan(Byte(Osc(p), bytes[0]).state, bytes[1..]);
    assert [] + rest.found == rest.found;
  }

  lemma ByteApart(p: Bytes, bytes: Bytes, n: nat)
    requires 0 < n <= |bytes|
    ensures p + [bytes[0]] + bytes[1..][..n - 1] == p + bytes[..n] && bytes[1..][n - 1..] == bytes[n..]
  {}

  lemma {:induction false} PayloadJumps(p: Bytes, bytes: Bytes, n: nat)
    requires |p| <= MAX_PAYLOAD && n <= |bytes| && forall i :: 0 <= i < n ==> !Ends(bytes[i])
    ensures Scan(Osc(p), bytes) ==
      Scan(if |p| + n > MAX_PAYLOAD then Skipping else Osc(p + bytes[..n]), bytes[n..])
    decreases n
  {
    if n == 0 {
      assert p + bytes[..0] == p && bytes[0..] == bytes;
    } else {
      PayloadByte(p, bytes);
      ByteApart(p, bytes, n);
      if |p| + 1 > MAX_PAYLOAD {
        SkippingJumps(bytes[1..], n - 1);
      } else {
        PayloadJumps(p + [bytes[0]], bytes[1..], n - 1);
      }
    }
  }

  /** What ends a payload, and whether it is kept */
  function Ended(p: Bytes, terminator: byte): Out {
    if |p| > MAX_PAYLOAD then Out(Ground, [])
    else if terminator == BEL then Out(Ground, [p])
    else if terminator == ESC then Out(OscEsc(p), [])
    else Out(Ground, [])
  }

  lemma {:induction false} PayloadArm(p: Bytes, bytes: Bytes, n: nat)
    requires |p| <= MAX_PAYLOAD && n < |bytes| && (forall i :: 0 <= i < n ==> !Ends(bytes[i])) && Ends(bytes[n])
    ensures var o := Ended(p + bytes[..n], bytes[n]);
      Scan(Osc(p), bytes) == Out(Scan(o.state, bytes[n + 1..]).state, o.found + Scan(o.state, bytes[n + 1..]).found)
  {
    PayloadJumps(p, bytes, n);
    assert bytes[n..][0] == bytes[n] && bytes[n..][1..] == bytes[n + 1..];
  }

  lemma {:induction false} PayloadGoesOn(p: Bytes, bytes: Bytes)
    requires |p| <= MAX_PAYLOAD && forall i :: 0 <= i < |bytes| ==> !Ends(bytes[i])
    ensures Scan(Osc(p), bytes) == Out(if |p| + |bytes| > MAX_PAYLOAD then Skipping else Osc(p + bytes), [])
  {
    PayloadJumps(p, bytes, |bytes|);
    assert bytes[|bytes|..] == [] && bytes[..|bytes|] == bytes;
  }

  lemma {:induction false} GroundArm(bytes: Bytes, n: nat)
    requires n <= |bytes| && (forall i :: 0 <= i < n ==> bytes[i] != ESC) && (n < |bytes| ==> bytes[n] == ESC)
    ensures Scan(Ground, bytes) == if n < |bytes| then Scan(Esc, bytes[n + 1..]) else Out(Ground, [])
  {
    GroundJumps(bytes, n);
    if n < |bytes| {
      assert bytes[n..][0] == ESC && bytes[n..][1..] == bytes[n + 1..];
    } else {
      assert bytes[n..] == [];
    }
  }

  method IndexOfEsc(bytes: Bytes) returns (n: nat)
    ensures n <= |bytes| && (forall i :: 0 <= i < n ==> bytes[i] != ESC) && (n < |bytes| ==> bytes[n] == ESC)
  {
    n := 0;
    while n < |bytes| && bytes[n] != ESC
      invariant n <= |bytes| && forall i :: 0 <= i < n ==> bytes[i] != ESC
    {
      n := n + 1;
    }
  }

  method IndexOfEnd(bytes: Bytes) returns (n: nat)
    ensures n <= |bytes| && (forall i :: 0 <= i < n ==> !Ends(bytes[i])) && (n < |bytes| ==> Ends(bytes[n]))
  {
    n := 0;
    while n < |bytes| && !Ends(bytes[n])
      invariant n <= |bytes| && forall i :: 0 <= i < n ==> !Ends(bytes[i])
    {
      n := n + 1;
    }
  }

  class OscScanner {
    var state: State

    constructor ()
      ensures state == Ground
    {
      state := Ground;
    }

    /** One pass of the loop: the bytes that are left, and the payloads found */
    method Pass(bytes: Bytes) returns (rest: Bytes, more: seq<Bytes>)
      requires Held(state) && bytes != []
      modifies this
      ensures Held(state)
      ensures Scan(old(state), bytes).found == more + Scan(state, rest).found
      ensures Kept(Scan(old(state), bytes).state) == Kept(Scan(state, rest).state)
      ensures |rest| < |bytes| || (rest == bytes && old(state).OscEsc? && !state.OscEsc?)
    {
      var first := bytes[0];
      more := [];
      match state {
        case Ground =>
          var i := IndexOfEsc(bytes);
          GroundArm(bytes, i);
          if i == |bytes| { return [], []; }
          rest := bytes[i + 1..];
          state := Esc;
        case Esc =>
          rest := bytes[1..];
          state := if first == ']' as int then Osc([]) else if first == ESC then Esc else Ground;
        case Osc(before) =>
          var take := IndexOfEnd(bytes);
          var payload := before + bytes[..take];
          if take == |bytes| {
            PayloadGoesOn(before, bytes);
            rest := [];
            state := if |payload| > MAX_PAYLOAD then Ground else Osc(payload);
          } else {
            PayloadArm(before, bytes, take);
            var terminator := bytes[take];
            rest := bytes[take + 1..];
            if |payload| > MAX_PAYLOAD {
              state := Ground;
            } else if terminator == BEL {
              more := [payload];
              state := Ground;
            } else if terminator == ESC {
              state := OscEsc(payload);
            } else {
              state := Ground;
            }
          }
        case OscEsc(payload) =>
          if first == '\\' as int {
            rest := bytes[1..];
            more := [payload];
            state := Ground;
          } else {
            rest := bytes;
            state := Esc;
          }
        case Skipping => assert false;
      }
    }

    /** The loop ends although an ESC that does not close a payload consumes nothing: it leaves the
        payload for the plain ESC state */
    method ScanChunk(chunk: Bytes) returns (found: seq<Bytes>)
      requires Held(state)
      modifies this
      ensures Held(state) && state == Kept(Scan(old(state), chunk).state)
      ensures found == Scan(old(state), chunk).found
      ensures old(state) == Ground ==> found == Stretches(chunk, |chunk|)
    {
      FindsTheStretches(chunk);
      found := [];
      var bytes := chunk;
      ghost var all := Scan(state, chunk);
      while bytes != []
        invariant Held(state)
        invariant found + Scan(state, bytes).found == all.found
        invariant Kept(Scan(state, bytes).state) == Kept(all.state)
        decreases |bytes|, if state.OscEsc? then 1 else 0
      {
        var rest, more := Pass(bytes);
        assert found + (more + Scan(state, rest).found) == found + more + Scan(state, rest).found;
        bytes, found := rest, found + more;
      }
      assert found + [] == found;
    }
  }

  // ----- chunks

  function Flat(chunks: seq<Bytes>): Bytes {
    if chunks == [] then [] else chunks[0] + Flat(chunks[1..])
  }

  function ScanChunks(s: State, chunks: seq<Bytes>): Out
    decreases |chunks|
  {
    if chunks == [] then Out(s, []) else
    var o := Scan(s, chunks[0]);
    var rest := ScanChunks(Kept(o.state), chunks[1..]);
    Out(rest.state, o.found + rest.found)
  }

  /** No payload that grew too long is ended by ESC and followed by `]` */
  predicate Clean(s: State, bytes: Bytes)
    decreases |bytes|
  {
    bytes == [] ||
    ((s.Skipping? && bytes[0] == ESC && |bytes| > 1 ==> bytes[1] != ']' as int)
     && Clean(Byte(s, bytes[0]).state, bytes[1..]))
  }

  /** A chunked scan against one over the whole stream: close enough to find the same payloads. The states differ
      while the whole scan is still skipping an oversized payload, and behind the ESC that ended one */
  predicate Close(chunked: State, whole: State) {
    chunked == whole || (whole.Skipping? && chunked.Ground?) || (whole.Ground? && chunked.Esc?)
  }

  /** The last case needs the next byte not to open a sequence */
  predicate Tracks(chunked: State, whole: State, ahead: Bytes) {
    Close(chunked, whole) && (whole.Ground? && chunked.Esc? ==> ahead == [] || ahead[0] != ']' as int)
  }

  lemma {:induction false} OneChunk(x: State, y: State, chunk: Bytes, ahead: Bytes)
    requires Tracks(x, y, chunk + ahead) && Clean(y, chunk + ahead)
    ensures Scan(x, chunk).found == Scan(y, chunk).found
    ensures Tracks(Scan(x, chunk).state, Scan(y, chunk).state, ahead) && Clean(Scan(y, chunk).state, ahead)
    decreases |chunk|
  {
    if chunk == [] {
      assert chunk + ahead == ahead;
    } else {
      var all := chunk + ahead;
      assert all[1..] == chunk[1..] + ahead;
      OneChunk(Byte(x, chunk[0]).state, Byte(y, chunk[0]).state, chunk[1..], ahead);
    }
  }

  lemma {:induction false} ScanAppend(s: State, a: Bytes, b: Bytes)
    ensures Scan(s, a + b) == Out(Scan(Scan(s, a).state, b).state, Scan(s, a).found + Scan(Scan(s, a).state, b).found)
    decreases |a|
  {
    if a == [] {
      assert a + b == b;
    } else {
      assert (a + b)[1..] == a[1..] + b;
      ScanAppend(Byte(s, a[0]).state, a[1..], b);
    }
  }

  lemma {:induction false} ChunksTrack(x: State, y: State, chunks: seq<Bytes>)
    requires Tracks(x, y, Flat(chunks)) && Clean(y, Flat(chunks)) && !x.Skipping?
    ensures ScanChunks(x, chunks).found == Scan(y, Flat(chunks)).found
    ensures Close(ScanChunks(x, chunks).state, Scan(y, Flat(chunks)).state)
    decreases |chunks|
  {
    if chunks != [] {
      var rest := Flat(chunks[1..]);
      OneChunk(x, y, chunks[0], rest);
      ScanAppend(y, chunks[0], rest);
      ChunksTrack(Kept(Scan(x, chunks[0]).state), Scan(y, chunks[0]).state, chunks[1..]);
    }
  }

  /** A split that finds the payloads one scan finds, and still does when a BEL comes next */
  predicate PayloadsAgree(s: State, chunks: seq<Bytes>) {
    && ScanChunks(s, chunks).found == Scan(s, Flat(chunks)).found
    && ScanChunks(s, chunks + [[BEL]]).found == Scan(s, Flat(chunks) + [BEL]).found
  }

  predicate IsPrefix(a: Bytes, b: Bytes) { a <= b }

  lemma {:induction false} CleanPrefix(s: State, a: Bytes, b: Bytes)
    requires a <= b && Clean(s, b)
    ensures Clean(s, a)
    decreases |a|
  {
    if a != [] {
      CleanPrefix(Byte(s, a[0]).state, a[1..], b[1..]);
    }
  }

  /** Where a stream is not clean: a payload too long, then ESC, then `]` */
  lemma {:induction false} DirtyAt(s: State, bytes: Bytes) returns (n: nat)
    requires !Clean(s, bytes)
    ensures n + 2 <= |bytes| && Scan(s, bytes[..n]).state.Skipping? && bytes[n] == ESC && bytes[n + 1] == ']' as int
    decreases |bytes|
  {
    if s.Skipping? && bytes[0] == ESC && |bytes| > 1 && bytes[1] == ']' as int {
      n := 0;
      assert bytes[..0] == [];
    } else {
      var m := DirtyAt(Byte(s, bytes[0]).state, bytes[1..]);
      n := m + 1;
      assert bytes[..n][1..] == bytes[1..][..m];
    }
  }

  lemma {:induction false} FlatSnoc(chunks: seq<Bytes>, chunk: Bytes)
    ensures Flat(chunks + [chunk]) == Flat(chunks) + chunk
  {
    if chunks == [] {
      assert chunks + [chunk] == [chunk] && [chunk][1..] == [];
      assert Flat([chunk]) == chunk + Flat([]);
    } else {
      assert (chunks + [chunk])[1..] == chunks[1..] + [chunk];
      FlatSnoc(chunks[1..], chunk);
    }
  }

  lemma {:induction false} ScanPair(s: State, a: Bytes, b: Bytes)
    ensures ScanChunks(s, [a, b]) ==
      Out(Kept(Scan(Kept(Scan(s, a).state), b).state), Scan(s, a).found + Scan(Kept(Scan(s, a).state), b).found)
    ensures Flat([a, b]) == a + b
  {
    var both, one, k := [a, b], [b], Kept(Scan(s, a).state);
    assert both[1..] == one && one[1..] == [];
    assert ScanChunks(k, one) == Out(Kept(Scan(k, b).state), Scan(k, b).found) by {
      assert Scan(k, b).found + [] == Scan(k, b).found;
    }
    assert Flat(one) == b by { assert b + [] == b; }
  }

  lemma {:induction false} CleanSnoc(s: State, bytes: Bytes, b: byte)
    requires Clean(s, bytes) && b != ']' as int
    ensures Clean(s, bytes + [b])
    decreases |bytes|
  {
    if bytes == [] {
      assert bytes + [b] == [b] && [b][1..] == [];
    } else {
      assert (bytes + [b])[1..] == bytes[1..] + [b];
      CleanSnoc(Byte(s, bytes[0]).state, bytes[1..], b);
    }
  }

  lemma ScanOpen()
    ensures Scan(Ground, [ESC, ']' as int]) == Out(Osc([]), []) && Scan(Skipping, [ESC, ']' as int]) == Out(Ground, [])
    ensures Scan(Osc([]), [BEL]) == Out(Ground, [[]]) && Scan(Ground, [BEL]) == Out(Ground, [])
  {
    var open, bell := [ESC, ']' as int], [BEL];
    assert open[1..] == [']' as int] && open[1..][1..] == [] && bell[1..] == [];
    assert Scan(Esc, open[1..]) == Out(Osc([]), []) && Scan(Ground, open[1..]) == Out(Ground, []);
  }

  /** The split opens a sequence that one scan passes over, and the BEL ends it: an empty payload */
  lemma {:induction false} SplitDisagrees(s: State, p: Bytes)
    requires Held(s) && Scan(s, p).state.Skipping?
    ensures !PayloadsAgree(s, [p, [ESC, ']' as int]]) && Flat([p, [ESC, ']' as int]]) == p + [ESC, ']' as int]
  {
    OpenIsFound(s, p, [ESC, ']' as int], [BEL]);
  }

  lemma {:induction false} OpenIsFound(s: State, p: Bytes, open: Bytes, bell: Bytes)
    requires Held(s) && Scan(s, p).state.Skipping? && open == [ESC, ']' as int] && bell == [BEL]
    ensures ScanChunks(s, [p, open] + [bell]).found == Scan(s, p).found + [[]]
    ensures Scan(s, p + open + bell).found == Scan(s, p).found && Flat([p, open]) == p + open
  {
    ScanOpen();
    ScanPair(s, p, open);
    ScanChunksSnoc(s, [p, open], bell);
    ScanAppend(s, p, open);
    ScanAppend(s, p + open, bell);
  }

  lemma {:induction false} ScanChunksSnoc(s: State, chunks: seq<Bytes>, chunk: Bytes)
    requires !s.Skipping?
    ensures var o := ScanChunks(s, chunks);
      ScanChunks(s, chunks + [chunk]) == Out(Kept(Scan(o.state, chunk).state), o.found + Scan(o.state, chunk).found)
    decreases |chunks|
  {
    if chunks == [] {
      assert chunks + [chunk] == [chunk] && [chunk][1..] == [];
      assert Scan(s, chunk).found + [] == Scan(s, chunk).found;
    } else {
      var o, rest := Scan(s, chunks[0]), chunks[1..];
      var o' := ScanChunks(Kept(o.state), rest);
      assert (chunks + [chunk])[1..] == rest + [chunk];
      ScanChunksSnoc(Kept(o.state), rest, chunk);
      Assoc(o.found, o'.found, Scan(o'.state, chunk).found);
    }
  }

  /** The payloads: every split of every prefix of a stream, ended by a BEL or not, finds those that one scan finds
      if and only if no oversized payload is ended by ESC and followed by `]` */
  lemma {:induction false} ChunksExactly(s: State, bytes: Bytes)
    requires Held(s)
    ensures Clean(s, bytes) <==> forall chunks :: IsPrefix(Flat(chunks), bytes) ==> PayloadsAgree(s, chunks)
  {
    if Clean(s, bytes) {
      forall chunks | IsPrefix(Flat(chunks), bytes) ensures PayloadsAgree(s, chunks) {
        CleanPrefix(s, Flat(chunks), bytes);
        ChunksTrack(s, s, chunks);
        CleanSnoc(s, Flat(chunks), BEL);
        FlatSnoc(chunks, [BEL]);
        ChunksTrack(s, s, chunks + [[BEL]]);
      }
    } else {
      var n := DirtyAt(s, bytes);
      var chunks := [bytes[..n], [ESC, ']' as int]];
      SplitDisagrees(s, bytes[..n]);
      assert bytes[..n] + [ESC, ']' as int] == bytes[..n + 2];
      assert IsPrefix(Flat(chunks), bytes);
    }
  }

  // ----- the state between chunks

  /** No payload that grew too long is ended by ESC */
  predicate Unescaped(s: State, bytes: Bytes)
    decreases |bytes|
  {
    bytes == [] || (!(s.Skipping? && bytes[0] == ESC) && Unescaped(Byte(s, bytes[0]).state, bytes[1..]))
  }

  /** A split that finds what one scan finds and leaves the scanner in the state one scan leaves it in */
  predicate Agrees(s: State, chunks: seq<Bytes>) {
    && ScanChunks(s, chunks).found == Scan(s, Flat(chunks)).found
    && ScanChunks(s, chunks).state == Kept(Scan(s, Flat(chunks)).state)
  }

  /** The same state, but for an oversized payload that the split has forgotten */
  predicate Same(chunked: State, whole: State) { chunked == whole || (whole.Skipping? && chunked.Ground?) }

  lemma {:induction false} OneChunkSame(x: State, y: State, chunk: Bytes)
    requires Same(x, y) && Unescaped(y, chunk)
    ensures Scan(x, chunk).found == Scan(y, chunk).found && Same(Scan(x, chunk).state, Scan(y, chunk).state)
    decreases |chunk|
  {
    if chunk != [] { OneChunkSame(Byte(x, chunk[0]).state, Byte(y, chunk[0]).state, chunk[1..]); }
  }

  lemma {:induction false} UnescapedSplits(s: State, a: Bytes, b: Bytes)
    requires Unescaped(s, a + b)
    ensures Unescaped(s, a) && Unescaped(Scan(s, a).state, b)
    decreases |a|
  {
    if a == [] {
      assert a + b == b;
    } else {
      assert (a + b)[1..] == a[1..] + b;
      UnescapedSplits(Byte(s, a[0]).state, a[1..], b);
    }
  }

  lemma {:induction false} ChunksSame(x: State, y: State, chunks: seq<Bytes>)
    requires Same(x, y) && Unescaped(y, Flat(chunks)) && !x.Skipping?
    ensures ScanChunks(x, chunks).found == Scan(y, Flat(chunks)).found
    ensures ScanChunks(x, chunks).state == Kept(Scan(y, Flat(chunks)).state)
    decreases |chunks|
  {
    if chunks != [] {
      var rest := Flat(chunks[1..]);
      UnescapedSplits(y, chunks[0], rest);
      OneChunkSame(x, y, chunks[0]);
      ScanAppend(y, chunks[0], rest);
      ChunksSame(Kept(Scan(x, chunks[0]).state), Scan(y, chunks[0]).state, chunks[1..]);
    }
  }

  lemma {:induction false} EscapedAt(s: State, bytes: Bytes) returns (n: nat)
    requires !Unescaped(s, bytes)
    ensures n < |bytes| && Scan(s, bytes[..n]).state.Skipping? && bytes[n] == ESC
    decreases |bytes|
  {
    if s.Skipping? && bytes[0] == ESC {
      n := 0;
      assert bytes[..0] == [];
    } else {
      var m := EscapedAt(Byte(s, bytes[0]).state, bytes[1..]);
      n := m + 1;
      assert bytes[..n][1..] == bytes[1..][..m];
    }
  }

  /** An ESC that ends an oversized payload: the scanner is left behind it when a split comes in front of it, and on
      the ground otherwise, although both have found the same */
  lemma {:induction false} SplitLeavesEsc(s: State, p: Bytes)
    requires Scan(s, p).state.Skipping?
    ensures ScanChunks(s, [p, [ESC]]).state == Esc && Kept(Scan(s, p + [ESC]).state) == Ground
    ensures ScanChunks(s, [p, [ESC]]).found == Scan(s, p + [ESC]).found && Flat([p, [ESC]]) == p + [ESC]
    ensures Clean(s, p) ==> Clean(s, p + [ESC])
  {
    ScanPair(s, p, [ESC]);
    ScanAppend(s, p, [ESC]);
    assert [ESC][1..] == [];
    assert Scan(Ground, [ESC]).state == Esc && Scan(Skipping, [ESC]).state == Ground;
    if Clean(s, p) { CleanSnoc(s, p, ESC); }
  }

  lemma {:induction false} UnescapedPrefix(s: State, a: Bytes, b: Bytes)
    requires a <= b && Unescaped(s, b)
    ensures Unescaped(s, a)
    decreases |a|
  {
    if a != [] { UnescapedPrefix(Byte(s, a[0]).state, a[1..], b[1..]); }
  }

  /** The payloads and the state: every split of every prefix of a stream finds what one scan finds and leaves the
      scanner in the same state if and only if no oversized payload is ended by ESC */
  lemma {:induction false} StatesExactly(s: State, bytes: Bytes)
    requires Held(s)
    ensures Unescaped(s, bytes) <==> forall chunks :: IsPrefix(Flat(chunks), bytes) ==> Agrees(s, chunks)
  {
    if Unescaped(s, bytes) {
      forall chunks | IsPrefix(Flat(chunks), bytes) ensures Agrees(s, chunks) {
        UnescapedPrefix(s, Flat(chunks), bytes);
        ChunksSame(s, s, chunks);
      }
    } else {
      var n := EscapedAt(s, bytes);
      var chunks := [bytes[..n], [ESC]];
      SplitLeavesEsc(s, bytes[..n]);
      assert bytes[..n] + [ESC] == bytes[..n + 1];
      assert IsPrefix(Flat(chunks), bytes);
    }
  }

  predicate NoEnd(bytes: Bytes) { forall i :: 0 <= i < |bytes| ==> !Ends(bytes[i]) }

  lemma {:induction false} BodyIsFound(payload: Bytes)
    requires |payload| <= MAX_PAYLOAD && NoEnd(payload)
    ensures Scan(Osc([]), payload + [BEL]).found == [payload]
  {
    var body := payload + [BEL];
    PayloadArm([], body, |payload|);
    assert [] + body[..|payload|] == payload && body[|payload| + 1..] == [];
  }

  lemma {:induction false} BodyIsPassed(payload: Bytes)
    requires NoEnd(payload)
    ensures Scan(Ground, payload + [BEL]).found == []
  {
    GroundArm(payload + [BEL], |payload| + 1);
  }

  /** A sequence is found from the ground and passed over behind an oversized payload */
  lemma {:induction false} SequenceScans(payload: Bytes)
    requires |payload| <= MAX_PAYLOAD && NoEnd(payload)
    ensures Scan(Ground, [ESC, ']' as int] + payload + [BEL]).found == [payload]
    ensures Scan(Skipping, [ESC, ']' as int] + payload + [BEL]).found == []
  {
    Assoc([ESC, ']' as int], payload, [BEL]);
    OpenAfterSplit(payload + [BEL]);
    BodyIsFound(payload);
    BodyIsPassed(payload);
  }

  lemma {:induction false} ScanWhole(s: State, bytes: Bytes)
    ensures ScanChunks(s, [bytes]).found == Scan(s, bytes).found
  {
    assert [bytes][1..] == [] && Scan(s, bytes).found + [] == Scan(s, bytes).found;
  }

  /** On such a stream the split decides whether the next sequence is found at all */
  lemma {:induction false} SplitHidesASequence(s: State, p: Bytes, payload: Bytes)
    requires Held(s) && Scan(s, p).state.Skipping?
    requires |payload| <= MAX_PAYLOAD && NoEnd(payload)
    ensures var tail := [ESC, ']' as int] + payload + [BEL];
      && ScanChunks(s, [p, tail]).found == Scan(s, p).found + [payload]
      && ScanChunks(s, [p + tail]).found == Scan(s, p).found
  {
    var tail := [ESC, ']' as int] + payload + [BEL];
    SequenceScans(payload);
    ScanPair(s, p, tail);
    ScanWhole(s, p + tail);
    ScanAppend(s, p, tail);
  }

  lemma {:induction false} OpenAfterSplit(body: Bytes)
    ensures Scan(Ground, [ESC, ']' as int] + body) == Scan(Osc([]), body)
    ensures Scan(Skipping, [ESC, ']' as int] + body) == Scan(Ground, body)
  {
    var tail := [ESC, ']' as int] + body;
    assert tail[1..] == [']' as int] + body && tail[1..][1..] == body;
    assert Scan(Esc, tail[1..]) == Scan(Osc([]), body);
    assert Scan(Ground, tail[1..]) == Scan(Ground, body);
  }

  // ----- the payloads of a stream, told by where they stand in it

  /** No terminator in a stretch of the stream */
  predicate Plain(bytes: Bytes, from: nat, to: nat) {
    forall k :: from <= k < to && k < |bytes| ==> bytes[k] !in [0x07, 0x1b, 0x18, 0x1a]
  }

  /** ESC and `]` open a payload, unless that ESC ends one that is too long */
  ghost predicate Opens(bytes: Bytes, i: nat)
    decreases i
  {
    && i + 1 < |bytes| && bytes[i] == 0x1b && bytes[i + 1] == ']' as int
    && !exists j :: 0 <= j < i && j + 2 + 4096 < i && Opens(bytes, j) && Plain(bytes, j + 2, i)
  }

  /** The payload opened at `i` is still open behind the first `n` bytes */
  ghost predicate Inside(bytes: Bytes, i: nat, n: nat) {
    i + 2 <= n <= |bytes| && Opens(bytes, i) && Plain(bytes, i + 2, n)
  }

  /** A payload opened at `i` is `bytes[i + 2..to]`, closed by the byte at `k`: a BEL, or an ESC and a backslash */
  ghost predicate Closes(bytes: Bytes, i: nat, to: nat, k: nat) {
    && k < |bytes| && to <= k && Inside(bytes, i, to) && to - i - 2 <= 4096
    && if bytes[k] == 0x07 then to == k else bytes[k] == '\\' as int && to + 1 == k && bytes[to] == 0x1b
  }

  /** The payload that the byte at `k` closes */
  ghost function ClosedAt(bytes: Bytes, k: nat): seq<Bytes> {
    if i: nat, to: nat :| Closes(bytes, i, to, k) then [bytes[i + 2..to]] else []
  }

  /** The payloads closed within the first `n` bytes, in order */
  ghost function Stretches(bytes: Bytes, n: nat): seq<Bytes> {
    if n == 0 then [] else Stretches(bytes, n - 1) + ClosedAt(bytes, n - 1)
  }

  lemma InsideOnce(bytes: Bytes, i: nat, j: nat, n: nat)
    requires Inside(bytes, i, n) && Inside(bytes, j, n)
    ensures i == j
  {}

  /** One byte on, a payload is still open or has just been opened */
  lemma {:induction false} InsideStep(bytes: Bytes, i: nat, n: nat)
    requires n < |bytes|
    ensures Inside(bytes, i, n + 1) <==>
            (Inside(bytes, i, n) && Plain(bytes, n, n + 1)) || (i + 1 == n && Opens(bytes, i))
  {
    if Inside(bytes, i, n + 1) && i + 2 <= n { assert Plain(bytes, i + 2, n) && Plain(bytes, n, n + 1); }
  }

  ghost predicate NoneOpen(bytes: Bytes, n: nat) { forall i: nat :: !Inside(bytes, i, n) }

  ghost predicate LongOpen(bytes: Bytes, n: nat) { exists i: nat :: Inside(bytes, i, n) && n - i - 2 > 4096 }

  ghost predicate IsOpen(bytes: Bytes, n: nat, p: Bytes) {
    exists i: nat :: Inside(bytes, i, n) && n - i - 2 <= 4096 && p == bytes[i + 2..n]
  }

  /** What the scanner's state says of the first `n` bytes */
  ghost predicate Tells(bytes: Bytes, n: nat, s: State)
    requires n <= |bytes|
  {
    match s
    case Osc(p) => IsOpen(bytes, n, p)
    case Skipping => LongOpen(bytes, n)
    case OscEsc(p) => n > 0 && bytes[n - 1] == 0x1b && IsOpen(bytes, n - 1, p)
    case Esc => n > 0 && bytes[n - 1] == 0x1b && NoneOpen(bytes, n - 1)
    case Ground => NoneOpen(bytes, n) && (n > 0 && bytes[n - 1] == 0x1b ==> LongOpen(bytes, n - 1))
  }

  lemma NotInsideBehindEsc(bytes: Bytes, i: nat, n: nat)
    requires 0 < n <= |bytes| && bytes[n - 1] == 0x1b
    ensures !Inside(bytes, i, n)
  {}

  lemma InsideNoEsc(bytes: Bytes, i: nat, n: nat)
    requires Inside(bytes, i, n)
    ensures n >= 2 && bytes[n - 1] != 0x1b
  {}

  lemma NothingCloses(bytes: Bytes, n: nat)
    requires n < |bytes| && forall i: nat, to: nat :: !Closes(bytes, i, to, n)
    ensures ClosedAt(bytes, n) == []
  {}

  lemma CloseIs(bytes: Bytes, i: nat, to: nat, n: nat)
    requires Closes(bytes, i, to, n)
    ensures ClosedAt(bytes, n) == [bytes[i + 2..to]]
  {
    forall j: nat, end: nat | Closes(bytes, j, end, n) ensures j == i && end == to {
      assert end == to;
      InsideOnce(bytes, i, j, to);
    }
  }

  lemma PayloadGrows(bytes: Bytes, from: nat, n: nat, p: Bytes)
    requires from <= n < |bytes| && p == bytes[from..n]
    ensures p + [bytes[n]] == bytes[from..n + 1]
  {}

  lemma StepInPayload(bytes: Bytes, n: nat, p: Bytes)
    requires n < |bytes| && Tells(bytes, n, Osc(p))
    ensures Tells(bytes, n + 1, Byte(Osc(p), bytes[n]).state) && ClosedAt(bytes, n) == Byte(Osc(p), bytes[n]).found
  {
    var i: nat :| Inside(bytes, i, n) && n - i - 2 <= 4096 && p == bytes[i + 2..n];
    var b, next := bytes[n], n + 1;
    InsideNoEsc(bytes, i, n);
    forall j: nat ensures Inside(bytes, j, next) ==> j == i && !Ends(b) {
      InsideStep(bytes, j, n);
      if Inside(bytes, j, n) { InsideOnce(bytes, i, j, n); }
    }
    InsideStep(bytes, i, n);
    if b == BEL {
      CloseIs(bytes, i, n, n);
    } else {
      NothingCloses(bytes, n);
      PayloadGrows(bytes, i + 2, n, p);
    }
  }

  lemma StepSkipping(bytes: Bytes, n: nat)
    requires n < |bytes| && Tells(bytes, n, Skipping)
    ensures Tells(bytes, n + 1, Byte(Skipping, bytes[n]).state) && ClosedAt(bytes, n) == []
  {
    var i: nat :| Inside(bytes, i, n) && n - i - 2 > 4096;
    var next := n + 1;
    InsideNoEsc(bytes, i, n);
    forall j: nat ensures (Inside(bytes, j, n) ==> j == i) && (Inside(bytes, j, next) ==> j == i && !Ends(bytes[n])) {
      InsideStep(bytes, j, n);
      if Inside(bytes, j, n) { InsideOnce(bytes, i, j, n); }
    }
    InsideStep(bytes, i, n);
    NothingCloses(bytes, n);
  }

  lemma StepOnGround(bytes: Bytes, n: nat)
    requires n < |bytes| && Tells(bytes, n, Ground)
    ensures Tells(bytes, n + 1, Byte(Ground, bytes[n]).state) && ClosedAt(bytes, n) == []
  {
    var before, next := n - 1, n + 1;
    if n > 0 && bytes[before] == 0x1b {
      var i: nat :| Inside(bytes, i, before) && before - i - 2 > 4096;
      forall j: nat | Inside(bytes, j, before) ensures j == i { InsideOnce(bytes, i, j, before); }
    }
    forall j: nat ensures !Inside(bytes, j, next) { InsideStep(bytes, j, n); }
    NothingCloses(bytes, n);
  }

  lemma NoneOpenBehindEsc(bytes: Bytes, n: nat)
    requires 0 < n <= |bytes| && bytes[n - 1] == 0x1b
    ensures NoneOpen(bytes, n)
  {
    forall j: nat ensures !Inside(bytes, j, n) { NotInsideBehindEsc(bytes, j, n); }
  }

  lemma OpensHere(bytes: Bytes, i: nat)
    requires i + 1 < |bytes| && bytes[i] == 0x1b && bytes[i + 1] == ']' as int && !LongOpen(bytes, i)
    ensures Opens(bytes, i)
  {
    forall j: nat | j + 2 + 4096 < i && Opens(bytes, j) ensures !Plain(bytes, j + 2, i) {
      if Plain(bytes, j + 2, i) { assert Inside(bytes, j, i); }
    }
  }

  /** Behind an ESC that does not end a payload that is too long, `]` opens one */
  lemma StepBehindEsc(bytes: Bytes, n: nat, next: nat)
    requires 0 < n < |bytes| && next == n + 1 && bytes[n - 1] == 0x1b && !LongOpen(bytes, n - 1)
    ensures Tells(bytes, next, EscByte(bytes[n]))
  {
    NoneOpenBehindEsc(bytes, n);
    forall j: nat ensures Inside(bytes, j, next) ==> j == n - 1 && bytes[n] == ']' as int { InsideStep(bytes, j, n); }
    if bytes[n] == ']' as int {
      OpensHere(bytes, n - 1);
      assert Inside(bytes, n - 1, next);
      assert bytes[next..next] == [];
    }
  }

  lemma StepEsc(bytes: Bytes, n: nat)
    requires n < |bytes| && Tells(bytes, n, Esc)
    ensures Tells(bytes, n + 1, EscByte(bytes[n])) && ClosedAt(bytes, n) == []
  {
    StepBehindEsc(bytes, n, n + 1);
    NoneOpenBehindEsc(bytes, n);
    NothingCloses(bytes, n);
  }

  lemma StepPayloadEsc(bytes: Bytes, n: nat, p: Bytes)
    requires n < |bytes| && Tells(bytes, n, OscEsc(p))
    ensures Tells(bytes, n + 1, Byte(OscEsc(p), bytes[n]).state)
    ensures ClosedAt(bytes, n) == Byte(OscEsc(p), bytes[n]).found
  {
    var before := n - 1;
    var i: nat :| Inside(bytes, i, before) && before - i - 2 <= 4096 && p == bytes[i + 2..before];
    forall j: nat | Inside(bytes, j, before) ensures j == i { InsideOnce(bytes, i, j, before); }
    NoneOpenBehindEsc(bytes, n);
    StepBehindEsc(bytes, n, n + 1);
    if bytes[n] == '\\' as int { CloseIs(bytes, i, before, n); } else { NothingCloses(bytes, n); }
  }

  lemma TellsStep(bytes: Bytes, n: nat, s: State)
    requires n < |bytes| && Tells(bytes, n, s)
    ensures Tells(bytes, n + 1, Byte(s, bytes[n]).state) && ClosedAt(bytes, n) == Byte(s, bytes[n]).found
  {
    match s
    case Ground => StepOnGround(bytes, n);
    case Esc => StepEsc(bytes, n);
    case Osc(p) => StepInPayload(bytes, n, p);
    case OscEsc(p) => StepPayloadEsc(bytes, n, p);
    case Skipping => StepSkipping(bytes, n);
  }

  lemma {:induction false} ScanOne(s: State, b: byte)
    ensures Scan(s, [b]) == Byte(s, b)
  {
    var one := [b];
    assert one[1..] == [] && Byte(s, b).found + [] == Byte(s, b).found;
  }

  lemma ScanSnoc(bytes: Bytes, n: nat)
    requires n < |bytes|
    ensures var before, o := Scan(Ground, bytes[..n]), Byte(Scan(Ground, bytes[..n]).state, bytes[n]);
      Scan(Ground, bytes[..n + 1]) == Out(o.state, before.found + o.found)
  {
    assert bytes[..n + 1] == bytes[..n] + [bytes[n]];
    ScanAppend(Ground, bytes[..n], [bytes[n]]);
    ScanOne(Scan(Ground, bytes[..n]).state, bytes[n]);
  }

  lemma {:induction false} ScanTells(bytes: Bytes, n: nat)
    requires n <= |bytes|
    ensures Tells(bytes, n, Scan(Ground, bytes[..n]).state) && Scan(Ground, bytes[..n]).found == Stretches(bytes, n)
  {
    if n > 0 {
      ScanTells(bytes, n - 1);
      ScanSnoc(bytes, n - 1);
      TellsStep(bytes, n - 1, Scan(Ground, bytes[..n - 1]).state);
    }
  }

  /** The payloads found in a stream are exactly its stretches of at most 4096 bytes between an ESC and `]` that open a
      payload and the BEL, or the ESC and backslash, that close it */
  lemma {:induction false} FindsTheStretches(bytes: Bytes)
    ensures Scan(Ground, bytes).found == Stretches(bytes, |bytes|)
  {
    ScanTells(bytes, |bytes|);
    assert bytes[..|bytes|] == bytes;
  }

  lemma SequenceParts(open: Bytes, payload: Bytes, end: byte, rest: Bytes)
    ensures var body := payload + ([end] + rest);
      && open + payload + [end] + rest == open + body && body[..|payload|] == payload && body[|payload|] == end
      && body[|payload| + 1..] == rest
  {}

  lemma {:induction false} SequenceEnds(payload: Bytes, end: byte, rest: Bytes, o: Out)
    requires NoEnd(payload) && Ends(end) && o == Ended(payload, end)
    ensures Scan(Ground, [ESC, ']' as int] + payload + [end] + rest)
            == Out(Scan(o.state, rest).state, o.found + Scan(o.state, rest).found)
  {
    var body := payload + ([end] + rest);
    SequenceParts([ESC, ']' as int], payload, end, rest);
    OpenAfterSplit(body);
    assert [] + payload == payload;
    PayloadArm([], body, |payload|);
  }

  /** One whole sequence: BEL or ESC and a backslash close it, CAN and SUB give it up, and a payload that is too long is
      not found */
  lemma OneSequence(payload: Bytes)
    requires Plain(payload, 0, |payload|)
    ensures var open: Bytes, found := [0x1b, ']' as int] + payload, if |payload| <= 4096 then [payload] else [];
      && Scan(Ground, open + [0x07]) == Out(Ground, found)
      && Scan(Ground, open + [0x1b, '\\' as int]) == Out(Ground, found)
      && Scan(Ground, open + [0x18]) == Scan(Ground, open + [0x1a]) == Out(Ground, [])
  {
    var open: Bytes := [0x1b, ']' as int] + payload;
    var last: Bytes := ['\\' as int];
    assert open + [ESC] + last == open + [ESC, '\\' as int];
    ScanOne(OscEsc(payload), '\\' as int);
    ScanOne(Ground, '\\' as int);
    SequenceEnds(payload, ESC, last, Ended(payload, ESC));
    EndsAlone(payload, BEL);
    EndsAlone(payload, CAN);
    EndsAlone(payload, SUB);
  }

  lemma {:induction false} EndsAlone(payload: Bytes, end: byte)
    requires NoEnd(payload) && Ends(end) && end != ESC
    ensures Scan(Ground, [ESC, ']' as int] + payload + [end]) == Ended(payload, end)
  {
    var all := [ESC, ']' as int] + payload + [end];
    assert all + [] == all;
    SequenceEnds(payload, end, [], Ended(payload, end));
  }
}
