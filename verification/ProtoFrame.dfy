/** Frames between the daemon and its clients: a length of four bytes, least significant first, and a body.
    What the body encodes is not part of this. */
module ProtoFrame {
  import opened Wrappers

  const MAX_FRAME := 16 * 1024 * 1024
  const U32: int := 0x1_0000_0000

  // ----- the length

  function Le(n: nat): Bytes
    requires n < U32
  {
    [n % 256, n / 256 % 256, n / 65536 % 256, n / 16777216]
  }

  function FromLe(b: Bytes): nat
    requires |b| == 4
  {
    (b[0] as int) + 256 * (b[1] as int) + 65536 * (b[2] as int) + 16777216 * (b[3] as int)
  }

  lemma LeIsRead(n: nat)
    requires n < U32
    ensures FromLe(Le(n)) == n
  {
    assert n / 256 / 256 == n / 65536 && n / 65536 / 256 == n / 16777216;
  }

  // ----- writing and reading one frame

  /** The length is cut to 32 bits, the body is not */
  function Encoded(body: Bytes): Bytes { Le(|body| % U32) + body }

  method Encode(body: Bytes) returns (out: Bytes)
    ensures out == Encoded(body)
  {
    var n := |body| % U32;
    out := [];
    for i := 0 to 4
      invariant out == Le(|body| % U32)[..i]
      invariant n == if i == 0 then |body| % U32 else if i == 1 then |body| % U32 / 256
                     else if i == 2 then |body| % U32 / 65536 else if i == 3 then |body| % U32 / 16777216 else 0
    {
      out, n := out + [n % 256], n / 256;
    }
    out := out + body;
  }

  datatype Frame =
    | End                               // nothing more to read
    | Body(body: Bytes, rest: Bytes)
    | TooLong(len: nat)
    | CutOff                            // the stream ends inside a body

  function ReadFrame(stream: Bytes): Frame {
    if |stream| < 4 then End else
    var len := FromLe(stream[..4]);
    if len > MAX_FRAME then TooLong(len)
    else if |stream| - 4 < len then CutOff
    else Body(stream[4..4 + len], stream[4 + len..])
  }

  lemma FrameParts(body: Bytes, rest: Bytes)
    ensures var stream := Encoded(body) + rest;
      |stream| >= 4 && FromLe(stream[..4]) == |body| % U32 && stream[4..] == body + rest
  {
    var stream := Encoded(body) + rest;
    assert stream[..4] == Le(|body| % U32) && stream[4..] == body + rest;
    LeIsRead(|body| % U32);
  }

  /** A frame reads back, whatever follows it, exactly when its body is not longer than a frame may be; a length
      that wraps does not let a longer one through */
  lemma ReadUndoesEncodeExactly(body: Bytes, rest: Bytes)
    ensures ReadFrame(Encoded(body) + rest) == Body(body, rest) <==> |body| <= 16 * 1024 * 1024
  {
    var stream, len := Encoded(body) + rest, |body| % U32;
    FrameParts(body, rest);
    if |body| <= MAX_FRAME {
      assert stream[4..4 + len] == (body + rest)[..len] == body && stream[4 + len..] == (body + rest)[len..] == rest;
    } else if len <= MAX_FRAME {
      assert len < |body| && |stream[4..4 + len]| == len;
    }
  }

  // ----- a connection

  function EncodedAll(bodies: seq<Bytes>): Bytes {
    if bodies == [] then [] else Encoded(bodies[0]) + EncodedAll(bodies[1..])
  }

  /** Everything read off a stream, and how the reading ends */
  function ReadAll(stream: Bytes): (seq<Bytes>, Frame)
    decreases |stream|
  {
    match ReadFrame(stream)
    case Body(body, rest) => ([body] + ReadAll(rest).0, ReadAll(rest).1)
    case end => ([], end)
  }

  predicate Small(bodies: seq<Bytes>) { forall b :: b in bodies ==> |b| <= MAX_FRAME }

  lemma {:induction false} OneFrame(body: Bytes, rest: Bytes)
    requires |body| <= MAX_FRAME
    ensures ReadAll(Encoded(body) + rest) == ([body] + ReadAll(rest).0, ReadAll(rest).1)
  {
    ReadUndoesEncodeExactly(body, rest);
  }

  lemma {:induction false} EncodedSplits(bodies: seq<Bytes>, rest: Bytes)
    requires bodies != []
    ensures EncodedAll(bodies) + rest == Encoded(bodies[0]) + (EncodedAll(bodies[1..]) + rest)
  {}

  lemma {:induction false} FramesBefore(bodies: seq<Bytes>, rest: Bytes, more: seq<Bytes>, end: Frame)
    requires Small(bodies) && ReadAll(rest) == (more, end)
    ensures ReadAll(EncodedAll(bodies) + rest) == (bodies + more, end)
    decreases |bodies|
  {
    if bodies == [] {
      assert [] + rest == rest && [] + more == more;
    } else {
      var behind := EncodedAll(bodies[1..]) + rest;
      assert ReadAll(behind) == (bodies[1..] + more, end) by { FramesBefore(bodies[1..], rest, more, end); }
      assert ReadAll(EncodedAll(bodies) + rest) == ([bodies[0]] + (bodies[1..] + more), end) by {
        EncodedSplits(bodies, rest);
        OneFrame(bodies[0], behind);
      }
      BodiesApart(bodies, more);
    }
  }

  lemma BodiesApart(a: seq<Bytes>, b: seq<Bytes>)
    requires a != []
    ensures a + b == [a[0]] + (a[1..] + b)
  {}

  /** Frames within the limit read back in order, whatever follows them */
  lemma {:induction false} FramesRoundTrip(bodies: seq<Bytes>, rest: Bytes)
    requires Small(bodies)
    ensures ReadAll(EncodedAll(bodies) + rest) == (bodies + ReadAll(rest).0, ReadAll(rest).1)
  {
    FramesBefore(bodies, rest, ReadAll(rest).0, ReadAll(rest).1);
  }

  lemma CutParts(body: Bytes, n: nat)
    requires 4 <= n < |Encoded(body)|
    ensures Encoded(body)[..n][..4] == Le(|body| % U32) && |Encoded(body)[..n]| - 4 < |body|
  {}

  /** What is left of a frame that is cut, by where the cut is */
  lemma CutFrame(body: Bytes, n: nat)
    requires |body| <= MAX_FRAME && n < |Encoded(body)|
    ensures ReadAll(Encoded(body)[..n]) == ([], if n < 4 then End else CutOff)
  {
    if n >= 4 {
      CutParts(body, n);
      LeIsRead(|body| % U32);
    }
  }

  /** The number of bodies whose frames are whole in the first `n` bytes */
  function WholeIn(bodies: seq<Bytes>, n: nat): (k: nat)
    ensures k <= |bodies|
  {
    if bodies == [] || n < |Encoded(bodies[0])| then 0 else 1 + WholeIn(bodies[1..], n - |Encoded(bodies[0])|)
  }

  /** The bytes past the last whole frame */
  function Left(bodies: seq<Bytes>, n: nat): nat {
    if bodies == [] || n < |Encoded(bodies[0])| then n else Left(bodies[1..], n - |Encoded(bodies[0])|)
  }

  lemma {:induction false} CutBehind(bodies: seq<Bytes>, n: nat)
    requires bodies != [] && |Encoded(bodies[0])| <= n <= |EncodedAll(bodies)|
    ensures var m := n - |Encoded(bodies[0])|;
      m <= |EncodedAll(bodies[1..])| && EncodedAll(bodies)[..n] == Encoded(bodies[0]) + EncodedAll(bodies[1..])[..m]
  {}

  lemma WholeStep(bodies: seq<Bytes>, n: nat)
    requires bodies != [] && |Encoded(bodies[0])| <= n
    ensures var m := n - |Encoded(bodies[0])|;
      && bodies[..WholeIn(bodies, n)] == [bodies[0]] + bodies[1..][..WholeIn(bodies[1..], m)]
      && Left(bodies, n) == Left(bodies[1..], m)
  {}

  function Ending(left: nat): Frame { if left < 4 then End else CutOff }

  /** A connection that ends anywhere gives exactly the whole frames. It reads as a clean end not only between
      frames but also when up to three bytes of the next length have arrived, and else as cut off */
  lemma {:induction false} CutConnection(bodies: seq<Bytes>, n: nat)
    requires Small(bodies) && n <= |EncodedAll(bodies)|
    ensures ReadAll(EncodedAll(bodies)[..n]) == (bodies[..WholeIn(bodies, n)], Ending(Left(bodies, n)))
    decreases |bodies|
  {
    if bodies != [] {
      var first := |Encoded(bodies[0])|;
      assert bodies[0] in bodies;
      if n < first {
        assert EncodedAll(bodies)[..n] == Encoded(bodies[0])[..n];
        CutFrame(bodies[0], n);
      } else {
        CutBehind(bodies, n);
        CutConnection(bodies[1..], n - first);
        OneFrame(bodies[0], EncodedAll(bodies[1..])[..n - first]);
        WholeStep(bodies, n);
      }
    }
  }

  // ----- what is not read as it was written

  /** Three bytes of a length read like none */
  lemma ThreeBytesEndCleanly()
    ensures ReadAll(EncodedAll([[1]])[..3]) == ([], End) == ReadAll([])
  {
    var bodies: seq<Bytes> := [[1]];
    assert Encoded(bodies[0]) <= EncodedAll(bodies);
    CutConnection(bodies, 3);
    assert bodies[..0] == [];
  }

  lemma LongIsRefused(body: Bytes, rest: Bytes)
    requires MAX_FRAME < |body| < U32
    ensures ReadFrame(Encoded(body) + rest) == TooLong(|body|)
  {
    FrameParts(body, rest);
  }

  lemma OverlongIsRefused(rest: Bytes)
    ensures var body := seq(16 * 1024 * 1024 + 1, _ => 0); ReadFrame(Encoded(body) + rest) == TooLong(|body|)
  {
    LongIsRefused(seq(MAX_FRAME + 1, _ => 0), rest);
  }

  lemma WrappedIsCut(body: Bytes, rest: Bytes)
    requires |body| >= U32 && |body| % U32 <= MAX_FRAME
    ensures var frame := ReadFrame(Encoded(body) + rest); frame.Body? && |frame.body| == |body| % U32
  {
    FrameParts(body, rest);
  }

  /** A length of 2^32 and one reads as one */
  lemma WrappedIsMisread(rest: Bytes)
    ensures var body := seq(U32 + 1, _ => 0);
      var frame := ReadFrame(Encoded(body) + rest); frame.Body? && |frame.body| == 1
  {
    WrappedIsCut(seq(U32 + 1, _ => 0), rest);
  }
}
