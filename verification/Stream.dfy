/** The output stream of one PTY session as a state machine: what the reader ingests, what the
    coalescer batches and flushes, and what each attached viewer is sent. Every step is one critical
    section of the daemon, so a run of steps is an interleaving of its threads.

    The terminal's screen is a function of the bytes it has parsed, so a snapshot is modelled as the
    output up to its seq. */
module Stream {
  import opened Wrappers

  const MAX_DATA_FRAME := 64 * 1024
  const HIGH_WATER := 1024 * 1024
  const LOW_WATER := 256 * 1024
  const STUCK := 5000

  /** A connection, and the channel on it for an AttachChannel */
  datatype Viewer = Viewer(client: nat, channel: Option<nat>)

  /** What goes on the outbox for one viewer */
  datatype Frame =
    | Snapshot(at: nat, screen: Bytes)
    | Data(at: nat, bytes: Bytes)
    | Resync(at: nat, screen: Bytes)

  datatype Attached = Attached(fromSeq: nat, unacked: nat, lagging: bool, progress: nat)

  datatype Chunk = Chunk(at: nat, bytes: Bytes)

  datatype State = State(
    output: Bytes,                      // everything parsed so far; the seq counter is its length
    queue: seq<Chunk>,                  // the channel from the reader to the coalescer
    pending: Chunk,                     // the batch the coalescer is filling
    clients: map<Viewer, Attached>,
    due: multiset<Viewer>,              // acks that found a lagging viewer caught up and will resync it
    closing: bool,
    now: nat,                           // milliseconds
    wire: map<Viewer, seq<Frame>>)      // every frame ever put on an outbox, by viewer

  datatype Step =
    | Ingest(bytes: Bytes)
    | Absorb
    | Flush
    | Attach(viewer: Viewer)
    | Detach(gone: set<Viewer>)
    | Ack(viewer: Viewer, count: nat)
    | ResyncDue(viewer: Viewer)
    | Close
    | Tick(ms: nat)

  /** A session starts with the output its screen was restored from, or with none */
  function Begin(restored: Bytes): State {
    State(restored, [], Chunk(0, []), map[], multiset{}, false, 0, map[])
  }

  const START := Begin([])

  // ----- the steps

  function Wire(s: State, v: Viewer): seq<Frame> {
    if v in s.wire then s.wire[v] else []
  }

  /** A read of no bytes ends the reader's loop and is never ingested */
  function IngestStep(s: State, bytes: Bytes): State {
    if bytes == [] then s else
    s.(output := s.output + bytes,
       queue := if s.clients == map[] then s.queue else s.queue + [Chunk(|s.output|, bytes)])
  }

  /** A chunk's seq is kept only when the batch is empty; otherwise its bytes are appended blindly */
  function AbsorbChunk(pending: Chunk, c: Chunk): Chunk {
    Chunk(if pending.bytes == [] then c.at else pending.at, pending.bytes + c.bytes)
  }

  function AbsorbStep(s: State): State {
    if s.queue == [] then s else s.(queue := s.queue[1..], pending := AbsorbChunk(s.pending, s.queue[0]))
  }

  /** The frames cut from `bytes` for one viewer, and its record after them */
  function SendChunks(a: Attached, at: nat, bytes: Bytes, now: nat): (Attached, seq<Frame>)
    decreases |bytes|
  {
    if bytes == [] then (a, [])
    else if a.unacked > HIGH_WATER then (a.(lagging := true, progress := now), [])
    else
      var n := if |bytes| < MAX_DATA_FRAME then |bytes| else MAX_DATA_FRAME;
      var (a', frames) := SendChunks(a.(unacked := a.unacked + n), at + n, bytes[n..], now);
      (a', [Data(at, bytes[..n])] + frames)
  }

  function Skip(a: Attached, pending: Chunk): nat {
    if a.fromSeq > pending.at then a.fromSeq - pending.at else 0
  }

  function FlushViewer(a: Attached, pending: Chunk, now: nat): (Attached, seq<Frame>) {
    var skip := Skip(a, pending);
    if a.lagging || skip >= |pending.bytes| then (a, [])
    else SendChunks(a, pending.at + skip, pending.bytes[skip..], now)
  }

  function FlushStep(s: State): State {
    if s.pending.bytes == [] then s else
    s.(clients := map v | v in s.clients :: FlushViewer(s.clients[v], s.pending, s.now).0,
       wire := map v | v in s.wire.Keys + s.clients.Keys ::
         Wire(s, v) + (if v in s.clients then FlushViewer(s.clients[v], s.pending, s.now).1 else []),
       pending := Chunk(s.pending.at + |s.pending.bytes|, []))
  }

  function AttachStep(s: State, v: Viewer): State {
    s.(clients := s.clients[v := Attached(|s.output|, 0, false, s.now)],
       wire := s.wire[v := Wire(s, v) + [Snapshot(|s.output|, s.output)]])
  }

  function AckStep(s: State, v: Viewer, count: nat): State {
    if v !in s.clients then s else
    var a := s.clients[v];
    var a' := a.(unacked := if a.unacked < count then 0 else a.unacked - count, progress := s.now);
    s.(clients := s.clients[v := a'],
       due := if a'.lagging && a'.unacked <= LOW_WATER then s.due + multiset{v} else s.due)
  }

  function ResyncStep(s: State, v: Viewer): State {
    if v !in s.due then s else
    var s' := s.(due := s.due - multiset{v});
    if v !in s.clients || !s.clients[v].lagging then s' else
    s'.(clients := s.clients[v := s.clients[v].(lagging := false, fromSeq := |s.output|)],
        wire := s.wire[v := Wire(s, v) + [Resync(|s.output|, s.output)]])
  }

  function Apply(s: State, step: Step): State {
    match step
    case Ingest(bytes) => IngestStep(s, bytes)
    case Absorb => AbsorbStep(s)
    case Flush => FlushStep(s)
    case Attach(v) => AttachStep(s, v)
    case Detach(gone) => s.(clients := s.clients - gone)
    case Ack(v, count) => AckStep(s, v, count)
    case ResyncDue(v) => ResyncStep(s, v)
    case Close => s.(closing := true)
    case Tick(ms) => s.(now := s.now + ms)
  }

  function Run(s: State, steps: seq<Step>): State
    decreases |steps|
  {
    if steps == [] then s else Run(Apply(s, steps[0]), steps[1..])
  }

  // ----- what a viewer makes of its frames

  /** A snapshot or a resync replaces the screen, data is appended to it */
  function Draw(drawn: Bytes, f: Frame): Bytes {
    match f
    case Snapshot(_, screen) => screen
    case Resync(_, screen) => screen
    case Data(_, bytes) => drawn + bytes
  }

  function Drawn(frames: seq<Frame>): Bytes {
    if frames == [] then [] else Draw(Drawn(frames[..|frames| - 1]), frames[|frames| - 1])
  }

  /** One frame may follow what is drawn already: data starts at the very next byte, and what is drawn
      after it is a prefix of the output */
  predicate Follows(before: seq<Frame>, f: Frame, output: Bytes) {
    match f
    case Snapshot(at, screen) => at == |screen| && screen <= output
    case Resync(at, screen) => before != [] && at == |screen| && screen <= output
    case Data(at, bytes) =>
      && before != [] && at == |Drawn(before)| && 0 < |bytes| <= MAX_DATA_FRAME
      && Drawn(before) + bytes <= output
  }

  /** The number of frames that do not follow what is drawn before them */
  function Faults(frames: seq<Frame>, output: Bytes): nat {
    if frames == [] then 0 else
    var n := |frames| - 1;
    Faults(frames[..n], output) + (if Follows(frames[..n], frames[n], output) then 0 else 1)
  }

  predicate Faithful(frames: seq<Frame>, output: Bytes) { Faults(frames, output) == 0 }

  // ----- the invariant

  function QueueBytes(queue: seq<Chunk>): Bytes {
    if queue == [] then [] else queue[0].bytes + QueueBytes(queue[1..])
  }

  /** Output that is on its way from the reader to the flush */
  function Backlog(s: State): Bytes {
    s.pending.bytes + QueueBytes(s.queue)
  }

  /** Everything before this seq has been through a flush */
  function Frontier(s: State): int {
    |s.output| - |Backlog(s)|
  }

  predicate QueueAt(queue: seq<Chunk>, at: int) {
    queue == [] || (queue[0].at == at && queue[0].bytes != [] && QueueAt(queue[1..], at + |queue[0].bytes|))
  }

  predicate NoHole(s: State) {
    && 0 <= Frontier(s)
    && Backlog(s) == s.output[Frontier(s)..]
    && (s.pending.bytes != [] ==> s.pending.at == Frontier(s))
    && QueueAt(s.queue, Frontier(s) + |s.pending.bytes|)
  }

  function Max(a: int, b: int): int { if a < b then b else a }

  /** A viewer's frames are exact: it has drawn a prefix of the output, and all of what was flushed
      unless it is lagging */
  predicate ExactRecord(a: Attached, frames: seq<Frame>, frontier: int, output: Bytes) {
    && a.fromSeq <= |output|
    && frames != [] && Faithful(frames, output)
    && (!a.lagging ==> |Drawn(frames)| == Max(a.fromSeq, frontier))
  }

  predicate Exact(s: State, v: Viewer)
    requires v in s.clients
  {
    v in s.wire && ExactRecord(s.clients[v], s.wire[v], Frontier(s), s.output)
  }

  predicate Inv(s: State) {
    && NoHole(s)
    && (forall v :: v in s.wire ==> Faithful(s.wire[v], s.output))
    && (forall v :: v in s.clients ==> Exact(s, v))
  }

  /** Output may be ingested unqueued only while nothing is on its way to the flush */
  predicate KeepsWhole(s: State, step: Step) {
    step.Ingest? && s.clients == map[] ==> step.bytes == [] || Backlog(s) == []
  }

  predicate HoleFree(s: State, steps: seq<Step>)
    decreases |steps|
  {
    steps == [] || (KeepsWhole(s, steps[0]) && HoleFree(Apply(s, steps[0]), steps[1..]))
  }

  // ----- lemmas about frames

  lemma FollowsGrows(before: seq<Frame>, f: Frame, output: Bytes, more: Bytes)
    requires Follows(before, f, output)
    ensures Follows(before, f, output + more)
  {
    assert output <= output + more;
  }

  lemma {:induction false} FaithfulGrows(frames: seq<Frame>, output: Bytes, more: Bytes)
    requires Faithful(frames, output)
    ensures Faithful(frames, output + more)
  {
    if frames != [] {
      var n := |frames| - 1;
      FaithfulLast(frames, output);
      FaithfulGrows(frames[..n], output, more);
      FollowsGrows(frames[..n], frames[n], output, more);
    }
  }

  lemma FaithfulLast(frames: seq<Frame>, output: Bytes)
    requires Faithful(frames, output) && frames != []
    ensures Faithful(frames[..|frames| - 1], output)
    ensures Follows(frames[..|frames| - 1], frames[|frames| - 1], output)
  {}

  lemma {:induction false} FaithfulSnoc(frames: seq<Frame>, f: Frame, output: Bytes)
    requires Faithful(frames, output) && Follows(frames, f, output)
    ensures Faithful(frames + [f], output)
    ensures Drawn(frames + [f]) == Draw(Drawn(frames), f) <= output
  {
    assert (frames + [f])[..|frames|] == frames;
  }

  lemma {:induction false} DrawnIsOutput(frames: seq<Frame>, output: Bytes)
    requires Faithful(frames, output)
    ensures Drawn(frames) == output[..|Drawn(frames)|] && |Drawn(frames)| <= |output|
  {
    if frames != [] {
      var n := |frames| - 1;
      assert Follows(frames[..n], frames[n], output);
      assert Drawn(frames) <= output;
    }
  }

  lemma {:induction false} DataFollows(before: seq<Frame>, at: nat, bytes: Bytes, output: Bytes)
    requires before != [] && Faithful(before, output) && at == |Drawn(before)|
    requires at + |bytes| <= |output| && bytes == output[at..at + |bytes|] && 0 < |bytes| <= MAX_DATA_FRAME
    ensures Follows(before, Data(at, bytes), output)
  {
    DrawnIsOutput(before, output);
    assert Drawn(before) + bytes == output[..at + |bytes|];
  }

  /** `sent` after `before` extends what is drawn by exactly the stretch of output up to `end`, or by part of it
      when `whole` is false */
  predicate Extends(before: seq<Frame>, sent: seq<Frame>, whole: bool, end: nat, output: Bytes) {
    Faithful(before + sent, output) && (whole ==> |Drawn(before + sent)| == end)
  }

  /** The first frame, and what is sent behind it */
  lemma SendsFirst(a: Attached, at: nat, bytes: Bytes, now: nat, n: nat)
    requires bytes != [] && a.unacked <= HIGH_WATER && n == if |bytes| < MAX_DATA_FRAME then |bytes| else MAX_DATA_FRAME
    ensures var rest := SendChunks(a.(unacked := a.unacked + n), at + n, bytes[n..], now);
      SendChunks(a, at, bytes, now) == (rest.0, [Data(at, bytes[..n])] + rest.1)
  {}

  lemma {:induction false} SendsNone(a: Attached, at: nat, bytes: Bytes, now: nat)
    requires bytes == [] || a.unacked > HIGH_WATER
    ensures var r := SendChunks(a, at, bytes, now);
      r.1 == [] && r.0.fromSeq == a.fromSeq && (bytes != [] ==> r.0.lagging)
  {}

  lemma {:induction false} SendChunksExact(a: Attached, at: nat, bytes: Bytes, end: nat, now: nat, before: seq<Frame>,
                                           output: Bytes)
    requires before != [] && Faithful(before, output) && at == |Drawn(before)| && !a.lagging
    requires at <= end <= |output| && bytes == output[at..end]
    ensures var r := SendChunks(a, at, bytes, now);
            r.0.fromSeq == a.fromSeq && Extends(before, r.1, !r.0.lagging, end, output)
    decreases |bytes|
  {
    if bytes == [] || a.unacked > HIGH_WATER {
      SendsNone(a, at, bytes, now);
      assert before + [] == before;
    } else {
      var n := if |bytes| < MAX_DATA_FRAME then |bytes| else MAX_DATA_FRAME;
      var f, b := Data(at, bytes[..n]), a.(unacked := a.unacked + n);
      SendsFirst(a, at, bytes, now, n);
      FirstChunk(at, bytes, end, n, before, output);
      SendChunksExact(b, at + n, bytes[n..], end, now, before + [f], output);
      Assoc(before, [f], SendChunks(b, at + n, bytes[n..], now).1);
    }
  }

  lemma StretchSplits(output: Bytes, at: nat, end: nat, n: nat)
    requires at <= end <= |output| && at + n <= end
    ensures output[at..end][..n] == output[at..at + n] && output[at..end][n..] == output[at + n..end]
  {}

  lemma {:induction false} FirstChunk(at: nat, bytes: Bytes, end: nat, n: nat, before: seq<Frame>, output: Bytes)
    requires before != [] && Faithful(before, output) && at == |Drawn(before)|
    requires at <= end <= |output| && bytes == output[at..end] && 0 < n <= |bytes| && n <= MAX_DATA_FRAME
    ensures Faithful(before + [Data(at, bytes[..n])], output)
    ensures |Drawn(before + [Data(at, bytes[..n])])| == at + n
    ensures bytes[n..] == output[at + n..end]
  {
    StretchSplits(output, at, end, n);
    DataFollows(before, at, bytes[..n], output);
    FaithfulSnoc(before, Data(at, bytes[..n]), output);
  }

  // ----- the queue

  lemma {:induction false} QueueSnoc(queue: seq<Chunk>, c: Chunk, at: int)
    requires QueueAt(queue, at) && c.at == at + |QueueBytes(queue)| && c.bytes != []
    ensures QueueAt(queue + [c], at) && QueueBytes(queue + [c]) == QueueBytes(queue) + c.bytes
  {
    if queue == [] {
      assert queue + [c] == [c];
      assert QueueBytes([c]) == c.bytes + QueueBytes([]);
    } else {
      assert (queue + [c])[1..] == queue[1..] + [c];
      QueueSnoc(queue[1..], c, at + |queue[0].bytes|);
    }
  }

  lemma SuffixGrows(output: Bytes, from: int, bytes: Bytes)
    requires 0 <= from <= |output|
    ensures (output + bytes)[from..] == output[from..] + bytes
  {}

  lemma QueuedNoHole(s: State, bytes: Bytes)
    requires NoHole(s) && bytes != [] && s.clients != map[]
    ensures NoHole(IngestStep(s, bytes)) && Frontier(IngestStep(s, bytes)) == Frontier(s)
  {
    QueueSnoc(s.queue, Chunk(|s.output|, bytes), Frontier(s) + |s.pending.bytes|);
    assert Backlog(IngestStep(s, bytes)) == Backlog(s) + bytes;
    SuffixGrows(s.output, Frontier(s), bytes);
  }

  lemma UnqueuedNoHole(s: State, bytes: Bytes)
    requires NoHole(s) && bytes != [] && s.clients == map[] && Backlog(s) == []
    ensures NoHole(IngestStep(s, bytes))
  {
    assert s.queue == [] && Backlog(IngestStep(s, bytes)) == [];
  }

  lemma IngestNoHole(s: State, bytes: Bytes)
    requires NoHole(s) && KeepsWhole(s, Ingest(bytes)) && bytes != []
    ensures NoHole(IngestStep(s, bytes))
    ensures s.clients != map[] ==> Frontier(IngestStep(s, bytes)) == Frontier(s)
  {
    if s.clients != map[] { QueuedNoHole(s, bytes); } else { UnqueuedNoHole(s, bytes); }
  }

  lemma AbsorbNoHole(s: State)
    requires NoHole(s) && s.queue != []
    ensures NoHole(AbsorbStep(s)) && Frontier(AbsorbStep(s)) == Frontier(s)
  {
    var s' := AbsorbStep(s);
    assert s'.pending.bytes == s.pending.bytes + s.queue[0].bytes;
    assert Backlog(s') == Backlog(s);
  }

  lemma CutInTwo(output: Bytes, from: nat, a: Bytes, b: Bytes)
    requires from <= |output| && output[from..] == a + b
    ensures from + |a| <= |output| && a == output[from..from + |a|] && b == output[from + |a|..]
  {
    assert output[from..][..|a|] == a && output[from..][|a|..] == b;
  }

  lemma FlushNoHole(s: State)
    requires NoHole(s) && s.pending.bytes != []
    ensures NoHole(FlushStep(s)) && Frontier(FlushStep(s)) == Frontier(s) + |s.pending.bytes|
    ensures s.pending.bytes == s.output[Frontier(s)..Frontier(s) + |s.pending.bytes|]
  {
    CutInTwo(s.output, Frontier(s), s.pending.bytes, QueueBytes(s.queue));
    assert [] + QueueBytes(s.queue) == QueueBytes(s.queue);
  }

  // ----- one step keeps the invariant

  lemma IngestInv(s: State, bytes: Bytes)
    requires Inv(s) && KeepsWhole(s, Ingest(bytes))
    ensures Inv(IngestStep(s, bytes))
  {
    if bytes != [] {
      var s' := IngestStep(s, bytes);
      IngestNoHole(s, bytes);
      forall v | v in s'.wire ensures Faithful(s'.wire[v], s'.output) {
        FaithfulGrows(s.wire[v], s.output, bytes);
      }
      forall v | v in s'.clients ensures Exact(s', v) {
        assert Exact(s, v);
      }
    }
  }

  lemma AbsorbInv(s: State)
    requires Inv(s)
    ensures Inv(AbsorbStep(s))
  {
    if s.queue != [] {
      AbsorbNoHole(s);
      forall v | v in s.clients ensures Exact(AbsorbStep(s), v) {
        assert Exact(s, v);
      }
    }
  }

  lemma RecordSkips(a: Attached, frames: seq<Frame>, frontier: int, n: nat, output: Bytes)
    requires ExactRecord(a, frames, frontier, output) && (a.lagging || n == 0 || a.fromSeq >= frontier + n)
    ensures ExactRecord(a, frames, frontier + n, output)
  {}

  lemma {:induction false} RecordSends(a: Attached, frames: seq<Frame>, at: nat, bytes: Bytes, end: nat, now: nat,
                                       output: Bytes)
    requires frames != [] && Faithful(frames, output) && at == |Drawn(frames)| && !a.lagging
    requires at <= end <= |output| && bytes == output[at..end] && a.fromSeq <= end
    ensures var r := SendChunks(a, at, bytes, now); ExactRecord(r.0, frames + r.1, end, output)
  {
    SendChunksExact(a, at, bytes, end, now, frames, output);
  }

  lemma NothingRecorded(a: Attached, frames: seq<Frame>, frontier: int, output: Bytes, r: (Attached, seq<Frame>))
    requires ExactRecord(a, frames, frontier, output) && r == (a, [])
    ensures ExactRecord(r.0, frames + r.1, frontier, output)
  {
    assert frames + [] == frames;
  }

  lemma FlushRecord(a: Attached, frames: seq<Frame>, pending: Chunk, frontier: int, output: Bytes, now: nat)
    requires ExactRecord(a, frames, frontier, output)
    requires 0 <= frontier == pending.at && frontier + |pending.bytes| <= |output|
    requires pending.bytes == output[frontier..frontier + |pending.bytes|]
    ensures ExactRecord(FlushViewer(a, pending, now).0, frames + FlushViewer(a, pending, now).1,
                        frontier + |pending.bytes|, output)
  {
    var skip, end := Skip(a, pending), frontier + |pending.bytes|;
    if a.lagging || skip >= |pending.bytes| {
      RecordSkips(a, frames, frontier, |pending.bytes|, output);
      NothingRecorded(a, frames, end, output, FlushViewer(a, pending, now));
    } else {
      StretchSplits(output, frontier, end, skip);
      RecordSends(a, frames, pending.at + skip, pending.bytes[skip..], end, now, output);
    }
  }

  lemma FlushViewerInv(s: State, v: Viewer)
    requires Inv(s) && s.pending.bytes != [] && v in s.clients
    ensures Exact(FlushStep(s), v)
  {
    FlushNoHole(s);
    assert Exact(s, v);
    FlushRecord(s.clients[v], s.wire[v], s.pending, Frontier(s), s.output, s.now);
  }

  lemma FlushInv(s: State)
    requires Inv(s)
    ensures Inv(FlushStep(s))
  {
    if s.pending.bytes != [] {
      var s' := FlushStep(s);
      FlushNoHole(s);
      forall v | v in s'.clients ensures Exact(s', v) {
        FlushViewerInv(s, v);
      }
      forall v | v in s'.wire ensures Faithful(s'.wire[v], s'.output) {
        if v in s.clients { assert Exact(s', v); }
        else { assert s'.wire[v] == s.wire[v] + [] == s.wire[v]; }
      }
    }
  }

  lemma AttachInv(s: State, v: Viewer)
    requires Inv(s)
    ensures Inv(AttachStep(s, v))
  {
    var s' := AttachStep(s, v);
    SameBacklog(s, s');
    FaithfulSnoc(Wire(s, v), Snapshot(|s.output|, s.output), s.output);
    forall w | w in s'.clients ensures Exact(s', w) {
      if w != v { assert Exact(s, w); }
    }
  }

  lemma ResyncedExact(s: State, v: Viewer)
    requires Inv(s) && v in s.clients && v in s.due && s.clients[v].lagging
    ensures Exact(ResyncStep(s, v), v)
  {
    SameBacklog(s, ResyncStep(s, v));
    assert Exact(s, v);
    FaithfulSnoc(s.wire[v], Resync(|s.output|, s.output), s.output);
  }

  lemma OthersExact(s: State, v: Viewer, w: Viewer)
    requires Inv(s) && w in s.clients && (w != v || v !in s.due || !s.clients[v].lagging)
    ensures w in ResyncStep(s, v).clients && Exact(ResyncStep(s, v), w)
  {
    SameBacklog(s, ResyncStep(s, v));
    assert Exact(s, w);
  }

  lemma ResyncInv(s: State, v: Viewer)
    requires Inv(s)
    ensures Inv(ResyncStep(s, v))
  {
    var s' := ResyncStep(s, v);
    SameBacklog(s, s');
    forall w | w in s'.clients ensures Exact(s', w) {
      if w == v && v in s.due && s.clients[v].lagging { ResyncedExact(s, v); } else { OthersExact(s, v, w); }
    }
  }

  lemma SameBacklog(s: State, s': State)
    requires s'.output == s.output && s'.pending == s.pending && s'.queue == s.queue
    ensures Backlog(s') == Backlog(s) && Frontier(s') == Frontier(s) && NoHole(s) == NoHole(s')
  {}

  lemma OtherInv(s: State, step: Step)
    requires Inv(s) && (step.Detach? || step.Ack? || step.Close? || step.Tick?)
    ensures Inv(Apply(s, step))
  {
    var s' := Apply(s, step);
    SameBacklog(s, s');
    forall v | v in s'.clients ensures Exact(s', v) {
      assert Exact(s, v);
    }
  }

  lemma StepInv(s: State, step: Step)
    requires Inv(s) && KeepsWhole(s, step)
    ensures Inv(Apply(s, step))
  {
    match step
    case Ingest(bytes) => IngestInv(s, bytes);
    case Absorb => AbsorbInv(s);
    case Flush => FlushInv(s);
    case Attach(v) => AttachInv(s, v);
    case ResyncDue(v) => ResyncInv(s, v);
    case _ => OtherInv(s, step);
  }

  // ----- whole runs

  lemma BeginInv(restored: Bytes)
    ensures Inv(Begin(restored)) && Frontier(Begin(restored)) == |restored|
  {
    assert Backlog(Begin(restored)) == [];
  }

  lemma {:induction false} RunInv(s: State, steps: seq<Step>)
    requires Inv(s) && HoleFree(s, steps)
    ensures Inv(Run(s, steps))
    decreases |steps|
  {
    if steps != [] {
      StepInv(s, steps[0]);
      RunInv(Apply(s, steps[0]), steps[1..]);
    }
  }

  /** What a viewer shows: always a prefix of the output, and the whole output once nothing is on its
      way to the flush and it is not lagging */
  predicate Shows(s: State, v: Viewer)
    requires v in s.clients
  {
    && Drawn(Wire(s, v)) <= s.output
    && (!s.clients[v].lagging && Backlog(s) == [] ==> Drawn(Wire(s, v)) == s.output)
  }

  predicate AllShow(s: State) {
    forall v :: v in s.clients ==> Shows(s, v)
  }

  lemma InvShows(s: State)
    requires Inv(s)
    ensures AllShow(s)
  {
    forall v | v in s.clients ensures Shows(s, v) {
      assert Exact(s, v);
      DrawnIsOutput(Wire(s, v), s.output);
    }
  }

  /** Over every interleaving that leaves no hole, each viewer's frames continue one another byte by
      byte from its snapshot, and a viewer that is not lagging has drawn exactly the output up to the
      later of its snapshot and the flush frontier, however the chunks were batched */
  lemma {:induction false} StreamsAreExact(restored: Bytes, steps: seq<Step>, v: Viewer)
    requires HoleFree(Begin(restored), steps) && v in Run(Begin(restored), steps).clients
    ensures var s := Run(Begin(restored), steps);
      && Faithful(Wire(s, v), s.output) && Shows(s, v)
      && (!s.clients[v].lagging ==>
            0 <= Max(s.clients[v].fromSeq, Frontier(s)) <= |s.output| &&
            Drawn(Wire(s, v)) == s.output[..Max(s.clients[v].fromSeq, Frontier(s))])
  {
    BeginInv(restored);
    RunInv(Begin(restored), steps);
    var s := Run(Begin(restored), steps);
    InvShows(s);
    assert Exact(s, v);
    DrawnIsOutput(Wire(s, v), s.output);
  }
}
