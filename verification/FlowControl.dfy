/** Flow control over whole runs of the stream: how far a viewer can fall behind, how lag ends, that
    viewers do not disturb each other, and exactly when the stream has no hole. */
module FlowControl {
  import opened Wrappers
  import opened Stream

  // ----- bounded credit

  predicate CreditOk(a: Attached, due: bool) {
    a.unacked <= (1024 + 64) * 1024 && (a.lagging ==> a.unacked > 256 * 1024 || due)
  }

  predicate Credit(s: State) {
    forall v :: v in s.clients ==> CreditOk(s.clients[v], v in s.due)
  }

  lemma {:induction false} SendChunksCredit(a: Attached, at: nat, bytes: Bytes, now: nat)
    requires a.unacked <= HIGH_WATER + MAX_DATA_FRAME && !a.lagging
    ensures CreditOk(SendChunks(a, at, bytes, now).0, false)
    decreases |bytes|
  {
    if bytes != [] && a.unacked <= HIGH_WATER {
      var n := if |bytes| < MAX_DATA_FRAME then |bytes| else MAX_DATA_FRAME;
      SendChunksCredit(a.(unacked := a.unacked + n), at + n, bytes[n..], now);
    }
  }

  lemma ViewerCredit(a: Attached, pending: Chunk, now: nat, due: bool)
    requires CreditOk(a, due)
    ensures CreditOk(FlushViewer(a, pending, now).0, due)
  {
    var skip := Skip(a, pending);
    if !a.lagging && skip < |pending.bytes| {
      SendChunksCredit(a, pending.at + skip, pending.bytes[skip..], now);
    }
  }

  lemma FlushCredit(s: State)
    requires Credit(s)
    ensures Credit(FlushStep(s))
  {
    var s' := FlushStep(s);
    forall v | v in s'.clients ensures CreditOk(s'.clients[v], v in s'.due) {
      assert CreditOk(s.clients[v], v in s.due);
      ViewerCredit(s.clients[v], s.pending, s.now, v in s.due);
    }
  }

  lemma AckCredit(s: State, v: Viewer, count: nat)
    requires Credit(s)
    ensures Credit(AckStep(s, v, count))
  {
    var s' := AckStep(s, v, count);
    forall w | w in s'.clients ensures CreditOk(s'.clients[w], w in s'.due) {
      assert CreditOk(s.clients[w], w in s.due);
    }
  }

  lemma ResyncCredit(s: State, v: Viewer)
    requires Credit(s)
    ensures Credit(ResyncStep(s, v))
  {
    var s' := ResyncStep(s, v);
    forall w | w in s'.clients ensures CreditOk(s'.clients[w], w in s'.due) {
      assert CreditOk(s.clients[w], w in s.due);
    }
  }

  lemma StepCredit(s: State, step: Step)
    requires Credit(s)
    ensures Credit(Apply(s, step))
  {
    match step
    case Flush => FlushCredit(s);
    case Ack(v, count) => AckCredit(s, v, count);
    case ResyncDue(v) => ResyncCredit(s, v);
    case _ =>
  }

  /** No viewer is ever more than 1 MB and one frame behind, and a lagging one is more than 256 KB behind or its resync
      is already due, over every interleaving and with acks of any size */
  lemma {:induction false} RunCredit(s: State, steps: seq<Step>)
    requires Credit(s)
    ensures Credit(Run(s, steps))
    decreases |steps|
  {
    if steps != [] {
      StepCredit(s, steps[0]);
      RunCredit(Apply(s, steps[0]), steps[1..]);
    }
  }

  lemma {:induction false} SendChunksLag(a: Attached, at: nat, bytes: Bytes, now: nat)
    requires !a.lagging && SendChunks(a, at, bytes, now).0.lagging
    ensures SendChunks(a, at, bytes, now).0.unacked > 1024 * 1024
    decreases |bytes|
  {
    if bytes != [] && a.unacked <= HIGH_WATER {
      var n := if |bytes| < MAX_DATA_FRAME then |bytes| else MAX_DATA_FRAME;
      SendChunksLag(a.(unacked := a.unacked + n), at + n, bytes[n..], now);
    }
  }

  lemma FlushViewerLag(a: Attached, pending: Chunk, now: nat)
    requires !a.lagging && FlushViewer(a, pending, now).0.lagging
    ensures FlushViewer(a, pending, now).0.unacked > 1024 * 1024
  {
    var skip := Skip(a, pending);
    if skip < |pending.bytes| { SendChunksLag(a, pending.at + skip, pending.bytes[skip..], now); }
  }

  lemma FlushLag(s: State, v: Viewer)
    requires v in s.clients && v in FlushStep(s).clients && !s.clients[v].lagging && FlushStep(s).clients[v].lagging
    ensures FlushStep(s).clients[v].unacked > 1024 * 1024
  {
    FlushViewerLag(s.clients[v], s.pending, s.now);
  }

  /** A viewer starts to lag only in a flush and only when it owes more than 1 MB */
  lemma LagStarts(s: State, step: Step, v: Viewer)
    requires v in s.clients && v in Apply(s, step).clients
    requires !s.clients[v].lagging && Apply(s, step).clients[v].lagging
    ensures step == Flush && Apply(s, step).clients[v].unacked > 1024 * 1024
  {
    if step.Flush? { FlushLag(s, v); }
  }

  /** A resync becomes due only by an ack that leaves a lagging viewer owing 256 KB or less */
  lemma ResyncFallsDue(s: State, step: Step, v: Viewer)
    requires Apply(s, step).due[v] > s.due[v]
    ensures step.Ack? && step.viewer == v && v in Apply(s, step).clients
    ensures Apply(s, step).clients[v].lagging && Apply(s, step).clients[v].unacked <= 256 * 1024
  {}

  // ----- the ledger

  /** Bytes of data sent since the last attach snapshot */
  function SentSince(frames: seq<Frame>): nat {
    if frames == [] then 0 else
    var f := frames[|frames| - 1];
    if f.Snapshot? then 0
    else (if f.Data? then |f.bytes| else 0) + SentSince(frames[..|frames| - 1])
  }

  /** The ledger after one step */
  function Acked(step: Step, v: Viewer, before: nat): nat {
    match step
    case Attach(w) => if w == v then 0 else before
    case Ack(w, count) => if w == v then before + count else before
    case _ => before
  }

  /** Bytes acked since the last attach, on top of `before` */
  function AckedSince(steps: seq<Step>, v: Viewer, before: nat): nat
    decreases |steps|
  {
    if steps == [] then before else AckedSince(steps[1..], v, Acked(steps[0], v, before))
  }

  /** Every ack covers bytes that were sent and not acked yet */
  predicate Honest(s: State, steps: seq<Step>, v: Viewer)
    decreases |steps|
  {
    steps == [] ||
    ((steps[0].Ack? && steps[0].viewer == v ==> v in s.clients && steps[0].count <= s.clients[v].unacked)
     && Honest(Apply(s, steps[0]), steps[1..], v))
  }

  lemma {:induction false} SentSnoc(frames: seq<Frame>, f: Frame)
    ensures SentSince(frames + [f]) == if f.Snapshot? then 0 else (if f.Data? then |f.bytes| else 0) + SentSince(frames)
  {
    assert (frames + [f])[..|frames|] == frames;
  }

  lemma {:induction false} SentAssoc(before: seq<Frame>, f: Frame, sent: seq<Frame>)
    ensures SentSince(before + ([f] + sent)) == SentSince(before + [f] + sent)
  {
    assert before + ([f] + sent) == before + [f] + sent;
  }

  lemma {:induction false} SendChunksLedger(a: Attached, at: nat, bytes: Bytes, now: nat, before: seq<Frame>)
    ensures SendChunks(a, at, bytes, now).0.unacked - a.unacked
            == SentSince(before + SendChunks(a, at, bytes, now).1) - SentSince(before)
    decreases |bytes|
  {
    if bytes == [] || a.unacked > HIGH_WATER {
      assert before + [] == before;
    } else {
      var n := if |bytes| < MAX_DATA_FRAME then |bytes| else MAX_DATA_FRAME;
      var f, b := Data(at, bytes[..n]), a.(unacked := a.unacked + n);
      SendsFirst(a, at, bytes, now, n);
      SentSnoc(before, f);
      SendChunksLedger(b, at + n, bytes[n..], now, before + [f]);
      SentAssoc(before, f, SendChunks(b, at + n, bytes[n..], now).1);
    }
  }

  predicate Balanced(s: State, v: Viewer, acked: nat) {
    v in s.clients ==> s.clients[v].unacked + acked == SentSince(Wire(s, v))
  }

  lemma {:induction false} ViewerLedger(a: Attached, pending: Chunk, now: nat, before: seq<Frame>)
    ensures FlushViewer(a, pending, now).0.unacked - a.unacked
            == SentSince(before + FlushViewer(a, pending, now).1) - SentSince(before)
  {
    var skip := Skip(a, pending);
    if a.lagging || skip >= |pending.bytes| {
      assert before + [] == before;
    } else {
      SendChunksLedger(a, pending.at + skip, pending.bytes[skip..], now, before);
    }
  }

  lemma FlushedRecord(s: State, v: Viewer)
    requires v in s.clients && s.pending.bytes != []
    ensures v in FlushStep(s).clients
    ensures FlushStep(s).clients[v] == FlushViewer(s.clients[v], s.pending, s.now).0
    ensures Wire(FlushStep(s), v) == Wire(s, v) + FlushViewer(s.clients[v], s.pending, s.now).1
  {}

  lemma FlushBalanced(s: State, v: Viewer, acked: nat)
    requires Balanced(s, v, acked) && v in s.clients && s.pending.bytes != []
    ensures Balanced(FlushStep(s), v, acked)
  {
    ViewerLedger(s.clients[v], s.pending, s.now, Wire(s, v));
    FlushedRecord(s, v);
  }

  lemma AttachBalanced(s: State, w: Viewer, v: Viewer, acked: nat)
    requires Balanced(s, v, acked)
    ensures Balanced(AttachStep(s, w), v, if w == v then 0 else acked)
  {
    SentSnoc(Wire(s, w), Snapshot(|s.output|, s.output));
  }

  lemma ResyncBalanced(s: State, w: Viewer, v: Viewer, acked: nat)
    requires Balanced(s, v, acked)
    ensures Balanced(ResyncStep(s, w), v, acked)
  {
    if w == v && v in s.due && v in s.clients && s.clients[v].lagging {
      var s', f := ResyncStep(s, v), Resync(|s.output|, s.output);
      assert Wire(s', v) == Wire(s, v) + [f];
      assert s'.clients[v].unacked == s.clients[v].unacked;
      SentSnoc(Wire(s, v), f);
    } else {
      var s' := ResyncStep(s, w);
      assert v in s'.clients ==> s'.clients[v].unacked == s.clients[v].unacked;
      assert Wire(s', v) == Wire(s, v);
    }
  }

  lemma AckBalanced(s: State, w: Viewer, count: nat, v: Viewer, acked: nat)
    requires Balanced(s, v, acked) && (w == v && v in s.clients ==> count <= s.clients[v].unacked)
    ensures Balanced(AckStep(s, w, count), v, if w == v then acked + count else acked)
  {}

  lemma SameBalanced(s: State, s': State, v: Viewer, acked: nat)
    requires Balanced(s, v, acked) && Wire(s', v) == Wire(s, v)
    requires v in s'.clients ==> v in s.clients && s'.clients[v].unacked == s.clients[v].unacked
    ensures Balanced(s', v, acked)
  {}

  lemma OtherBalanced(s: State, step: Step, v: Viewer, acked: nat)
    requires Balanced(s, v, acked) && (step.Ingest? || step.Absorb? || step.Detach? || step.Close? || step.Tick?)
    ensures Balanced(Apply(s, step), v, acked)
  {
    SameBalanced(s, Apply(s, step), v, acked);
  }

  lemma FlushKeepsBalance(s: State, v: Viewer, acked: nat)
    requires Balanced(s, v, acked)
    ensures Balanced(FlushStep(s), v, acked)
  {
    if v in s.clients && s.pending.bytes != [] { FlushBalanced(s, v, acked); }
  }

  lemma StepBalanced(s: State, step: Step, v: Viewer, acked: nat)
    requires Balanced(s, v, acked)
    requires step.Ack? && step.viewer == v ==> v in s.clients && step.count <= s.clients[v].unacked
    ensures Balanced(Apply(s, step), v, Acked(step, v, acked))
  {
    match step
    case Flush => FlushKeepsBalance(s, v, acked);
    case Attach(w) => AttachBalanced(s, w, v, acked);
    case Ack(w, count) => AckBalanced(s, w, count, v, acked);
    case ResyncDue(w) => ResyncBalanced(s, w, v, acked);
    case _ => OtherBalanced(s, step, v, acked);
  }

  /** With honest acks the credit a viewer owes is exactly what it was sent since it attached, less
      what it acked */
  lemma {:induction false} CreditIsTheBalance(s: State, steps: seq<Step>, v: Viewer, acked: nat)
    requires Balanced(s, v, acked) && Honest(s, steps, v)
    ensures Balanced(Run(s, steps), v, AckedSince(steps, v, acked))
    decreases |steps|
  {
    if steps != [] {
      StepBalanced(s, steps[0], v, acked);
      CreditIsTheBalance(Apply(s, steps[0]), steps[1..], v, Acked(steps[0], v, acked));
    }
  }

  // ----- the end of a lag

  function AckOf(step: Step, v: Viewer): nat {
    if step.Ack? && step.viewer == v then step.count else 0
  }

  function TotalAcked(steps: seq<Step>, v: Viewer): nat
    decreases |steps|
  {
    if steps == [] then 0
    else AckOf(steps[0], v) + TotalAcked(steps[1..], v)
  }

  /** The viewer stays attached and its resync is not done */
  predicate LeavesLagging(step: Step, v: Viewer) {
    step != Attach(v) && step != ResyncDue(v) && (step.Detach? ==> v !in step.gone)
  }

  predicate Lags(s: State, v: Viewer, frames: seq<Frame>, unacked: int) {
    v in s.clients && s.clients[v].lagging && Wire(s, v) == frames && s.clients[v].unacked == unacked
  }

  lemma FlushWhileLagging(s: State, v: Viewer, frames: seq<Frame>, unacked: int)
    requires Lags(s, v, frames, unacked)
    ensures Lags(FlushStep(s), v, frames, unacked)
  {
    assert frames + [] == frames;
    if s.pending.bytes != [] { FlushedRecord(s, v); }
  }

  lemma LagStep(s: State, step: Step, v: Viewer, frames: seq<Frame>, unacked: int)
    requires Lags(s, v, frames, unacked) && LeavesLagging(step, v)
    ensures Lags(Apply(s, step), v, frames, Max(0, unacked - AckOf(step, v)))
  {
    match step
    case Flush => FlushWhileLagging(s, v, frames, unacked);
    case Ack(u, count) => AckWhileLagging(s, u, count, v, frames, unacked);
    case _ =>
  }

  lemma AckWhileLagging(s: State, u: Viewer, count: nat, v: Viewer, frames: seq<Frame>, unacked: int)
    requires Lags(s, v, frames, unacked)
    ensures Lags(AckStep(s, u, count), v, frames, Max(0, unacked - AckOf(Ack(u, count), v)))
  {}

  lemma {:induction false} LagShrinks(s: State, steps: seq<Step>, v: Viewer, frames: seq<Frame>, unacked: int)
    requires Lags(s, v, frames, unacked) && forall i :: 0 <= i < |steps| ==> LeavesLagging(steps[i], v)
    ensures Lags(Run(s, steps), v, frames, Max(0, unacked - TotalAcked(steps, v)))
    decreases |steps|
  {
    if steps != [] {
      LagStep(s, steps[0], v, frames, unacked);
      LagShrinks(Apply(s, steps[0]), steps[1..], v, frames, Max(0, unacked - AckOf(steps[0], v)));
    }
  }

  lemma ResyncEndsLag(s: State, v: Viewer)
    requires v in s.clients && s.clients[v].lagging && v in s.due
    ensures var r := ResyncStep(s, v);
      && v in r.clients && !r.clients[v].lagging && r.output == s.output
      && Wire(r, v) == Wire(s, v) + [Resync(|s.output|, s.output)] && Drawn(Wire(r, v)) == s.output
  {
    FaithfulDrawn(Wire(s, v), Resync(|s.output|, s.output));
  }

  lemma LagIsDue(s: State, v: Viewer, frames: seq<Frame>, unacked: int)
    requires Credit(s) && Lags(s, v, frames, unacked) && unacked <= LOW_WATER
    ensures v in s.due
  {
    assert CreditOk(s.clients[v], v in s.due);
  }

  /** While a viewer lags it is sent nothing, whatever the others do; once its acks cover all but
      LOW_WATER of what it owes, its resync is due, and that one frame brings it level with the screen */
  lemma {:induction false} LagEnds(s: State, steps: seq<Step>, v: Viewer)
    requires Credit(s) && v in s.clients && s.clients[v].lagging
    requires forall i :: 0 <= i < |steps| ==> LeavesLagging(steps[i], v)
    requires TotalAcked(steps, v) + 256 * 1024 >= s.clients[v].unacked
    ensures var s' := Run(s, steps);
      && Wire(s', v) == Wire(s, v) && v in s'.due && v in s'.clients
      && var r := ResyncStep(s', v);
         && v in r.clients && !r.clients[v].lagging
         && Wire(r, v) == Wire(s, v) + [Resync(|r.output|, r.output)] && Drawn(Wire(r, v)) == r.output
  {
    var frames, unacked := Wire(s, v), s.clients[v].unacked;
    RunCredit(s, steps);
    LagShrinks(s, steps, v, frames, unacked);
    LagIsDue(Run(s, steps), v, frames, Max(0, unacked - TotalAcked(steps, v)));
    ResyncEndsLag(Run(s, steps), v);
  }

  // ----- one viewer's acks and lag never change another's stream

  predicate SameFor(s: State, t: State, v: Viewer) {
    && s.output == t.output && s.queue == t.queue && s.pending == t.pending
    && s.now == t.now && s.closing == t.closing
    && s.clients.Keys == t.clients.Keys
    && (v in s.clients ==> s.clients[v] == t.clients[v])
    && Wire(s, v) == Wire(t, v) && s.due[v] == t.due[v]
  }

  predicate AnothersAck(step: Step, v: Viewer) {
    (step.Ack? || step.ResyncDue?) && step.viewer != v
  }

  function WithoutOthersAcks(steps: seq<Step>, v: Viewer): seq<Step>
    decreases |steps|
  {
    if steps == [] then []
    else (if AnothersAck(steps[0], v) then [] else [steps[0]]) + WithoutOthersAcks(steps[1..], v)
  }

  lemma SameFlush(s: State, t: State, v: Viewer)
    requires SameFor(s, t, v)
    ensures SameFor(FlushStep(s), FlushStep(t), v)
  {
    if s.pending.bytes != [] {
      var s', t' := FlushStep(s), FlushStep(t);
      assert s'.clients.Keys == s.clients.Keys && t'.clients.Keys == t.clients.Keys;
      assert Wire(s', v) == Wire(s, v) + (if v in s.clients then FlushViewer(s.clients[v], s.pending, s.now).1 else []);
      assert Wire(t', v) == Wire(t, v) + (if v in t.clients then FlushViewer(t.clients[v], t.pending, t.now).1 else []);
    }
  }

  lemma SameIngest(s: State, t: State, bytes: Bytes, v: Viewer)
    requires SameFor(s, t, v)
    ensures SameFor(IngestStep(s, bytes), IngestStep(t, bytes), v)
  {
    assert s.clients == map[] <==> s.clients.Keys == {};
    assert t.clients == map[] <==> t.clients.Keys == {};
  }

  lemma SameAttach(s: State, t: State, w: Viewer, v: Viewer)
    requires SameFor(s, t, v)
    ensures SameFor(AttachStep(s, w), AttachStep(t, w), v)
  {}

  lemma SameAck(s: State, t: State, count: nat, v: Viewer)
    requires SameFor(s, t, v)
    ensures SameFor(AckStep(s, v, count), AckStep(t, v, count), v)
  {}

  lemma ResyncOf(s: State, v: Viewer)
    ensures var s' := ResyncStep(s, v);
      && s'.output == s.output && s'.queue == s.queue && s'.pending == s.pending
      && s'.now == s.now && s'.closing == s.closing && s'.clients.Keys == s.clients.Keys
      && s'.due[v] == if s.due[v] > 0 then s.due[v] - 1 else 0
  {}

  lemma SameResync(s: State, t: State, v: Viewer)
    requires SameFor(s, t, v)
    ensures SameFor(ResyncStep(s, v), ResyncStep(t, v), v)
  {
    ResyncOf(s, v);
    ResyncOf(t, v);
    assert v in s.due <==> v in t.due;
  }

  lemma SameStep(s: State, t: State, step: Step, v: Viewer)
    requires SameFor(s, t, v) && !AnothersAck(step, v)
    ensures SameFor(Apply(s, step), Apply(t, step), v)
  {
    match step
    case Ingest(bytes) => SameIngest(s, t, bytes, v);
    case Flush => SameFlush(s, t, v);
    case Attach(w) => SameAttach(s, t, w, v);
    case Ack(_, count) => SameAck(s, t, count, v);
    case ResyncDue(_) => SameResync(s, t, v);
    case Detach(_) =>
    case Absorb =>
    case Close =>
    case Tick(_) =>
  }

  lemma AnothersAckIsSame(s: State, t: State, step: Step, v: Viewer)
    requires SameFor(s, t, v) && AnothersAck(step, v)
    ensures SameFor(Apply(s, step), t, v)
  {}

  /** Dropping every ack and resync of the other viewers from a run leaves this viewer's record, its
      credit and every byte it was sent as they were */
  lemma {:induction false} ViewersAreIsolated(s: State, t: State, steps: seq<Step>, v: Viewer)
    requires SameFor(s, t, v)
    ensures SameFor(Run(s, steps), Run(t, WithoutOthersAcks(steps, v)), v)
    decreases |steps|
  {
    if steps != [] {
      var rest := WithoutOthersAcks(steps[1..], v);
      if AnothersAck(steps[0], v) {
        AnothersAckIsSame(s, t, steps[0], v);
        ViewersAreIsolated(Apply(s, steps[0]), t, steps[1..], v);
        assert [] + rest == rest;
      } else {
        SameStep(s, t, steps[0], v);
        ViewersAreIsolated(Apply(s, steps[0]), Apply(t, steps[0]), steps[1..], v);
        assert ([steps[0]] + rest)[1..] == rest;
      }
    }
  }

  // ----- exactly when the stream has a hole

  function AbsorbAll(s: State): State
    decreases |s.queue|
  {
    if s.queue == [] then s else AbsorbAll(AbsorbStep(s))
  }

  lemma {:induction false} AbsorbAllIsARun(s: State) returns (steps: seq<Step>)
    ensures Run(s, steps) == AbsorbAll(s) && HoleFree(s, steps)
    ensures forall i :: 0 <= i < |steps| ==> steps[i] == Absorb
    decreases |s.queue|
  {
    if s.queue == [] {
      steps := [];
    } else {
      var rest := AbsorbAllIsARun(AbsorbStep(s));
      steps := [Absorb] + rest;
      assert steps[1..] == rest;
    }
  }

  /** The batch keeps the seq of its first chunk and takes in every byte of the queue */
  lemma {:induction false} AbsorbAllState(s: State, at: nat)
    requires forall i :: 0 <= i < |s.queue| ==> s.queue[i].bytes != []
    requires if s.pending.bytes != [] then s.pending.at == at else s.queue != [] && s.queue[0].at == at
    ensures var s' := AbsorbAll(s);
      s' == s.(queue := [], pending := Chunk(at, Backlog(s)))
    decreases |s.queue|
  {
    if s.queue != [] {
      var s1 := AbsorbStep(s);
      assert Backlog(s1) == Backlog(s);
      AbsorbAllState(s1, at);
    } else {
      assert Backlog(s) == s.pending.bytes;
    }
  }

  lemma {:induction false} RunAppend(s: State, a: seq<Step>, b: seq<Step>)
    ensures Run(s, a + b) == Run(Run(s, a), b)
    ensures HoleFree(s, a + b) <==> HoleFree(s, a) && HoleFree(Run(s, a), b)
    decreases |a|
  {
    if a == [] {
      assert a + b == b;
    } else {
      assert (a + b)[1..] == a[1..] + b;
      RunAppend(Apply(s, a[0]), a[1..], b);
    }
  }

  lemma {:induction false} RunTwo(s: State, a: Step, b: Step)
    ensures Run(s, [a, b]) == Apply(Apply(s, a), b)
    ensures HoleFree(s, [a, b]) <==> KeepsWhole(s, a) && KeepsWhole(Apply(s, a), b)
  {
    assert [a, b][1..] == [b] && [b][1..] == [];
    assert Run(Apply(s, a), [b]) == Apply(Apply(s, a), b);
    assert HoleFree(Apply(s, a), [b]) <==> KeepsWhole(Apply(s, a), b);
  }

  /** A viewer attaches, one byte arrives, and the coalescer batches everything and flushes it */
  lemma AttachAndDrain(s: State, v: Viewer) returns (steps: seq<Step>)
    ensures var s' := IngestStep(AttachStep(s, v), [0]);
      HoleFree(s, steps) && Run(s, steps) == FlushStep(AbsorbAll(s'))
  {
    var s' := IngestStep(AttachStep(s, v), [0]);
    var absorbs := AbsorbAllIsARun(s');
    var start: seq<Step> := [Attach(v), Ingest([0])];
    RunTwo(s, Attach(v), Ingest([0]));
    assert v in AttachStep(s, v).clients;
    assert [Flush][1..] == [];
    RunAppend(s, start, absorbs);
    RunAppend(s, start + absorbs, [Flush]);
    steps := start + absorbs + [Flush];
  }

  /** The viewer of a hole: attached right after the lost bytes, it is never sent the byte that follows
      them, because the batch still counts from before the hole */
  lemma HoleShows(s: State, bytes: Bytes, v: Viewer)
    requires Inv(s) && s.clients == map[] && bytes != [] && Backlog(s) != []
    ensures var s' := FlushStep(AbsorbAll(IngestStep(AttachStep(IngestStep(s, bytes), v), [0])));
      v in s'.clients && !Shows(s', v)
  {
    var s1 := IngestStep(s, bytes);
    var s2 := AttachStep(s1, v);
    assert v in s2.clients;
    var s3 := IngestStep(s2, [0]);
    LostByte(s, s3, AbsorbAll(s3), |bytes|);
    FaithfulDrawn(Wire(s1, v), Snapshot(|s1.output|, s1.output));
    FlushSkips(AbsorbAll(s3), v);
  }

  lemma FlushSkips(s: State, v: Viewer)
    requires v in s.clients && v in s.wire && !s.clients[v].lagging && s.queue == []
    requires Skip(s.clients[v], s.pending) >= |s.pending.bytes| > 0
    requires |Drawn(s.wire[v])| < |s.output|
    ensures v in FlushStep(s).clients && !Shows(FlushStep(s), v)
  {
    var s' := FlushStep(s);
    assert s'.clients[v] == s.clients[v];
    assert Wire(s', v) == s.wire[v] + [] == s.wire[v];
    assert Backlog(s') == [];
  }

  lemma {:induction false} FaithfulDrawn(before: seq<Frame>, f: Frame)
    ensures Drawn(before + [f]) == Draw(Drawn(before), f)
  {
    assert (before + [f])[..|before|] == before;
  }

  lemma {:induction false} QueueNotEmpty(queue: seq<Chunk>, at: int)
    requires QueueAt(queue, at)
    ensures forall i :: 0 <= i < |queue| ==> queue[i].bytes != []
  {
    if queue != [] {
      QueueNotEmpty(queue[1..], at + |queue[0].bytes|);
      forall i | 0 <= i < |queue| ensures queue[i].bytes != [] {
        if i > 0 { assert queue[i] == queue[1..][i - 1]; }
      }
    }
  }

  lemma {:induction false} LostByte(s: State, s3: State, s4: State, lost: nat)
    requires Inv(s) && s.clients == map[] && lost > 0 && Backlog(s) != []
    requires s3.pending == s.pending && |s3.output| == |s.output| + lost + 1
    requires s3.queue == s.queue + [Chunk(|s.output| + lost, [0])] && s4 == AbsorbAll(s3)
    ensures s4.pending.at == Frontier(s) && |s4.pending.bytes| == |Backlog(s)| + 1
    ensures s4 == s3.(queue := [], pending := s4.pending)
  {
    QueueNotEmpty(s.queue, Frontier(s) + |s.pending.bytes|);
    if s.pending.bytes == [] { assert Backlog(s) == QueueBytes(s.queue); assert s.queue != []; }
    AbsorbAllState(s3, Frontier(s));
    QueueBytesSnoc(s.queue, Chunk(|s.output| + lost, [0]));
  }

  lemma {:induction false} QueueBytesSnoc(queue: seq<Chunk>, c: Chunk)
    ensures QueueBytes(queue + [c]) == QueueBytes(queue) + c.bytes
  {
    if queue == [] {
      assert queue + [c] == [c] && [c][1..] == [];
    } else {
      assert (queue + [c])[1..] == queue[1..] + [c];
      QueueBytesSnoc(queue[1..], c);
    }
  }

  lemma {:induction false} RunThree(s: State, a: Step, b: Step, c: Step)
    ensures Run(s, [a, b, c]) == Apply(Apply(Apply(s, a), b), c)
    ensures HoleFree(s, [a, b, c]) <==>
            KeepsWhole(s, a) && KeepsWhole(Apply(s, a), b) && KeepsWhole(Apply(Apply(s, a), b), c)
  {
    assert [a, b, c][1..] == [b, c];
    RunTwo(Apply(s, a), b, c);
  }

  lemma OneQueued(s: State, bytes: Bytes)
    requires s.clients != map[] && s.queue == [] && s.pending.bytes == [] && bytes != []
    ensures Backlog(IngestStep(s, bytes)) == bytes
  {
    var chunk := Chunk(|s.output|, bytes);
    assert s.queue + [chunk] == [chunk] && |[chunk][1..]| == 0;
    assert QueueBytes([chunk]) == bytes + [] == bytes;
  }

  lemma LeavesBacklog(s: State, u: Viewer)
    requires s.clients == map[] && s.queue == [] && s.pending.bytes == []
    ensures var s' := Apply(Apply(Apply(s, Attach(u)), Ingest([0])), Detach({u}));
      s'.clients == map[] && Backlog(s') == [0]
  {
    var s1 := AttachStep(s, u);
    assert u in s1.clients && s1.clients - {u} == map[];
    OneQueued(s1, [0]);
    SameBacklog(IngestStep(s1, [0]), Apply(IngestStep(s1, [0]), Detach({u})));
  }

  /** A viewer attaches, one byte is read and queued, and the viewer leaves before it is flushed: such a state is
      reached from the start, without a hole */
  lemma BacklogWithoutViewers(u: Viewer)
    ensures var s := Run(START, [Attach(u), Ingest([0]), Detach({u})]);
      HoleFree(START, [Attach(u), Ingest([0]), Detach({u})]) && Inv(s) && s.clients == map[] && Backlog(s) == [0]
  {
    RunThree(START, Attach(u), Ingest([0]), Detach({u}));
    assert u in Apply(START, Attach(u)).clients;
    LeavesBacklog(START, u);
    BeginInv([]);
    RunInv(START, [Attach(u), Ingest([0]), Detach({u})]);
  }

  /** From the start: output is read while nobody is attached and older output is still queued, and the viewer that
      attaches next is not shown the byte after it */
  lemma HoleIsReached(u: Viewer, bytes: Bytes, v: Viewer) returns (steps: seq<Step>)
    requires bytes != []
    ensures var s := Run(START, [Attach(u), Ingest([0]), Detach({u}), Ingest(bytes)] + steps);
      v in s.clients && !Shows(s, v)
  {
    var start: seq<Step> := [Attach(u), Ingest([0]), Detach({u})];
    BacklogWithoutViewers(u);
    var s0 := Run(START, start);
    HoleShows(s0, bytes, v);
    steps := AttachAndDrain(IngestStep(s0, bytes), v);
    RunOnto(start, Ingest(bytes), steps);
    assert start + [Ingest(bytes)] == [Attach(u), Ingest([0]), Detach({u}), Ingest(bytes)];
  }

  lemma {:induction false} RunOnto(start: seq<Step>, step: Step, steps: seq<Step>)
    ensures Run(START, start + [step] + steps) == Run(Apply(Run(START, start), step), steps)
  {
    var s0, next := Run(START, start), [step];
    assert next[1..] == [] && Run(s0, next) == Apply(s0, step);
    RunAppend(START, start, next);
    RunAppend(START, start + next, steps);
  }

  /** Output that arrives while no viewer is attached leaves every later viewer exact if and only if
      nothing older is still on its way to the flush */
  lemma HoleExactly(s: State, bytes: Bytes)
    requires Inv(s) && s.clients == map[] && bytes != []
    ensures Backlog(s) == [] <==>
            forall steps :: HoleFree(IngestStep(s, bytes), steps) ==> AllShow(Run(IngestStep(s, bytes), steps))
  {
    var s1 := IngestStep(s, bytes);
    if Backlog(s) == [] {
      IngestInv(s, bytes);
      forall steps | HoleFree(s1, steps) ensures AllShow(Run(s1, steps)) {
        RunInv(s1, steps);
        InvShows(Run(s1, steps));
      }
    } else {
      var v := Viewer(0, None);
      var steps := AttachAndDrain(s1, v);
      HoleShows(s, bytes, v);
      assert !AllShow(Run(s1, steps));
    }
  }
}
