/** The reader thread and the condition variable it waits on for credit. A step of the stream either
    notifies while it holds the flow lock, or leaves a notification to be delivered after it let go. */
module Wakeup {
  import opened Wrappers
  import opened Stream

  datatype Reader = Running | Blocked

  datatype World = World(s: State, reader: Reader, notifies: nat)

  datatype Move =
    | Check               // the reader evaluates its wait condition and sleeps when it holds
    | Notify              // a notification left behind by an ack, an attach or a signal is delivered
    | Do(step: Step)

  predicate Stuck(s: State, v: Viewer)
    requires v in s.clients
  {
    s.clients[v].lagging && s.now - s.clients[v].progress >= STUCK
  }

  predicate MustWait(s: State) {
    !s.closing && exists v :: v in s.clients && Stuck(s, v)
  }

  function Next(w: World, move: Move): World {
    match move
    case Check => if w.reader.Running? && MustWait(w.s) then w.(reader := Blocked) else w
    case Notify => if w.notifies == 0 then w else w.(notifies := w.notifies - 1, reader := Running)
    case Do(step) =>
      var w' := w.(s := Apply(w.s, step));
      match step
      case Attach(_) => w'.(notifies := w.notifies + 1)
      case Ack(v, _) => if v in w.s.clients then w'.(notifies := w.notifies + 1) else w'
      case Detach(_) => w'.(reader := Running)
      case Close => w'.(notifies := w.notifies + 1)
      case _ => w'
  }

  function Play(w: World, moves: seq<Move>): World
    decreases |moves|
  {
    if moves == [] then w else Play(Next(w, moves[0]), moves[1..])
  }

  /** A sleeping reader still has something to wait for, or a notification on its way */
  predicate Awake(w: World) {
    w.reader.Blocked? ==> MustWait(w.s) || w.notifies > 0
  }

  /** The resync follows the ack that made it due within the time that makes a viewer stuck */
  predicate Prompt(w: World, move: Move) {
    move.Do? && move.step.ResyncDue? && move.step.viewer in w.s.clients ==> !Stuck(w.s, move.step.viewer)
  }

  predicate AllPrompt(w: World, moves: seq<Move>)
    decreases |moves|
  {
    moves == [] || (Prompt(w, moves[0]) && AllPrompt(Next(w, moves[0]), moves[1..]))
  }

  lemma WaitPersists(s: State, step: Step, v: Viewer)
    requires !s.closing && v in s.clients && Stuck(s, v)
    requires step != Close && step != Attach(v) && !step.Detach? && !(step.Ack? && step.viewer == v)
    requires step != ResyncDue(v)
    ensures MustWait(Apply(s, step))
  {
    var s' := Apply(s, step);
    assert v in s'.clients && s'.clients[v] == s.clients[v] && s'.now >= s.now;
    assert Stuck(s', v);
  }

  lemma NextAwake(w: World, move: Move)
    requires Awake(w) && Prompt(w, move)
    ensures Awake(Next(w, move))
  {
    if move.Do? && w.reader.Blocked? && w.notifies == 0 {
      var step := move.step;
      var v :| v in w.s.clients && Stuck(w.s, v);
      if !(step == Close || step.Detach? || step == Attach(v) || (step.Ack? && step.viewer == v)) {
        WaitPersists(w.s, step, v);
      }
    }
  }

  /** No wakeup is lost: over every interleaving in which resyncs are prompt, a reader that sleeps has a
      stuck viewer to wait for or is about to be notified */
  lemma {:induction false} NoLostWakeup(w: World, moves: seq<Move>)
    requires Awake(w) && AllPrompt(w, moves)
    ensures Awake(Play(w, moves))
    decreases |moves|
  {
    if moves != [] {
      NextAwake(w, moves[0]);
      NoLostWakeup(Next(w, moves[0]), moves[1..]);
    }
  }

  /** A resync clears the lag without notifying, so it loses the wakeup exactly when the viewer it
      resyncs was the only stuck one and nothing else is about to wake the reader */
  lemma ResyncWakesExactly(w: World, v: Viewer)
    requires Awake(w) && v in w.s.due && v in w.s.clients
    ensures Awake(Next(w, Do(ResyncDue(v)))) <==>
      (w.reader.Running? || w.notifies > 0 || !Stuck(w.s, v) || exists u :: u in w.s.clients && u != v && Stuck(w.s, u))
  {
    var w' := Next(w, Do(ResyncDue(v)));
    if w.reader.Blocked? && w.notifies == 0 {
      if !Stuck(w.s, v) {
        NextAwake(w, Do(ResyncDue(v)));
      } else if u :| u in w.s.clients && u != v && Stuck(w.s, u) {
        WaitPersists(w.s, ResyncDue(v), u);
      } else {
        assert !w'.s.clients[v].lagging;
        forall u | u in w'.s.clients ensures !Stuck(w'.s, u) {
          if u != v { assert w'.s.clients[u] == w.s.clients[u]; }
        }
      }
    }
  }

  // ----- what makes the reader wait, read off the run

  const BEGUN := World(START, Running, 0)

  function Clock(moves: seq<Move>): nat {
    if moves == [] then 0 else
    var n := |moves| - 1;
    Clock(moves[..n]) + (if moves[n].Do? && moves[n].step.Tick? then moves[n].step.ms else 0)
  }

  predicate Lags(s: State, v: Viewer) { v in s.clients && s.clients[v].lagging }

  /** A viewer acks while it is attached, or starts to lag */
  predicate Signs(before: World, move: Move, after: World, v: Viewer) {
    (v in before.s.clients && move.Do? && move.step.Ack? && move.step.viewer == v) ||
    (!Lags(before.s, v) && Lags(after.s, v))
  }

  /** The time of the last such sign over a run from the start */
  function LastSign(moves: seq<Move>, v: Viewer): nat
    decreases |moves|
  {
    if moves == [] then 0 else
    var n := |moves| - 1;
    if Signs(Play(BEGUN, moves[..n]), moves[n], Play(BEGUN, moves), v) then Clock(moves[..n])
    else LastSign(moves[..n], v)
  }

  lemma {:induction false} PlayAppend(w: World, a: seq<Move>, b: seq<Move>)
    ensures Play(w, a + b) == Play(Play(w, a), b)
    decreases |a|
  {
    if a == [] {
      assert a + b == b;
    } else {
      assert (a + b)[1..] == a[1..] + b;
      PlayAppend(Next(w, a[0]), a[1..], b);
    }
  }

  lemma {:induction false} PlaySnoc(w: World, moves: seq<Move>)
    requires moves != []
    ensures Play(w, moves) == Next(Play(w, moves[..|moves| - 1]), moves[|moves| - 1])
  {
    var front, last := moves[..|moves| - 1], moves[|moves| - 1];
    var one := [last];
    assert moves == front + one && one[1..] == [];
    PlayAppend(w, front, one);
    assert Play(Play(w, front), one) == Next(Play(w, front), last);
  }

  lemma {:induction false} LaggingSince(a: Attached, at: nat, bytes: Bytes, now: nat)
    requires !a.lagging && SendChunks(a, at, bytes, now).0.lagging
    ensures SendChunks(a, at, bytes, now).0.progress == now
    decreases |bytes|
  {
    if bytes != [] && a.unacked <= HIGH_WATER {
      var n := if |bytes| < MAX_DATA_FRAME then |bytes| else MAX_DATA_FRAME;
      LaggingSince(a.(unacked := a.unacked + n), at + n, bytes[n..], now);
    }
  }

  lemma FlushProgress(a: Attached, pending: Chunk, now: nat)
    requires FlushViewer(a, pending, now).0.lagging
    ensures FlushViewer(a, pending, now).0.progress == if a.lagging then a.progress else now
  {
    var skip := Skip(a, pending);
    if !a.lagging && skip < |pending.bytes| { LaggingSince(a, pending.at + skip, pending.bytes[skip..], now); }
  }

  /** The progress of a viewer that lags after a step: the time, when it has acked or started to lag */
  lemma StepProgress(s: State, step: Step, v: Viewer)
    requires Lags(Apply(s, step), v)
    ensures v in s.clients && Apply(s, step).clients[v].progress
            == if (step.Ack? && step.viewer == v) || !Lags(s, v) then s.now else s.clients[v].progress
  {
    if step.Flush? && v in s.clients && s.pending.bytes != [] { FlushProgress(s.clients[v], s.pending, s.now); }
  }

  /** A step leaves a lagging viewer's progress alone unless it signs, and then it is the time */
  lemma StepSigns(w: World, step: Step, v: Viewer)
    requires Lags(Apply(w.s, step), v)
    ensures v in w.s.clients && Apply(w.s, step).clients[v].progress
            == if Signs(w, Do(step), Next(w, Do(step)), v) then w.s.now else w.s.clients[v].progress
    ensures !Signs(w, Do(step), Next(w, Do(step)), v) ==> Lags(w.s, v)
  {
    StepProgress(w.s, step, v);
  }

  lemma StepClocks(s: State, step: Step)
    ensures Apply(s, step).now == s.now + (if step.Tick? then step.ms else 0)
    ensures Apply(s, step).closing <==> s.closing || step == Close
  {}

  lemma {:induction false} ClockIs(moves: seq<Move>)
    ensures Play(BEGUN, moves).s.now == Clock(moves)
    ensures Play(BEGUN, moves).s.closing <==> Do(Close) in moves
    decreases |moves|
  {
    if moves != [] {
      var n := |moves| - 1;
      ClockIs(moves[..n]);
      PlaySnoc(BEGUN, moves);
      assert moves == moves[..n] + [moves[n]];
      if moves[n].Do? { StepClocks(Play(BEGUN, moves[..n]).s, moves[n].step); }
    }
  }

  lemma {:induction false} ProgressIs(moves: seq<Move>, v: Viewer)
    ensures Lags(Play(BEGUN, moves).s, v) ==> Play(BEGUN, moves).s.clients[v].progress == LastSign(moves, v)
    decreases |moves|
  {
    if moves != [] {
      var n := |moves| - 1;
      var w := Play(BEGUN, moves[..n]);
      ProgressIs(moves[..n], v);
      PlaySnoc(BEGUN, moves);
      ClockIs(moves[..n]);
      if moves[n].Do? && Lags(Apply(w.s, moves[n].step), v) { StepSigns(w, moves[n].step, v); }
    }
  }

  /** Some attached viewer lags, and its last ack and the start of its lag lie five seconds back or more */
  ghost predicate Overdue(moves: seq<Move>) {
    exists v :: Lags(Play(BEGUN, moves).s, v) && Clock(moves) >= LastSign(moves, v) + 5000
  }

  lemma {:induction false} OverdueIsStuck(moves: seq<Move>)
    ensures MustWait(Play(BEGUN, moves).s) <==> Do(Close) !in moves && Overdue(moves)
  {
    var s := Play(BEGUN, moves).s;
    ClockIs(moves);
    forall v | v in s.clients
      ensures Stuck(s, v) <==> Lags(s, v) && Clock(moves) >= LastSign(moves, v) + 5000
    {
      ProgressIs(moves, v);
    }
  }

  /** Over every run from the start a check puts the reader to sleep if and only if nothing has closed the session and
      some viewer has lagged for five seconds without an ack */
  lemma {:induction false} SleepsExactly(moves: seq<Move>)
    requires Play(BEGUN, moves).reader.Running?
    ensures Play(BEGUN, moves + [Check]).reader.Blocked? <==> Do(Close) !in moves && Overdue(moves)
  {
    PlaySnoc(BEGUN, moves + [Check]);
    assert (moves + [Check])[..|moves|] == moves;
    OverdueIsStuck(moves);
  }

  // ----- what wakes it

  /** A sleeping reader sleeps on until a detach or a notification that was left behind */
  lemma {:induction false} SleepsOn(w: World, moves: seq<Move>)
    requires w.reader.Blocked? && forall move :: move in moves ==> move != Notify && !(move.Do? && move.step.Detach?)
    ensures Play(w, moves).reader.Blocked?
    decreases |moves|
  {
    if moves != [] {
      assert moves[0] in moves && forall move :: move in moves[1..] ==> move in moves;
      SleepsOn(Next(w, moves[0]), moves[1..]);
    }
  }

  /** Whether a move leaves a notification behind: an ack of an attached viewer, an attach and a close do */
  function Left(before: World, move: Move): nat {
    if move.Do? && (move.step.Attach? || move.step.Close? || (move.step.Ack? && move.step.viewer in before.s.clients))
    then 1 else 0
  }

  function Notifications(moves: seq<Move>): nat
    decreases |moves|
  {
    if moves == [] then 0
    else Notifications(moves[..|moves| - 1]) + Left(Play(BEGUN, moves[..|moves| - 1]), moves[|moves| - 1])
  }

  /** The notifications that have been delivered */
  function Delivered(moves: seq<Move>): nat
    decreases |moves|
  {
    if moves == [] then 0
    else Delivered(moves[..|moves| - 1])
         + (if moves[|moves| - 1] == Notify && Play(BEGUN, moves[..|moves| - 1]).notifies > 0 then 1 else 0)
  }

  /** Every notification is delivered once or still on its way */
  lemma {:induction false} NotificationsAreConserved(moves: seq<Move>)
    ensures Delivered(moves) + Play(BEGUN, moves).notifies == Notifications(moves)
    decreases |moves|
  {
    if moves != [] {
      NotificationsAreConserved(moves[..|moves| - 1]);
      PlaySnoc(BEGUN, moves);
    }
  }

  // ----- a run that loses the wakeup

  /** What one read of the PTY brings at most */
  const READ_BUF := 64 * 1024

  function Buffer(): (b: Bytes)
    ensures |b| == READ_BUF
  {
    seq(READ_BUF, _ => 0)
  }

  /** A full read that is batched and flushed at once */
  function Cycle(): seq<Move> { [Do(Ingest(Buffer())), Do(Absorb), Do(Flush)] }

  function Flood(n: nat): seq<Move> { if n == 0 then [] else Flood(n - 1) + Cycle() }

  /** `v` was sent `n` full reads and acked none of them */
  predicate Flooded(w: World, v: Viewer, n: nat) {
    && w.reader.Running? && w.notifies == 0
    && w.s.clients == map[v := Attached(0, n * READ_BUF, false, 0)] && v in w.s.wire
    && |w.s.output| == n * READ_BUF && w.s.queue == [] && w.s.pending == Chunk(n * READ_BUF, [])
    && w.s.due == multiset{} && !w.s.closing && w.s.now == 0
  }

  lemma {:induction false} PlayTwo(w: World, a: Move, b: Move)
    ensures Play(w, [a, b]) == Next(Next(w, a), b)
  {
    assert [a, b][1..] == [b] && [b][1..] == [];
    assert Play(Next(w, a), [b]) == Next(Next(w, a), b);
  }

  lemma {:induction false} PlayThree(w: World, a: Move, b: Move, c: Move)
    ensures Play(w, [a, b, c]) == Next(Next(Next(w, a), b), c)
  {
    assert [a, b, c][1..] == [b, c];
    PlayTwo(Next(w, a), b, c);
  }

  /** The flush at the end of a cycle has one full frame for the viewer */
  lemma OneFrame(s: State, v: Viewer, n: nat)
    requires s.clients == map[v := Attached(0, n * READ_BUF, false, 0)]
    requires s.pending.at == n * READ_BUF && |s.pending.bytes| == READ_BUF && s.now == 0
    ensures FlushStep(s).clients
            == map[v := Attached(0, if n > 16 then n * READ_BUF else (n + 1) * READ_BUF, n > 16, 0)]
  {
    var a, bytes := s.clients[v], s.pending.bytes;
    assert Skip(a, s.pending) == 0 && bytes[0..] == bytes;
    assert bytes[MAX_DATA_FRAME..] == [];
    assert SendChunks(a.(unacked := (n + 1) * READ_BUF), s.pending.at + READ_BUF, [], 0).0
      == a.(unacked := (n + 1) * READ_BUF);
    assert FlushStep(s).clients.Keys == {v};
  }

  lemma {:induction false} OneCycle(w: World, v: Viewer, n: nat)
    requires Flooded(w, v, n) && n <= 17
    ensures var w' := Play(w, Cycle());
      if n <= 16 then Flooded(w', v, n + 1)
      else w'.s.clients == map[v := Attached(0, 17 * READ_BUF, true, 0)] && w'.reader.Running? && w'.notifies == 0
           && w'.s.due == multiset{} && !w'.s.closing && w'.s.now == 0
  {
    var w1 := Next(w, Do(Ingest(Buffer())));
    var w2 := Next(w1, Do(Absorb));
    assert v in w.s.clients;
    assert w2.s.pending == Chunk(n * READ_BUF, Buffer()) by { assert w2.s.pending.bytes == [] + Buffer(); }
    OneFrame(w2.s, v, n);
    PlayThree(w, Do(Ingest(Buffer())), Do(Absorb), Do(Flush));
  }

  lemma {:induction false} Floods(w: World, v: Viewer, n: nat)
    requires Flooded(w, v, 0) && n <= 17
    ensures Flooded(Play(w, Flood(n)), v, n)
  {
    if n > 0 {
      Floods(w, v, n - 1);
      OneCycle(Play(w, Flood(n - 1)), v, n - 1);
      PlayAppend(w, Flood(n - 1), Cycle());
    }
  }

  lemma {:induction false} FloodReads(n: nat)
    ensures forall move :: move in Flood(n) && move.Do? && move.step.Ingest? ==> |move.step.bytes| <= READ_BUF
  {
    if n > 0 { FloodReads(n - 1); }
  }

  /** A viewer attaches and is sent eighteen full reads: it lags */
  lemma LagRun(v: Viewer) returns (moves: seq<Move>)
    ensures forall move :: move in moves && move.Do? && move.step.Ingest? ==> |move.step.bytes| <= READ_BUF
    ensures var w := Play(BEGUN, moves);
      && w.s.clients == map[v := Attached(0, 17 * READ_BUF, true, 0)] && w.reader.Running? && w.notifies == 0
      && w.s.due == multiset{} && !w.s.closing && w.s.now == 0
  {
    var first: seq<Move> := [Do(Attach(v)), Notify];
    var w0 := BEGUN;
    PlayTwo(w0, Do(Attach(v)), Notify);
    Floods(Play(w0, first), v, 17);
    OneCycle(Play(Play(w0, first), Flood(17)), v, 17);
    PlayAppend(Play(w0, first), Flood(17), Cycle());
    PlayAppend(w0, first, Flood(18));
    FloodReads(18);
    moves := first + Flood(18);
  }

  /** From the start: a viewer that lags acks all it was sent, which makes its resync due. Five seconds later the
      reader checks and goes to sleep, and the resync leaves it asleep though nobody lags any more */
  lemma SlowResyncLosesTheWakeup(v: Viewer) returns (before: seq<Move>)
    ensures forall move :: move in before && move.Do? && move.step.Ingest? ==> |move.step.bytes| <= READ_BUF
    ensures var w := Play(BEGUN, before);
      && v in w.s.clients && w.s.clients[v].lagging
      && var moves: seq<Move> := [Do(Ack(v, w.s.clients[v].unacked)), Notify, Do(Tick(STUCK)), Check];
      && Awake(Play(w, moves)) && Play(w, moves).s.due == multiset{v}
      && !Awake(Play(w, moves + [Do(ResyncDue(v))]))
  {
    before := LagRun(v);
    var w := Play(BEGUN, before);
    var ack: Move := Do(Ack(v, w.s.clients[v].unacked));
    var moves: seq<Move> := [ack, Notify, Do(Tick(STUCK)), Check];
    var w3 := Next(Next(Next(w, ack), Notify), Do(Tick(STUCK)));
    assert w3.s.clients[v] == Attached(0, 0, true, 0) && w3.s.now == STUCK && Stuck(w3.s, v);
    var w4 := Next(w3, Check);
    assert moves[1..] == [Notify, Do(Tick(STUCK)), Check];
    PlayThree(Next(w, ack), Notify, Do(Tick(STUCK)), Check);
    assert Play(w, moves) == Play(Next(w, ack), moves[1..]) == w4;
    var last: seq<Move> := [Do(ResyncDue(v))];
    assert last[1..] == [] && Play(w4, last) == Next(w4, Do(ResyncDue(v)));
    PlayAppend(w, moves, last);
    ResyncWakesExactly(w4, v);
    assert forall u :: u in w4.s.clients ==> u == v;
  }
}
