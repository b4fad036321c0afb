/** From the PTY's output to a webview: what a channel is delivered over a whole run of the client, and
    what it shows when the daemon's frames reach the client in order. */
module EndToEnd {
  import opened Wrappers
  import opened Stream
  import R = Relay

  // ----- a channel's life over a run

  datatype Outcome = Outcome(life: R.Life, sent: seq<Frame>)

  function LifeRun(l: R.Life, c: nat, dead: bool, events: seq<R.Event>): Outcome
    decreases |events|
  {
    if events == [] then Outcome(l, []) else
    var rest := LifeRun(R.NextLife(l, c, dead, events[0]), c, dead || events[0] == R.ChannelDies(c), events[1..]);
    Outcome(rest.life, R.Sent(l, c, dead, events[0]) + rest.sent)
  }

  lemma DeadStep(s: R.Client, c: nat, event: R.Event)
    ensures c in R.Apply(s, event).dead <==> c in s.dead || event == R.ChannelDies(c)
  {}

  /** One step of a channel in the client, ready for the steps after it */
  lemma OneStep(s: R.Client, c: nat, l: R.Life, event: R.Event)
    requires R.Fresh(s) && R.Lives(s, c, l) && R.Enabled(s, event)
    ensures var s' := R.Apply(s, event);
      && R.Fresh(s') && R.Lives(s', c, R.NextLife(l, c, c in s.dead, event))
      && R.Delivered(s', c) == R.Delivered(s, c) + R.Sent(l, c, c in s.dead, event)
      && (c in s'.dead <==> c in s.dead || event == R.ChannelDies(c))
  {
    R.StepRefines(s, c, l, event);
    R.FreshStep(s, event);
    DeadStep(s, c, event);
  }

  /** Every channel is delivered exactly what its own life sends it, whatever the other channels and
      requests do */
  lemma {:induction false} RunRefines(s: R.Client, c: nat, l: R.Life, events: seq<R.Event>)
    requires R.Fresh(s) && R.Lives(s, c, l) && R.Legal(s, events)
    ensures R.Lives(R.Run(s, events), c, LifeRun(l, c, c in s.dead, events).life)
    ensures R.Delivered(R.Run(s, events), c) == R.Delivered(s, c) + LifeRun(l, c, c in s.dead, events).sent
    decreases |events|
  {
    if events == [] {
      assert R.Delivered(s, c) + [] == R.Delivered(s, c);
    } else {
      var s', l' := R.Apply(s, events[0]), R.NextLife(l, c, c in s.dead, events[0]);
      OneStep(s, c, l, events[0]);
      RunRefines(s', c, l', events[1..]);
      Assoc(R.Delivered(s, c), R.Sent(l, c, c in s.dead, events[0]), LifeRun(l', c, c in s'.dead, events[1..]).sent);
    }
  }

  // ----- what was read for a channel

  function ReadOf(event: R.Event, id: nat, key: R.Key): seq<Frame> {
    match event
    case TakeReply(i, Attached(at, screen)) => if i == id then [Snapshot(at, screen)] else []
    case Relay(k, frame) => if k == key then [frame] else []
    case _ => []
  }

  /** The frames the reader took off the connection for one attach, in order */
  function Reads(events: seq<R.Event>, id: nat, key: R.Key): seq<Frame>
    decreases |events|
  {
    if events == [] then [] else ReadOf(events[0], id, key) + Reads(events[1..], id, key)
  }

  /** An attach is answered by one snapshot, before any of its data */
  predicate OneSnapshotFirst(frames: seq<Frame>) {
    forall i :: 0 <= i < |frames| ==> (frames[i].Snapshot? <==> i == 0)
  }

  /** What a channel was sent against what was read for it */
  predicate Follows(l: R.Life, id: nat, session: nat, sent: seq<Frame>, read: seq<Frame>) {
    match l
    case Unborn => false
    case Asked(i, s, _) => i == id && s == session && sent == [] && read == []
    case Opening(s, _, at, screen) => s == session && sent == [] && read == [Snapshot(at, screen)]
    case Joining(s, _) => s == session && sent == read && read != []
    case Live(s, _) => s == session && sent == read && read != []
    case Over => sent <= read
  }

  predicate Asks(event: R.Event, c: nat) {
    event.Ask? && event.stream.Some? && event.stream.value.channel == c
  }

  lemma AskedOnce(s: R.Client, c: nat, l: R.Life, event: R.Event)
    requires R.Lives(s, c, l) && R.Enabled(s, event) && !l.Unborn?
    ensures !Asks(event, c)
  {}

  /** While the reader is busy with the channel's attach it reads nothing else */
  lemma ReaderIsBusy(s: R.Client, c: nat, l: R.Life, event: R.Event)
    requires R.Lives(s, c, l) && R.Enabled(s, event) && (l.Opening? || l.Joining?)
    ensures !event.Relay? && !event.TakeReply?
  {}

  lemma FollowsReply(l: R.Life, c: nat, dead: bool, i: nat, response: R.Response, id: nat, session: nat,
                     sent: seq<Frame>, read: seq<Frame>)
    requires Follows(l, id, session, sent, read) && !l.Opening? && !l.Joining?
    requires OneSnapshotFirst(read + ReadOf(R.TakeReply(i, response), id, R.Key(session, c)))
    ensures Follows(R.NextLife(l, c, dead, R.TakeReply(i, response)), id, session, sent,
                    read + ReadOf(R.TakeReply(i, response), id, R.Key(session, c)))
  {
    var now := ReadOf(R.TakeReply(i, response), id, R.Key(session, c));
    assert read + [] == read;
    assert now != [] ==> (read + now)[|read|] == now[0];
  }

  lemma FollowsRelay(l: R.Life, c: nat, dead: bool, k: R.Key, frame: Frame, id: nat, session: nat, sent: seq<Frame>,
                     read: seq<Frame>)
    requires Follows(l, id, session, sent, read) && !l.Opening? && !l.Joining? && !frame.Snapshot?
    requires OneSnapshotFirst(read + ReadOf(R.Event.Relay(k, frame), id, R.Key(session, c)))
    ensures Follows(R.NextLife(l, c, dead, R.Event.Relay(k, frame)), id, session,
                    sent + R.Sent(l, c, dead, R.Event.Relay(k, frame)),
                    read + ReadOf(R.Event.Relay(k, frame), id, R.Key(session, c)))
  {
    assert sent + [] == sent && read + [] == read;
    assert k == R.Key(session, c) ==> (read + [frame])[|read|] == frame;
  }

  lemma FollowsOther(l: R.Life, c: nat, dead: bool, event: R.Event, id: nat, session: nat, sent: seq<Frame>,
                     read: seq<Frame>)
    requires Follows(l, id, session, sent, read) && !event.TakeReply? && !event.Relay? && !Asks(event, c)
    ensures ReadOf(event, id, R.Key(session, c)) == []
    ensures Follows(R.NextLife(l, c, dead, event), id, session, sent + R.Sent(l, c, dead, event), read)
  {
    assert sent + [] == sent;
  }

  lemma FollowsStep(s: R.Client, c: nat, l: R.Life, event: R.Event, id: nat, session: nat, sent: seq<Frame>,
                    read: seq<Frame>)
    requires R.Lives(s, c, l) && R.Enabled(s, event) && Follows(l, id, session, sent, read)
    requires OneSnapshotFirst(read + ReadOf(event, id, R.Key(session, c)))
    ensures Follows(R.NextLife(l, c, c in s.dead, event), id, session, sent + R.Sent(l, c, c in s.dead, event),
                    read + ReadOf(event, id, R.Key(session, c)))
  {
    AskedOnce(s, c, l, event);
    if l.Opening? || l.Joining? { ReaderIsBusy(s, c, l, event); }
    match event
    case TakeReply(i, response) =>
      FollowsReply(l, c, c in s.dead, i, response, id, session, sent, read);
      assert sent + [] == sent;
    case Relay(k, frame) => FollowsRelay(l, c, c in s.dead, k, frame, id, session, sent, read);
    case _ =>
      FollowsOther(l, c, c in s.dead, event, id, session, sent, read);
      assert read + [] == read;
  }

  lemma PrefixFirst(a: seq<Frame>, b: seq<Frame>)
    requires OneSnapshotFirst(a + b)
    ensures OneSnapshotFirst(a)
  {
    forall i | 0 <= i < |a| ensures a[i].Snapshot? <==> i == 0 { assert (a + b)[i] == a[i]; }
  }

  lemma {:induction false} RunFollows(s: R.Client, c: nat, l: R.Life, events: seq<R.Event>, id: nat, session: nat,
                                      sent: seq<Frame>, read: seq<Frame>)
    requires R.Fresh(s) && R.Lives(s, c, l) && R.Legal(s, events) && Follows(l, id, session, sent, read)
    requires OneSnapshotFirst(read + Reads(events, id, R.Key(session, c)))
    ensures var o := LifeRun(l, c, c in s.dead, events);
      Follows(o.life, id, session, sent + o.sent, read + Reads(events, id, R.Key(session, c)))
    decreases |events|
  {
    if events == [] {
      assert sent + [] == sent && read + [] == read;
    } else {
      var key := R.Key(session, c);
      var now, rest := ReadOf(events[0], id, key), Reads(events[1..], id, key);
      var l', out := R.NextLife(l, c, c in s.dead, events[0]), R.Sent(l, c, c in s.dead, events[0]);
      var s' := R.Apply(s, events[0]);
      Assoc(read, now, rest);
      PrefixFirst(read + now, rest);
      FollowsStep(s, c, l, events[0], id, session, sent, read);
      OneStep(s, c, l, events[0]);
      RunFollows(s', c, l', events[1..], id, session, sent + out, read + now);
      Assoc(sent, out, LifeRun(l', c, c in s'.dead, events[1..]).sent);
    }
  }

  /** From the attach on, a channel is delivered a prefix of what was read for it: its snapshot first, then
      its data and resyncs in the daemon's order; and all of it for as long as it is relayed */
  lemma {:induction false} DeliveredInOrder(s: R.Client, w: R.Wanted, events: seq<R.Event>)
    requires R.Fresh(s) && R.Lives(s, w.channel, R.Unborn) && R.Delivered(s, w.channel) == []
    requires R.Legal(s, [R.Ask(s.nextId, Some(w))] + events)
    requires OneSnapshotFirst(Reads(events, s.nextId, R.Key(w.session, w.channel)))
    ensures var s' := R.Run(s, [R.Ask(s.nextId, Some(w))] + events);
      var read := Reads(events, s.nextId, R.Key(w.session, w.channel));
      && R.Delivered(s', w.channel) <= read
      && (R.Key(w.session, w.channel) in s'.streams ==> R.Delivered(s', w.channel) == read)
  {
    var ask := R.Ask(s.nextId, Some(w));
    var s1 := R.Apply(s, ask);
    var l1 := R.Asked(s.nextId, w.session, w.webview);
    assert ([ask] + events)[1..] == events;
    R.StepRefines(s, w.channel, R.Unborn, ask);
    R.FreshStep(s, ask);
    assert R.Delivered(s1, w.channel) == [];
    var read := Reads(events, s.nextId, R.Key(w.session, w.channel));
    assert [] + read == read;
    RunFollows(s1, w.channel, l1, events, s.nextId, w.session, [], []);
    RunRefines(s1, w.channel, l1, events);
    var o := LifeRun(l1, w.channel, w.channel in s1.dead, events);
    assert [] + o.sent == o.sent;
  }

  // ----- the daemon's side

  predicate NoSnapshot(frames: seq<Frame>) { forall f :: f in frames ==> !f.Snapshot? }

  lemma {:induction false} ChunksNoSnapshot(a: Attached, at: nat, bytes: Bytes, now: nat)
    ensures NoSnapshot(SendChunks(a, at, bytes, now).1)
    decreases |bytes|
  {
    if bytes != [] && a.unacked <= HIGH_WATER {
      var n := if |bytes| < MAX_DATA_FRAME then |bytes| else MAX_DATA_FRAME;
      ChunksNoSnapshot(a.(unacked := a.unacked + n), at + n, bytes[n..], now);
    }
  }

  lemma NoSnapshotBoth(a: seq<Frame>, b: seq<Frame>)
    requires NoSnapshot(a) && NoSnapshot(b)
    ensures NoSnapshot(a + b)
  {}

  lemma FlushWire(s: State, v: Viewer)
    requires s.pending.bytes != []
    ensures Wire(FlushStep(s), v)
            == Wire(s, v) + (if v in s.clients then FlushViewer(s.clients[v], s.pending, s.now).1 else [])
  {
    assert Wire(s, v) + [] == Wire(s, v);
  }

  lemma FlushMore(s: State, v: Viewer) returns (more: seq<Frame>)
    ensures Wire(FlushStep(s), v) == Wire(s, v) + more && NoSnapshot(more)
  {
    more := [];
    assert Wire(s, v) + [] == Wire(s, v);
    if s.pending.bytes != [] {
      FlushWire(s, v);
      if v in s.clients {
        more := FlushViewer(s.clients[v], s.pending, s.now).1;
        FlushedNoSnapshot(s.clients[v], s.pending, s.now);
      }
    }
  }

  lemma FlushedNoSnapshot(a: Attached, pending: Chunk, now: nat)
    ensures NoSnapshot(FlushViewer(a, pending, now).1)
  {
    var skip := Skip(a, pending);
    if !a.lagging && skip < |pending.bytes| {
      ChunksNoSnapshot(a, pending.at + skip, pending.bytes[skip..], now);
    }
  }

  lemma ResyncMore(s: State, w: Viewer, v: Viewer) returns (more: seq<Frame>)
    ensures Wire(ResyncStep(s, w), v) == Wire(s, v) + more && NoSnapshot(more)
  {
    var lags := w == v && v in s.due && v in s.clients && s.clients[v].lagging;
    more := if lags then [Resync(|s.output|, s.output)] else [];
    assert Wire(s, v) + [] == Wire(s, v);
  }

  lemma StepMore(s: State, step: Step, v: Viewer) returns (more: seq<Frame>)
    requires step != Attach(v)
    ensures Wire(Apply(s, step), v) == Wire(s, v) + more && NoSnapshot(more)
  {
    match step
    case Flush => more := FlushMore(s, v);
    case ResyncDue(w) => more := ResyncMore(s, w, v);
    case _ => more := []; assert Wire(s, v) + [] == Wire(s, v);
  }

  lemma {:induction false} RunMore(s: State, steps: seq<Step>, v: Viewer) returns (more: seq<Frame>)
    requires forall step :: step in steps ==> step != Attach(v)
    ensures Wire(Run(s, steps), v) == Wire(s, v) + more && NoSnapshot(more)
    decreases |steps|
  {
    if steps == [] {
      more := [];
      assert Wire(s, v) + [] == Wire(s, v);
    } else {
      assert steps[0] in steps && forall step :: step in steps[1..] ==> step in steps;
      var now := StepMore(s, steps[0], v);
      var rest := RunMore(Apply(s, steps[0]), steps[1..], v);
      more := now + rest;
      Assoc(Wire(s, v), now, rest);
      NoSnapshotBoth(now, rest);
    }
  }

  /** A viewer that attaches once is put one snapshot on its outbox, first */
  lemma {:induction false} AttachedOnce(s: State, v: Viewer, steps: seq<Step>)
    requires Wire(s, v) == [] && forall step :: step in steps ==> step != Attach(v)
    ensures OneSnapshotFirst(Wire(Run(AttachStep(s, v), steps), v)) && Wire(Run(AttachStep(s, v), steps), v) != []
  {
    var more := RunMore(AttachStep(s, v), steps, v);
    assert Wire(AttachStep(s, v), v) == [Snapshot(|s.output|, s.output)];
  }

  lemma PrefixFaithful(frames: seq<Frame>, part: seq<Frame>, output: Bytes)
    requires Faithful(frames, output) && part <= frames
    ensures Faithful(part, output)
    decreases |frames| - |part|
  {
    if |part| < |frames| {
      var n := |frames| - 1;
      assert part <= frames[..n];
      PrefixFaithful(frames[..n], part, output);
    } else {
      assert part == frames;
    }
  }

  lemma FirstOfPrefix(frames: seq<Frame>, part: seq<Frame>)
    requires OneSnapshotFirst(frames) && part <= frames
    ensures OneSnapshotFirst(part)
  {}

  /** End to end: whatever part of a viewer's frames has reached the client, in order, the webview has drawn
      a prefix of the PTY's output without a gap or a repeat; and once everything has reached it, nothing
      is left to flush and the viewer does not lag, the webview shows the whole output */
  lemma {:induction false} WebviewShowsTheOutput(restored: Bytes, steps: seq<Step>, v: Viewer, more: seq<Step>,
                                                 c: R.Client, w: R.Wanted, events: seq<R.Event>)
    requires HoleFree(Begin(restored), steps) && HoleFree(AttachStep(Run(Begin(restored), steps), v), more)
    requires Wire(Run(Begin(restored), steps), v) == [] && (forall step :: step in more ==> step != Attach(v))
    requires v in Run(AttachStep(Run(Begin(restored), steps), v), more).clients
    requires R.Fresh(c) && R.Lives(c, w.channel, R.Unborn) && R.Delivered(c, w.channel) == []
    requires R.Legal(c, [R.Ask(c.nextId, Some(w))] + events)
    requires Reads(events, c.nextId, R.Key(w.session, w.channel))
             <= Wire(Run(AttachStep(Run(Begin(restored), steps), v), more), v)
    ensures var s := Run(AttachStep(Run(Begin(restored), steps), v), more);
      var c' := R.Run(c, [R.Ask(c.nextId, Some(w))] + events);
      var shown := R.Delivered(c', w.channel);
      && Faithful(shown, s.output) && Drawn(shown) <= s.output
      && (R.Key(w.session, w.channel) in c'.streams
          && Reads(events, c.nextId, R.Key(w.session, w.channel)) == Wire(s, v)
          && Backlog(s) == [] && !s.clients[v].lagging
          ==> Drawn(shown) == s.output)
  {
    var s0 := Run(Begin(restored), steps);
    var s := Run(AttachStep(s0, v), more);
    var read := Reads(events, c.nextId, R.Key(w.session, w.channel));
    AttachedOnce(s0, v, more);
    FirstOfPrefix(Wire(s, v), read);
    DeliveredInOrder(c, w, events);
    BeginInv(restored);
    RunInv(Begin(restored), steps);
    AttachInv(s0, v);
    RunInv(AttachStep(s0, v), more);
    InvShows(s);
    assert Exact(s, v);
    var shown := R.Delivered(R.Run(c, [R.Ask(c.nextId, Some(w))] + events), w.channel);
    PrefixFaithful(Wire(s, v), shown, s.output);
    DrawnIsOutput(shown, s.output);
  }

  // ----- replies

  function RequestRun(l: R.Request, id: nat, events: seq<R.Event>): R.Request
    decreases |events|
  {
    if events == [] then l else RequestRun(R.NextRequest(l, id, events[0]), id, events[1..])
  }

  /** Over every run a request's waiter is given exactly what the request's own life gives it, whatever is asked
      and answered besides: the first response with its id that comes while it waits, and nothing else */
  lemma {:induction false} RepliesExactly(s: R.Client, id: nat, l: R.Request, events: seq<R.Event>)
    requires R.Fresh(s) && R.Requests(s, id, l) && R.Legal(s, events)
    ensures R.Requests(R.Run(s, events), id, RequestRun(l, id, events))
    decreases |events|
  {
    if events != [] {
      R.RequestRefines(s, id, l, events[0]);
      R.FreshStep(s, events[0]);
      RepliesExactly(R.Apply(s, events[0]), id, R.NextRequest(l, id, events[0]), events[1..]);
    }
  }

  lemma {:induction false} AnsweredStays(s: R.Client, id: nat, l: R.Request, events: seq<R.Event>)
    requires R.Fresh(s) && R.Requests(s, id, l) && R.Legal(s, events) && (l.Answered? || l.Dropped?)
    ensures RequestRun(l, id, events) == l
    decreases |events|
  {
    if events != [] {
      R.RequestRefines(s, id, l, events[0]);
      R.FreshStep(s, events[0]);
      AnsweredStays(R.Apply(s, events[0]), id, l, events[1..]);
    }
  }

  /** What is left of a response when its screen has gone to a channel, or all of it when it has not */
  predicate Rest(given: R.Response, response: R.Response, next: R.Resolving, stream: Option<R.Wanted>) {
    if next.Idle? then given == response && (response.Attached? ==> stream.None?)
    else
      && stream.Some? && response.Attached? && given.Attached? && given.at == response.at && given.screen == []
      && next == R.Opens(stream.value, response.at, response.screen)
  }

  /** Whatever comes afterwards, a waiter is given the response itself, once, unless it is the screen of a wanted
      attach: then that goes to the channel, and the waiter is given the rest with its seq */
  lemma {:induction false} ReplyIsTheResponse(s: R.Client, id: nat, stream: Option<R.Wanted>, response: R.Response,
                                              events: seq<R.Event>)
    requires R.Fresh(s) && R.Requests(s, id, R.Waiting(stream)) && R.Legal(s, [R.TakeReply(id, response)] + events)
    ensures var s1, s' := R.Apply(s, R.TakeReply(id, response)), R.Run(s, [R.TakeReply(id, response)] + events);
      |R.GivenTo(s'.replies, id)| == 1 && Rest(R.GivenTo(s'.replies, id)[0], response, s1.resolving, stream)
  {
    var take := R.TakeReply(id, response);
    var s1, l1 := R.Apply(s, take), R.NextRequest(R.Waiting(stream), id, take);
    assert ([take] + events)[1..] == events;
    R.RequestRefines(s, id, R.Waiting(stream), take);
    R.FreshStep(s, take);
    AnsweredStays(s1, id, l1, events);
    RepliesExactly(s1, id, l1, events);
  }

  /** No request is answered twice, and none before it is asked */
  lemma {:induction false} RepliesOnce(events: seq<R.Event>, id: nat)
    requires R.Legal(R.CONNECTED, events)
    ensures var s := R.Run(R.CONNECTED, events);
      |R.GivenTo(s.replies, id)| <= 1 && (R.GivenTo(s.replies, id) != [] ==> id < s.nextId && id !in s.pending)
  {
    RepliesExactly(R.CONNECTED, id, R.Unasked, events);
  }

  // ----- channels that are gone

  /** The detach requests a run issues for one channel of a session */
  function RunDetaches(l: R.Life, key: R.Key, dead: bool, events: seq<R.Event>): nat
    decreases |events|
  {
    if events == [] then 0
    else R.DetachesOf(l, key, dead, events[0])
         + RunDetaches(R.NextLife(l, key.channel, dead, events[0]), key,
                       dead || events[0] == R.ChannelDies(key.channel), events[1..])
  }

  /** Over every run each frame for a channel that is not relayed, or whose page is gone, is delivered to nobody
      and asks the daemon once to detach it; nothing else does but the page's own detach and its reload */
  lemma {:induction false} GoneIsDetached(s: R.Client, l: R.Life, key: R.Key, events: seq<R.Event>)
    requires R.Fresh(s) && R.Lives(s, key.channel, l) && R.Legal(s, events)
    ensures R.Run(s, events).detaches[key]
            == s.detaches[key] + RunDetaches(l, key, key.channel in s.dead, events)
    decreases |events|
  {
    if events != [] {
      R.StepDetaches(s, l, key, events[0]);
      OneStep(s, key.channel, l, events[0]);
      var l' := R.NextLife(l, key.channel, key.channel in s.dead, events[0]);
      GoneIsDetached(R.Apply(s, events[0]), l', key, events[1..]);
    }
  }

  lemma {:induction false} RunAccounts(s: R.Client, key: R.Key, events: seq<R.Event>)
    requires R.Legal(s, events)
    ensures R.Run(s, events).detaches[key] + R.Accounted(s.outgoing, key)
            == s.detaches[key] + R.Accounted(R.Run(s, events).outgoing, key)
    decreases |events|
  {
    if events != [] {
      R.StepAccounts(s, events[0], key);
      RunAccounts(R.Apply(s, events[0]), key, events[1..]);
    }
  }

  /** Over every run each detach that was issued has been written, or is still to be, or was lost with the connection */
  lemma {:induction false} DetachesAreConserved(events: seq<R.Event>, key: R.Key)
    requires R.Legal(R.CONNECTED, events)
    ensures var s := R.Run(R.CONNECTED, events);
      s.detaches[key] == s.outgoing.owed[key] + R.WrittenFor(s.outgoing.written, key) + s.outgoing.lost[key]
  {
    RunAccounts(R.CONNECTED, key, events);
  }

  /** Whatever the daemon replies to a detach, the reply resolves no request */
  lemma {:induction false} DetachTakesNoReply(s: R.Client, key: R.Key, events: seq<R.Event>)
    requires R.Fresh(s) && R.Requests(s, s.nextId, R.Unasked)
    requires R.Legal(s, [R.WriteDetach(s.nextId, key)] + events)
    ensures var s' := R.Run(s, [R.WriteDetach(s.nextId, key)] + events);
      R.GivenTo(s'.replies, s.nextId) == [] && s.nextId !in s'.pending
  {
    var write := R.WriteDetach(s.nextId, key);
    assert ([write] + events)[1..] == events;
    R.RequestRefines(s, s.nextId, R.Unasked, write);
    R.FreshStep(s, write);
    AnsweredStays(R.Apply(s, write), s.nextId, R.Dropped, events);
    RepliesExactly(R.Apply(s, write), s.nextId, R.Dropped, events);
  }

  ghost predicate Silent(s: R.Client, c: nat) {
    forall events :: R.Legal(s, events) ==> R.Delivered(R.Run(s, events), c) == R.Delivered(s, c)
  }

  /** A channel that is over, or whose page is gone, is sent nothing any more */
  lemma {:induction false} OverSendsNothing(c: nat, dead: bool, events: seq<R.Event>, l: R.Life, s: R.Client)
    requires R.Fresh(s) && R.Lives(s, c, l) && R.Legal(s, events) && (c in s.dead <==> dead)
    requires l.Over? || (dead && !l.Unborn? && !l.Asked?)
    ensures LifeRun(l, c, dead, events).sent == []
    decreases |events|
  {
    if events != [] {
      var l', s' := R.NextLife(l, c, dead, events[0]), R.Apply(s, events[0]);
      OneStep(s, c, l, events[0]);
      OverSendsNothing(c, dead || events[0] == R.ChannelDies(c), events[1..], l', s');
    }
  }

  lemma SilentWhenOver(s: R.Client, c: nat, l: R.Life)
    requires R.Fresh(s) && R.Lives(s, c, l) && (l.Over? || (c in s.dead && !l.Unborn? && !l.Asked?))
    ensures Silent(s, c)
  {
    forall events | R.Legal(s, events) ensures R.Delivered(R.Run(s, events), c) == R.Delivered(s, c) {
      RunRefines(s, c, l, events);
      OverSendsNothing(c, c in s.dead, events, l, s);
    }
  }

  lemma {:induction false} RunOne(s: R.Client, event: R.Event)
    requires R.Enabled(s, event)
    ensures R.Legal(s, [event]) && R.Run(s, [event]) == R.Apply(s, event)
  {
    var events := [event];
    assert events[1..] == [] && R.Run(R.Apply(s, event), []) == R.Apply(s, event);
  }

  lemma {:induction false} RunTwoEvents(s: R.Client, a: R.Event, b: R.Event)
    requires R.Enabled(s, a) && R.Enabled(R.Apply(s, a), b)
    ensures R.Legal(s, [a, b]) && R.Run(s, [a, b]) == R.Apply(R.Apply(s, a), b)
  {
    var events := [a, b];
    assert events[1..] == [b];
    RunOne(R.Apply(s, a), b);
  }

  /** The reader goes on with an attach whatever else happens: its snapshot is sent, and what is read next for the
      channel once it has joined */
  lemma OpeningIsHeard(s: R.Client, c: nat, l: R.Life)
    requires R.Fresh(s) && R.Lives(s, c, l) && c !in s.dead && (l.Opening? || l.Joining?)
    ensures !Silent(s, c)
  {
    if l.Opening? {
      RunOne(s, R.Open);
      OneStep(s, c, l, R.Open);
      assert |R.Delivered(R.Run(s, [R.Open]), c)| == |R.Delivered(s, c)| + 1;
    } else {
      var relay := R.Event.Relay(R.Key(l.session, c), Data(0, [0]));
      OneStep(s, c, l, R.Join);
      OneStep(R.Apply(s, R.Join), c, R.Live(l.session, l.webview), relay);
      RunTwoEvents(s, R.Join, relay);
      assert |R.Delivered(R.Run(s, [R.Join, relay]), c)| == |R.Delivered(s, c)| + 1;
    }
  }

  /** The second half of a page load drops the channels the webview relays. A channel it had is silent from then
      on, whatever comes, exactly unless the reader is between taking its attach's reply and letting it join */
  lemma ReloadSilencesExactly(s: R.Client, c: nat, l: R.Life, webview: nat)
    requires R.Fresh(s) && R.Lives(s, c, l) && !l.Unborn? && !l.Asked? && (!l.Over? ==> l.webview == webview)
    ensures Silent(R.Apply(s, R.ForgetStreams(webview)), c) <==> !((l.Opening? || l.Joining?) && c !in s.dead)
  {
    var event := R.ForgetStreams(webview);
    var s', l' := R.Apply(s, event), R.NextLife(l, c, c in s.dead, event);
    OneStep(s, c, l, event);
    if (l.Opening? || l.Joining?) && c !in s.dead {
      OpeningIsHeard(s', c, l');
    } else {
      SilentWhenOver(s', c, l');
    }
  }

  /** The first half forgets the webview's attaches in flight: none of them is ever sent anything */
  lemma {:induction false} ForgottenIsSilent(s: R.Client, c: nat, l: R.Life, events: seq<R.Event>)
    requires R.Fresh(s) && R.Lives(s, c, l) && l.Asked? && R.Legal(s, [R.ForgetPending(l.webview)] + events)
    ensures var s' := R.Run(s, [R.ForgetPending(l.webview)] + events);
      R.Lives(s', c, R.Over) && R.Delivered(s', c) == R.Delivered(s, c) && Silent(s', c)
  {
    var event := R.ForgetPending(l.webview);
    var s1 := R.Apply(s, event);
    assert ([event] + events)[1..] == events;
    OneStep(s, c, l, event);
    RunRefines(s1, c, R.Over, events);
    OverSendsNothing(c, c in s1.dead, events, R.Over, s1);
    StaysOver(c, c in s1.dead, events, R.Over, s1);
    RunFresh(s1, events);
    SilentWhenOver(R.Run(s1, events), c, R.Over);
  }

  lemma {:induction false} StaysOver(c: nat, dead: bool, events: seq<R.Event>, l: R.Life, s: R.Client)
    requires R.Fresh(s) && R.Lives(s, c, l) && R.Legal(s, events) && (c in s.dead <==> dead) && l.Over?
    ensures LifeRun(l, c, dead, events).life.Over?
    decreases |events|
  {
    if events != [] {
      OneStep(s, c, l, events[0]);
      StaysOver(c, dead || events[0] == R.ChannelDies(c), events[1..], R.NextLife(l, c, dead, events[0]),
                R.Apply(s, events[0]));
    }
  }

  lemma {:induction false} RunFresh(s: R.Client, events: seq<R.Event>)
    requires R.Fresh(s) && R.Legal(s, events)
    ensures R.Fresh(R.Run(s, events))
    decreases |events|
  {
    if events != [] {
      R.FreshStep(s, events[0]);
      RunFresh(R.Apply(s, events[0]), events[1..]);
    }
  }

  // ----- a whole page load

  /** What a page load's two halves leave in between: a channel of the webview that is not waited for any more */
  ghost predicate Loading(s: R.Client, c: nat, l: R.Life, webview: nat) {
    R.Fresh(s) && R.Lives(s, c, l) && !l.Unborn? && !l.Asked? && (!l.Over? ==> l.webview == webview)
  }

  lemma LoadingStep(s: R.Client, c: nat, l: R.Life, webview: nat, event: R.Event)
    requires Loading(s, c, l, webview) && R.Enabled(s, event)
    ensures Loading(R.Apply(s, event), c, R.NextLife(l, c, c in s.dead, event), webview)
  {
    OneStep(s, c, l, event);
  }

  /** Between the halves the reader goes on with an attach it has taken exactly by opening it and letting it join */
  lemma {:induction false} LoadingRun(s: R.Client, c: nat, l: R.Life, webview: nat, events: seq<R.Event>)
    requires Loading(s, c, l, webview) && R.Legal(s, events)
    ensures var s', l' := R.Run(s, events), LifeRun(l, c, c in s.dead, events).life;
      && Loading(s', c, l', webview)
      && (c in s.dead ==> c in s'.dead)
      && (c in s'.dead || (l'.Opening? || l'.Joining? <==> (l.Opening? || l.Joining?) && R.Join !in events))
    decreases |events|
  {
    if events != [] {
      var s1, l1 := R.Apply(s, events[0]), R.NextLife(l, c, c in s.dead, events[0]);
      LoadingStep(s, c, l, webview, events[0]);
      DeadStep(s, c, events[0]);
      LoadingRun(s1, c, l1, webview, events[1..]);
    }
  }

  lemma {:induction false} BetweenHalves(s: R.Client, c: nat, l: R.Life, webview: nat, between: seq<R.Event>)
    requires Loading(s, c, l, webview) && R.Legal(s, between)
    ensures var s' := R.Apply(R.Run(s, between), R.ForgetStreams(webview));
      Silent(s', c) <==> !((l.Opening? || l.Joining?) && c !in s'.dead && R.Join !in between)
  {
    LoadingRun(s, c, l, webview, between);
    ReloadSilencesExactly(R.Run(s, between), c, LifeRun(l, c, c in s.dead, between).life, webview);
  }

  /** A page load, whatever the reader and the other pages do between its halves: a channel the page had, asked for
      or relayed, is silent afterwards exactly unless the reader had taken its attach's reply before the load
      began and has not let it join before the load ends. That one is opened for a page that is gone, and stays
      so until a send on it fails */
  lemma {:induction false} PageLoadSilencesExactly(s: R.Client, c: nat, l: R.Life, webview: nat, between: seq<R.Event>)
    requires R.Fresh(s) && R.Lives(s, c, l) && !l.Unborn? && (!l.Over? ==> l.webview == webview)
    requires R.Legal(s, [R.ForgetPending(webview)] + between)
    ensures var s' := R.Apply(R.Run(s, [R.ForgetPending(webview)] + between), R.ForgetStreams(webview));
      Silent(s', c) <==> !((l.Opening? || l.Joining?) && c !in s'.dead && R.Join !in between)
  {
    var first := R.ForgetPending(webview);
    var s1, l1 := R.Apply(s, first), R.NextLife(l, c, c in s.dead, first);
    assert ([first] + between)[1..] == between;
    OneStep(s, c, l, first);
    BetweenHalves(s1, c, l1, webview, between);
  }

  lemma {:induction false} RunBoth(s: R.Client, a: seq<R.Event>, b: seq<R.Event>)
    requires R.Legal(s, a) && R.Legal(R.Run(s, a), b)
    ensures R.Legal(s, a + b) && R.Run(s, a + b) == R.Run(R.Run(s, a), b)
    decreases |a|
  {
    if a == [] {
      assert a + b == b;
    } else {
      assert (a + b)[1..] == a[1..] + b;
      RunBoth(R.Apply(s, a[0]), a[1..], b);
    }
  }

  /** The attach is asked for and its reply taken when the page loads again */
  lemma TakenThenLoaded(w: R.Wanted, at: nat, screen: Bytes) returns (s: R.Client)
    ensures var taken, load := [R.Ask(0, Some(w)), R.TakeReply(0, R.Attached(at, screen))],
              [R.ForgetPending(w.webview), R.ForgetStreams(w.webview)];
      R.Legal(R.CONNECTED, taken + load) && s == R.Run(R.CONNECTED, taken + load)
    ensures s.resolving == R.Opens(w, at, screen) && s.dead == {} && R.Delivered(s, w.channel) == []
  {
    var ask, take := R.Ask(0, Some(w)), R.TakeReply(0, R.Attached(at, screen));
    var s2 := R.Apply(R.Apply(R.CONNECTED, ask), take);
    s := R.Apply(R.Apply(s2, R.ForgetPending(w.webview)), R.ForgetStreams(w.webview));
    RunTwoEvents(R.CONNECTED, ask, take);
    RunTwoEvents(s2, R.ForgetPending(w.webview), R.ForgetStreams(w.webview));
    RunBoth(R.CONNECTED, [ask, take], [R.ForgetPending(w.webview), R.ForgetStreams(w.webview)]);
  }

  lemma {:induction false} OpensAndRelays(s: R.Client, w: R.Wanted, at: nat, screen: Bytes, frame: Frame)
    requires s.resolving == R.Opens(w, at, screen) && s.dead == {} && R.Delivered(s, w.channel) == []
    requires !frame.Snapshot?
    ensures var events := [R.Open, R.Join] + [R.Event.Relay(R.Key(w.session, w.channel), frame)];
      R.Legal(s, events) && R.Delivered(R.Run(s, events), w.channel) == [Snapshot(at, screen), frame]
  {
    var relay := R.Event.Relay(R.Key(w.session, w.channel), frame);
    var s2 := R.Apply(R.Apply(s, R.Open), R.Join);
    assert R.Delivered(s2, w.channel) == [Snapshot(at, screen)] && s2.dead == {};
    RunTwoEvents(s, R.Open, R.Join);
    RunOne(s2, relay);
    RunBoth(s, [R.Open, R.Join], [relay]);
  }

  /** The run: an attach is asked for and its reply taken, the page loads again, and the reader opens the channel,
      lets it join and relays a frame to it, for a page that is gone */
  lemma LoadedPageIsSent(w: R.Wanted, at: nat, screen: Bytes, frame: Frame)
    requires !frame.Snapshot?
    ensures var taken, load := [R.Ask(0, Some(w)), R.TakeReply(0, R.Attached(at, screen))],
              [R.ForgetPending(w.webview), R.ForgetStreams(w.webview)];
      var events := taken + load + ([R.Open, R.Join] + [R.Event.Relay(R.Key(w.session, w.channel), frame)]);
      && R.Legal(R.CONNECTED, events)
      && R.Delivered(R.Run(R.CONNECTED, events), w.channel) == [Snapshot(at, screen), frame]
  {
    var s := TakenThenLoaded(w, at, screen);
    OpensAndRelays(s, w, at, screen, frame);
    RunBoth(R.CONNECTED, [R.Ask(0, Some(w)), R.TakeReply(0, R.Attached(at, screen))]
                         + [R.ForgetPending(w.webview), R.ForgetStreams(w.webview)],
      [R.Open, R.Join] + [R.Event.Relay(R.Key(w.session, w.channel), frame)]);
  }
}
