/** The session object itself: the fields its locks guard and the methods that update them in place.
    Each method is one critical section and is proved to take exactly one step of the stream. */
module Session {
  import opened Wrappers
  import opened Stream

  /** An unbounded send on a viewer's outbox */
  function Put(wire: map<Viewer, seq<Frame>>, v: Viewer, frames: seq<Frame>): map<Viewer, seq<Frame>> {
    wire[v := (if v in wire then wire[v] else []) + frames]
  }

  lemma PutMore(wire: map<Viewer, seq<Frame>>, v: Viewer, a: seq<Frame>, b: seq<Frame>)
    ensures Put(Put(wire, v, a), v, b) == Put(wire, v, a + b)
  {
    assert (if v in wire then wire[v] else []) + a + b == (if v in wire then wire[v] else []) + (a + b);
  }

  /** The records once the viewers outside `todo` have been flushed */
  ghost function HalfClients(s: State, todo: set<Viewer>): map<Viewer, Attached> {
    map v | v in s.clients :: if v in todo then s.clients[v] else FlushViewer(s.clients[v], s.pending, s.now).0
  }

  ghost function HalfWire(s: State, todo: set<Viewer>): map<Viewer, seq<Frame>> {
    map v | v in s.wire ::
      if v in todo || v !in s.clients then s.wire[v] else s.wire[v] + FlushViewer(s.clients[v], s.pending, s.now).1
  }

  lemma HalfStart(s: State)
    ensures HalfClients(s, s.clients.Keys) == s.clients && HalfWire(s, s.clients.Keys) == s.wire
  {}

  lemma HalfStep(s: State, todo: set<Viewer>, v: Viewer)
    requires v in todo && v in s.clients && v in s.wire
    ensures HalfClients(s, todo)[v] == s.clients[v]
    ensures HalfClients(s, todo - {v}) == HalfClients(s, todo)[v := FlushViewer(s.clients[v], s.pending, s.now).0]
    ensures HalfWire(s, todo - {v}) == Put(HalfWire(s, todo), v, FlushViewer(s.clients[v], s.pending, s.now).1)
  {}

  lemma HalfDone(s: State)
    requires s.clients.Keys <= s.wire.Keys && s.pending.bytes != []
    ensures HalfClients(s, {}) == FlushStep(s).clients && HalfWire(s, {}) == FlushStep(s).wire
  {
    var wire := FlushStep(s).wire;
    assert wire.Keys == s.wire.Keys;
    forall v | v in wire ensures wire[v] == HalfWire(s, {})[v] {
      assert s.wire[v] + [] == s.wire[v];
    }
  }

  lemma ResyncIs(s: State, v: Viewer)
    requires v in s.due
    ensures var left := s.(due := s.due - multiset{v});
      ResyncStep(s, v) ==
      if v !in s.clients || !s.clients[v].lagging then left
      else left.(clients := s.clients[v := s.clients[v].(lagging := false, fromSeq := |s.output|)],
                 wire := Put(s.wire, v, [Resync(|s.output|, s.output)]))
  {}

  class Session {
    var seqNo: nat
    var queue: seq<Chunk>
    var pending: Chunk
    var clients: map<Viewer, Attached>
    var closing: bool
    var now: nat
    /** What the screen has parsed, the resyncs that acks still owe, and all that went on the outboxes */
    ghost var output: Bytes
    ghost var due: multiset<Viewer>
    ghost var wire: map<Viewer, seq<Frame>>

    ghost function View(): State
      reads this
    {
      State(output, queue, pending, clients, due, closing, now, wire)
    }

    /** Every attached viewer has been sent its snapshot */
    ghost predicate Valid()
      reads this
    {
      seqNo == |output| && clients.Keys <= wire.Keys
    }

    /** A restored session goes on from the seq its screen was saved at */
    constructor (seqNo: nat, ghost restored: Bytes)
      requires seqNo == |restored|
      ensures Valid() && View() == Begin(restored)
    {
      this.seqNo, queue, pending, clients := seqNo, [], Chunk(0, []), map[];
      closing, now := false, 0;
      output, due, wire := restored, multiset{}, map[];
    }

    method Ingest(bytes: Bytes)
      requires Valid() && bytes != []
      modifies this
      ensures Valid() && View() == Apply(old(View()), Step.Ingest(bytes))
    {
      var before := seqNo;
      seqNo := seqNo + |bytes|;
      output := output + bytes;
      if clients != map[] {
        queue := queue + [Chunk(before, bytes)];
      }
    }

    method Absorb()
      requires Valid()
      modifies this
      ensures Valid() && View() == Apply(old(View()), Step.Absorb)
    {
      if queue != [] {
        var next := queue[0];
        queue := queue[1..];
        if pending.bytes == [] {
          pending := pending.(at := next.at);
        }
        pending := pending.(bytes := pending.bytes + next.bytes);
      }
    }

    /** Sends one frame after another until the bytes or the viewer's credit end */
    method SendAll(v: Viewer, client: Attached, at: nat, bytes: Bytes) returns (after: Attached)
      requires v in wire
      modifies this`wire
      ensures after == SendChunks(client, at, bytes, now).0
      ensures wire == Put(old(wire), v, SendChunks(client, at, bytes, now).1)
    {
      after := client;
      var from: nat, rest := at, bytes;
      ghost var all := SendChunks(client, at, bytes, now);
      ghost var sent: seq<Frame> := [];
      assert wire[v] + [] == wire[v] && wire == wire[v := wire[v]];
      while rest != []
        invariant wire == Put(old(wire), v, sent)
        invariant all.0 == SendChunks(after, from, rest, now).0
        invariant all.1 == sent + SendChunks(after, from, rest, now).1
        decreases |rest|
      {
        if after.unacked > HIGH_WATER {
          after := after.(lagging := true, progress := now);
          break;
        }
        var n := if |rest| < MAX_DATA_FRAME then |rest| else MAX_DATA_FRAME;
        var data := Data(from, rest[..n]);
        PutMore(old(wire), v, sent, [data]);
        wire := Put(wire, v, [data]);
        sent := sent + [data];
        after := after.(unacked := after.unacked + n);
        from, rest := from + n, rest[n..];
      }
      assert sent == all.1;
    }

    /** Cuts what one viewer still needs of the batch into frames, until it owes too much */
    method FlushOne(v: Viewer)
      requires v in clients && v in wire
      modifies this`clients, this`wire
      ensures clients == old(clients)[v := FlushViewer(old(clients)[v], pending, now).0]
      ensures wire == Put(old(wire), v, FlushViewer(old(clients)[v], pending, now).1)
    {
      var client := clients[v];
      var skip: nat := if client.fromSeq > pending.at then client.fromSeq - pending.at else 0;
      if client.lagging || skip >= |pending.bytes| {
        assert clients == clients[v := client];
        assert wire[v] + [] == wire[v] && wire == wire[v := wire[v]];
        return;
      }
      client := SendAll(v, client, pending.at + skip, pending.bytes[skip..]);
      clients := clients[v := client];
    }

    /** Goes through the viewers in any order */
    method FlushAll(ghost s: State)
      requires pending == s.pending && now == s.now && clients == s.clients && wire == s.wire
      requires clients.Keys <= wire.Keys
      modifies this`clients, this`wire
      ensures clients == HalfClients(s, {}) && wire == HalfWire(s, {})
    {
      var todo := clients.Keys;
      HalfStart(s);
      while todo != {}
        invariant todo <= s.clients.Keys && clients == HalfClients(s, todo) && wire == HalfWire(s, todo)
        decreases todo
      {
        var v :| v in todo;
        HalfStep(s, todo, v);
        FlushOne(v);
        todo := todo - {v};
      }
      assert todo == {};
    }

    method Flush()
      requires Valid()
      modifies this
      ensures Valid() && View() == Apply(old(View()), Step.Flush)
    {
      if pending.bytes == [] { return; }
      ghost var s := View();
      FlushAll(s);
      HalfDone(s);
      pending := Chunk(pending.at + |pending.bytes|, []);
    }

    method Attach(v: Viewer)
      requires Valid()
      modifies this
      ensures Valid() && View() == Apply(old(View()), Step.Attach(v))
    {
      clients := clients[v := Attached(seqNo, 0, false, now)];
      wire := Put(wire, v, [Snapshot(seqNo, output)]);
    }

    /** True when the viewers that left were the last attached */
    method Detach(gone: set<Viewer>) returns (last: bool)
      requires Valid()
      modifies this
      ensures Valid() && View() == Apply(old(View()), Step.Detach(gone))
      ensures last <==> clients == map[] && old(clients) != map[]
    {
      var before := |clients|;
      ghost var keys := clients.Keys;
      clients := clients - gone;
      assert clients.Keys == keys - gone;
      last := |clients| < before && |clients| == 0;
    }

    /** True when the viewer was lagging and has caught up: the caller resyncs it next */
    method Ack(v: Viewer, count: nat) returns (caughtUp: bool)
      requires Valid()
      modifies this
      ensures Valid() && View() == Apply(old(View()), Step.Ack(v, count))
      ensures due == if caughtUp then old(due) + multiset{v} else old(due)
    {
      if v !in clients { return false; }
      var c := clients[v];
      c := c.(unacked := if c.unacked < count then 0 else c.unacked - count);
      c := c.(progress := now);
      clients := clients[v := c];
      caughtUp := c.lagging && c.unacked <= LOW_WATER;
      due := if caughtUp then due + multiset{v} else due;
    }

    method Resync(v: Viewer)
      requires Valid() && v in due
      modifies this
      ensures Valid() && View() == Apply(old(View()), Step.ResyncDue(v))
    {
      ghost var s := View();
      ResyncIs(s, v);
      due := due - multiset{v};
      if v !in clients || !clients[v].lagging { return; }
      clients := clients[v := clients[v].(lagging := false, fromSeq := seqNo)];
      wire := Put(wire, v, [Stream.Resync(seqNo, output)]);
    }

    method Signal()
      requires Valid()
      modifies this`closing
      ensures Valid() && View() == Apply(old(View()), Step.Close)
    {
      closing := true;
    }
  }
}
