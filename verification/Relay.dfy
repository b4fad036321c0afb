/** The app's client of the daemon: requests by id, and the stream of every webview channel that attached.
    A step is one critical section of its reader, of a command, or of a page load, or one send on a channel. */
module Relay {
  import opened Wrappers
  import opened Stream

  datatype Key = Key(session: nat, channel: nat)

  /** The stream an attach asked for */
  datatype Wanted = Wanted(session: nat, webview: nat, channel: nat)

  /** What the daemon answers a request with: an attach's screen, or anything else */
  datatype Response = Attached(at: nat, screen: Bytes) | Other(text: string)

  /** What the reader is doing with an attach's reply: its snapshot is not yet on the channel, or it is and the
      channel has not yet joined the relay */
  datatype Resolving =
    | Idle
    | Opens(wanted: Wanted, at: nat, screen: Bytes)
    | Joins(wanted: Wanted)

  /** The detach requests that are issued go out one by one, each with an id of its own, unless the connection is gone
      or fails */
  datatype Outgoing = Outgoing(
    connected: bool,
    owed: multiset<Key>,                 // issued and not gone out yet
    written: seq<(nat, Key)>,
    lost: multiset<Key>)

  datatype Client = Client(
    pending: map<nat, Option<Wanted>>,
    resolving: Resolving,
    streams: map<Key, nat>,              // the webview of each channel that is relayed
    nextId: nat,
    asked: set<nat>,                     // channels that were ever attached
    dead: set<nat>,                      // channels whose page is gone: a send on them fails
    delivered: map<nat, seq<Frame>>,     // what each channel was sent
    replies: seq<(nat, Response)>,       // what each request's waiter was given
    detaches: multiset<Key>,             // the detach requests issued
    outgoing: Outgoing)

  datatype Event =
    | Ask(id: nat, stream: Option<Wanted>)
    | Fail(id: nat)                                        // the request could not be written
    | TakeReply(id: nat, response: Response)
    | Open
    | Join
    | Relay(key: Key, frame: Frame)
    | DetachChannel(key: Key)
    | ForgetPending(webview: nat)                          // a page load: first the attaches in flight
    | ForgetStreams(webview: nat)                          // then the channels that are relayed
    | WriteDetach(id: nat, key: Key)
    | FailDetach(id: nat, key: Key)                        // its id is taken, and it could not be written
    | SkipDetach(key: Key)                                 // disconnected: no id is taken
    | Connect
    | CloseWriter                                          // a lost connection, lock by lock
    | ClearPending
    | ClearStreams
    | ChannelDies(channel: nat)

  const CONNECTED :=
    Client(map[], Idle, map[], 0, {}, {}, map[], [], multiset{}, Outgoing(true, multiset{}, [], multiset{}))

  function Delivered(s: Client, c: nat): seq<Frame> {
    if c in s.delivered then s.delivered[c] else []
  }

  function Deliver(s: Client, c: nat, f: Frame): Client {
    s.(delivered := s.delivered[c := Delivered(s, c) + [f]])
  }

  /** The reader finishes one message before it reads the next; request ids are counted up, and a webview
      never uses a channel twice */
  predicate Enabled(s: Client, event: Event) {
    match event
    case Ask(id, stream) => id == s.nextId && (stream.Some? ==> stream.value.channel !in s.asked)
    case TakeReply(_, _) => s.resolving.Idle?
    case Open => s.resolving.Opens?
    case Join => s.resolving.Joins?
    case Relay(_, frame) => s.resolving.Idle? && !frame.Snapshot?
    case WriteDetach(id, key) => s.outgoing.connected && key in s.outgoing.owed && id == s.nextId
    case FailDetach(id, key) => s.outgoing.connected && key in s.outgoing.owed && id == s.nextId
    case SkipDetach(key) => !s.outgoing.connected && key in s.outgoing.owed
    case Connect => s.resolving.Idle?
    case CloseWriter => s.resolving.Idle?
    case ClearPending => s.resolving.Idle?
    case ClearStreams => s.resolving.Idle?
    case _ => true
  }

  /** The snapshot moves to the channel of an attach that is still wanted */
  function Given(stream: Option<Wanted>, response: Response): Response {
    if stream.Some? && response.Attached? then response.(screen := []) else response
  }

  function TakeReplyStep(s: Client, id: nat, response: Response): Client {
    if id !in s.pending then s else
    var s' := s.(pending := s.pending - {id}, replies := s.replies + [(id, Given(s.pending[id], response))]);
    if s.pending[id].Some? && response.Attached?
    then s'.(resolving := Opens(s.pending[id].value, response.at, response.screen))
    else s'
  }

  function OpenStep(s: Client): Client {
    if !s.resolving.Opens? then s else
    var r := s.resolving;
    if r.wanted.channel in s.dead then s.(resolving := Idle) else
    Deliver(s.(resolving := Joins(r.wanted)), r.wanted.channel, Snapshot(r.at, r.screen))
  }

  function JoinStep(s: Client): Client {
    if !s.resolving.Joins? then s else
    var w := s.resolving.wanted;
    s.(resolving := Idle, streams := s.streams[Key(w.session, w.channel) := w.webview])
  }

  function Detached(s: Client, keys: multiset<Key>): Client {
    s.(detaches := s.detaches + keys, outgoing := s.outgoing.(owed := s.outgoing.owed + keys))
  }

  function RelayStep(s: Client, key: Key, f: Frame): Client {
    if key !in s.streams then Detached(s, multiset{key})
    else if key.channel in s.dead then Detached(s.(streams := s.streams - {key}), multiset{key})
    else Deliver(s, key.channel, f)
  }

  function Wrote(o: Outgoing, id: nat, key: Key): Outgoing {
    o.(owed := o.owed - multiset{key}, written := o.written + [(id, key)])
  }

  function Lost(o: Outgoing, key: Key): Outgoing {
    o.(owed := o.owed - multiset{key}, lost := o.lost + multiset{key})
  }

  function Unwanted(p: Option<Wanted>, webview: nat): Option<Wanted> {
    if p.Some? && p.value.webview == webview then None else p
  }

  function Shown(streams: map<Key, nat>, webview: nat): set<Key> {
    set key | key in streams && streams[key] == webview
  }

  function Apply(s: Client, event: Event): Client {
    match event
    case Ask(id, stream) =>
      s.(pending := s.pending[id := stream], nextId := s.nextId + 1,
         asked := if stream.Some? then s.asked + {stream.value.channel} else s.asked)
    case Fail(id) => s.(pending := s.pending - {id})
    case TakeReply(id, response) => TakeReplyStep(s, id, response)
    case Open => OpenStep(s)
    case Join => JoinStep(s)
    case Relay(key, frame) => RelayStep(s, key, frame)
    case DetachChannel(key) => Detached(s.(streams := s.streams - {key}), multiset{key})
    case ForgetPending(w) => s.(pending := map id | id in s.pending :: Unwanted(s.pending[id], w))
    case ForgetStreams(w) =>
      Detached(s.(streams := s.streams - Shown(s.streams, w)), multiset(Shown(s.streams, w)))
    case WriteDetach(id, key) => s.(nextId := s.nextId + 1, outgoing := Wrote(s.outgoing, id, key))
    case FailDetach(_, key) => s.(nextId := s.nextId + 1, outgoing := Lost(s.outgoing, key))
    case SkipDetach(key) => s.(outgoing := Lost(s.outgoing, key))
    case Connect => s.(outgoing := s.outgoing.(connected := true))
    case CloseWriter => s.(outgoing := s.outgoing.(connected := false))
    case ClearPending => s.(pending := map[])
    case ClearStreams => s.(streams := map[])
    case ChannelDies(c) => s.(dead := s.dead + {c})
  }

  function Run(s: Client, events: seq<Event>): Client
    decreases |events|
  {
    if events == [] then s else Run(Apply(s, events[0]), events[1..])
  }

  predicate Legal(s: Client, events: seq<Event>)
    decreases |events|
  {
    events == [] || (Enabled(s, events[0]) && Legal(Apply(s, events[0]), events[1..]))
  }

  // ----- one channel on its own

  datatype Life =
    | Unborn
    | Asked(id: nat, session: nat, webview: nat)
    | Opening(session: nat, webview: nat, at: nat, screen: Bytes)
    | Joining(session: nat, webview: nat)
    | Live(session: nat, webview: nat)
    | Over

  function NextLife(l: Life, c: nat, dead: bool, event: Event): Life {
    match event
    case Ask(id, Some(w)) => if w.channel == c then Asked(id, w.session, w.webview) else l
    case Fail(id) => if l.Asked? && l.id == id then Over else l
    case TakeReply(id, response) =>
      if l.Asked? && l.id == id
      then (if response.Attached? then Opening(l.session, l.webview, response.at, response.screen) else Over)
      else l
    case Open => if l.Opening? then (if dead then Over else Joining(l.session, l.webview)) else l
    case Join => if l.Joining? then Live(l.session, l.webview) else l
    case Relay(key, _) => if l.Live? && key == Key(l.session, c) && dead then Over else l
    case DetachChannel(key) => if l.Live? && key == Key(l.session, c) then Over else l
    case ForgetPending(w) => if l.Asked? && l.webview == w then Over else l
    case ForgetStreams(w) => if l.Live? && l.webview == w then Over else l
    case ClearPending => if l.Asked? then Over else l
    case ClearStreams => if l.Live? then Over else l
    case _ => l
  }

  /** What the event sends on the channel */
  function Sent(l: Life, c: nat, dead: bool, event: Event): seq<Frame> {
    match event
    case Open => if l.Opening? && !dead then [Snapshot(l.at, l.screen)] else []
    case Relay(key, frame) => if l.Live? && key == Key(l.session, c) && !dead then [frame] else []
    case _ => []
  }

  predicate NotWaiting(s: Client, c: nat) {
    forall id :: id in s.pending && s.pending[id].Some? ==> s.pending[id].value.channel != c
  }

  predicate NotOpening(s: Client, c: nat) { !s.resolving.Idle? ==> s.resolving.wanted.channel != c }

  predicate NotRelayed(s: Client, c: nat) { forall key :: key in s.streams ==> key.channel != c }

  /** Where the client keeps a channel, and that it keeps it nowhere else */
  predicate Lives(s: Client, c: nat, l: Life) {
    match l
    case Unborn => c !in s.asked && NotWaiting(s, c) && NotOpening(s, c) && NotRelayed(s, c)
    case Over => c in s.asked && NotWaiting(s, c) && NotOpening(s, c) && NotRelayed(s, c)
    case Asked(id, session, webview) =>
      && c in s.asked && id in s.pending && s.pending[id] == Some(Wanted(session, webview, c))
      && (forall other :: other in s.pending && other != id && s.pending[other].Some? ==>
            s.pending[other].value.channel != c)
      && NotOpening(s, c) && NotRelayed(s, c)
    case Opening(session, webview, at, screen) =>
      && c in s.asked && s.resolving == Opens(Wanted(session, webview, c), at, screen)
      && NotWaiting(s, c) && NotRelayed(s, c)
    case Joining(session, webview) =>
      && c in s.asked && s.resolving == Joins(Wanted(session, webview, c))
      && NotWaiting(s, c) && NotRelayed(s, c)
    case Live(session, webview) =>
      && c in s.asked && Key(session, c) in s.streams && s.streams[Key(session, c)] == webview
      && (forall key :: key in s.streams && key.channel == c ==> key == Key(session, c))
      && NotWaiting(s, c) && NotOpening(s, c)
  }

  predicate Fresh(s: Client) { forall id :: id in s.pending ==> id < s.nextId }

  lemma FreshStep(s: Client, event: Event)
    requires Fresh(s) && Enabled(s, event)
    ensures Fresh(Apply(s, event))
  {}

  /** A step of the client is the same step of the channel's own life, and sends it the same frames */
  predicate Refines(s: Client, c: nat, l: Life, event: Event) {
    && Lives(Apply(s, event), c, NextLife(l, c, c in s.dead, event))
    && Delivered(Apply(s, event), c) == Delivered(s, c) + Sent(l, c, c in s.dead, event)
  }

  lemma AskLives(s: Client, c: nat, l: Life, id: nat, stream: Option<Wanted>)
    requires Fresh(s) && Lives(s, c, l) && Enabled(s, Ask(id, stream))
    ensures Lives(Apply(s, Ask(id, stream)), c, NextLife(l, c, c in s.dead, Ask(id, stream)))
  {
    assert id !in s.pending;
  }

  lemma AskRefines(s: Client, c: nat, l: Life, id: nat, stream: Option<Wanted>)
    requires Fresh(s) && Lives(s, c, l) && Enabled(s, Ask(id, stream))
    ensures Refines(s, c, l, Ask(id, stream))
  {
    AskLives(s, c, l, id, stream);
    assert Delivered(s, c) + [] == Delivered(s, c);
  }

  lemma FailRefines(s: Client, c: nat, l: Life, id: nat)
    requires Fresh(s) && Lives(s, c, l) && Enabled(s, Fail(id))
    ensures Refines(s, c, l, Fail(id))
  {
    assert Delivered(s, c) + [] == Delivered(s, c);
  }

  lemma TakenRefines(s: Client, c: nat, l: Life, response: Response)
    requires Fresh(s) && Lives(s, c, l) && l.Asked? && s.resolving.Idle?
    ensures Lives(TakeReplyStep(s, l.id, response), c, NextLife(l, c, c in s.dead, TakeReply(l.id, response)))
  {}

  lemma OthersReplyRefines(s: Client, c: nat, l: Life, id: nat, response: Response)
    requires Fresh(s) && Lives(s, c, l) && !(l.Asked? && l.id == id) && s.resolving.Idle?
    ensures Lives(TakeReplyStep(s, id, response), c, l)
  {}

  lemma TakeReplyRefines(s: Client, c: nat, l: Life, id: nat, response: Response)
    requires Fresh(s) && Lives(s, c, l) && Enabled(s, TakeReply(id, response))
    ensures Refines(s, c, l, TakeReply(id, response))
  {
    assert Delivered(s, c) + [] == Delivered(s, c);
    if l.Asked? && l.id == id { TakenRefines(s, c, l, response); } else { OthersReplyRefines(s, c, l, id, response); }
  }

  lemma OpenRefines(s: Client, c: nat, l: Life)
    requires Fresh(s) && Lives(s, c, l) && Enabled(s, Open)
    ensures Refines(s, c, l, Open)
  {}

  lemma JoinRefines(s: Client, c: nat, l: Life)
    requires Fresh(s) && Lives(s, c, l) && Enabled(s, Join)
    ensures Refines(s, c, l, Join)
  {}

  /** A detach that is issued changes nothing for any channel */
  lemma DetachedLives(s: Client, c: nat, l: Life, keys: multiset<Key>)
    requires Lives(s, c, l)
    ensures Lives(Detached(s, keys), c, l) && Delivered(Detached(s, keys), c) == Delivered(s, c)
  {}

  /** Channels that leave the relay are over, and no others */
  lemma StreamsLive(s: Client, c: nat, l: Life, keys: set<Key>)
    requires Lives(s, c, l)
    ensures var t := s.(streams := s.streams - keys);
      && Lives(t, c, if l.Live? && Key(l.session, c) in keys then Over else l) && Delivered(t, c) == Delivered(s, c)
  {}

  lemma UnknownRefines(s: Client, c: nat, l: Life, key: Key, frame: Frame)
    requires Lives(s, c, l) && key !in s.streams
    ensures Refines(s, c, l, Event.Relay(key, frame))
  {
    DetachedLives(s, c, l, multiset{key});
    assert Delivered(s, c) + [] == Delivered(s, c);
  }

  lemma GoneRefines(s: Client, c: nat, l: Life, key: Key, frame: Frame)
    requires Lives(s, c, l) && key in s.streams && key.channel in s.dead
    ensures Refines(s, c, l, Event.Relay(key, frame))
  {
    StreamsLive(s, c, l, {key});
    DetachedLives(s.(streams := s.streams - {key}), c, NextLife(l, c, c in s.dead, Event.Relay(key, frame)),
      multiset{key});
    assert Delivered(s, c) + [] == Delivered(s, c);
  }

  lemma DeliverLives(s: Client, c: nat, l: Life, key: Key, frame: Frame)
    requires Lives(s, c, l) && key in s.streams && key.channel !in s.dead
    ensures Lives(Deliver(s, key.channel, frame), c, l)
    ensures key.channel == c <==> l.Live? && key == Key(l.session, c)
  {}

  lemma DeliverRefines(s: Client, c: nat, l: Life, key: Key, frame: Frame)
    requires Lives(s, c, l) && key in s.streams && key.channel !in s.dead
    ensures Refines(s, c, l, Event.Relay(key, frame))
  {
    DeliverLives(s, c, l, key, frame);
    assert Delivered(s, c) + [] == Delivered(s, c);
  }

  lemma RelayRefines(s: Client, c: nat, l: Life, key: Key, frame: Frame)
    requires Fresh(s) && Lives(s, c, l) && Enabled(s, Event.Relay(key, frame))
    ensures Refines(s, c, l, Event.Relay(key, frame))
  {
    if key !in s.streams {
      UnknownRefines(s, c, l, key, frame);
    } else if key.channel in s.dead {
      GoneRefines(s, c, l, key, frame);
    } else {
      DeliverRefines(s, c, l, key, frame);
    }
  }

  lemma DetachChannelRefines(s: Client, c: nat, l: Life, key: Key)
    requires Fresh(s) && Lives(s, c, l) && Enabled(s, DetachChannel(key))
    ensures Refines(s, c, l, DetachChannel(key))
  {
    StreamsLive(s, c, l, {key});
    DetachedLives(s.(streams := s.streams - {key}), c, NextLife(l, c, c in s.dead, DetachChannel(key)),
      multiset{key});
    assert Delivered(s, c) + [] == Delivered(s, c);
  }

  lemma ForgetPendingRefines(s: Client, c: nat, l: Life, webview: nat)
    requires Fresh(s) && Lives(s, c, l) && Enabled(s, ForgetPending(webview))
    ensures Refines(s, c, l, ForgetPending(webview))
  {
    assert Delivered(s, c) + [] == Delivered(s, c);
  }

  lemma ForgetStreamsRefines(s: Client, c: nat, l: Life, webview: nat)
    requires Fresh(s) && Lives(s, c, l) && Enabled(s, ForgetStreams(webview))
    ensures Refines(s, c, l, ForgetStreams(webview))
  {
    var keys := Shown(s.streams, webview);
    StreamsLive(s, c, l, keys);
    DetachedLives(s.(streams := s.streams - keys), c, NextLife(l, c, c in s.dead, ForgetStreams(webview)),
      multiset(keys));
    assert Delivered(s, c) + [] == Delivered(s, c);
  }

  lemma ClearPendingRefines(s: Client, c: nat, l: Life)
    requires Fresh(s) && Lives(s, c, l) && Enabled(s, ClearPending)
    ensures Refines(s, c, l, ClearPending)
  {
    assert Delivered(s, c) + [] == Delivered(s, c);
  }

  lemma ClearStreamsRefines(s: Client, c: nat, l: Life)
    requires Fresh(s) && Lives(s, c, l) && Enabled(s, ClearStreams)
    ensures Refines(s, c, l, ClearStreams)
  {
    assert Delivered(s, c) + [] == Delivered(s, c);
  }

  predicate OfConnection(event: Event) {
    event.WriteDetach? || event.FailDetach? || event.SkipDetach? || event.Connect? || event.CloseWriter?
  }

  lemma OutgoingLives(s: Client, c: nat, l: Life, nextId: nat, outgoing: Outgoing)
    requires Lives(s, c, l)
    ensures Lives(s.(nextId := nextId, outgoing := outgoing), c, l)
  {}

  /** What goes out to the daemon is no business of a channel's */
  lemma ConnectionRefines(s: Client, c: nat, l: Life, event: Event)
    requires Lives(s, c, l) && OfConnection(event)
    ensures Refines(s, c, l, event)
  {
    OutgoingLives(s, c, l, Apply(s, event).nextId, Apply(s, event).outgoing);
    assert Delivered(s, c) + [] == Delivered(s, c);
  }

  lemma ChannelDiesRefines(s: Client, c: nat, l: Life, channel: nat)
    requires Fresh(s) && Lives(s, c, l) && Enabled(s, ChannelDies(channel))
    ensures Refines(s, c, l, ChannelDies(channel))
  {
    assert Delivered(s, c) + [] == Delivered(s, c);
  }

  /** The client's maps are many channels living side by side, none touching another */
  lemma StepRefines(s: Client, c: nat, l: Life, event: Event)
    requires Fresh(s) && Lives(s, c, l) && Enabled(s, event)
    ensures Refines(s, c, l, event)
  {
    match event
    case Ask(id, stream) => AskRefines(s, c, l, id, stream);
    case Fail(id) => FailRefines(s, c, l, id);
    case TakeReply(id, response) => TakeReplyRefines(s, c, l, id, response);
    case Open => OpenRefines(s, c, l);
    case Join => JoinRefines(s, c, l);
    case Relay(key, frame) => RelayRefines(s, c, l, key, frame);
    case DetachChannel(key) => DetachChannelRefines(s, c, l, key);
    case ForgetPending(w) => ForgetPendingRefines(s, c, l, w);
    case ForgetStreams(w) => ForgetStreamsRefines(s, c, l, w);
    case ClearPending => ClearPendingRefines(s, c, l);
    case ClearStreams => ClearStreamsRefines(s, c, l);
    case ChannelDies(channel) => ChannelDiesRefines(s, c, l, channel);
    case _ => ConnectionRefines(s, c, l, event);
  }

  // ----- one request on its own

  datatype Request =
    | Unasked
    | Waiting(stream: Option<Wanted>)
    | Answered(response: Response)
    | Dropped

  function NextRequest(l: Request, id: nat, event: Event): Request {
    match event
    case Ask(i, stream) => if i == id then Waiting(stream) else l
    case Fail(i) => if l.Waiting? && i == id then Dropped else l
    case TakeReply(i, response) => if l.Waiting? && i == id then Answered(Given(l.stream, response)) else l
    case ForgetPending(w) => if l.Waiting? then Waiting(Unwanted(l.stream, w)) else l
    case ClearPending => if l.Waiting? then Dropped else l
    case WriteDetach(i, _) => if l.Unasked? && i == id then Dropped else l
    case FailDetach(i, _) => if l.Unasked? && i == id then Dropped else l
    case _ => l
  }

  /** Everything one request's waiter was given, in order */
  function GivenTo(replies: seq<(nat, Response)>, id: nat): seq<Response> {
    if replies == [] then []
    else GivenTo(replies[..|replies| - 1], id)
         + (if replies[|replies| - 1].0 == id then [replies[|replies| - 1].1] else [])
  }

  lemma {:induction false} GivenToSnoc(replies: seq<(nat, Response)>, id: nat, i: nat, response: Response)
    ensures GivenTo(replies + [(i, response)], id) == GivenTo(replies, id) + (if i == id then [response] else [])
  {
    assert (replies + [(i, response)])[..|replies|] == replies;
  }

  /** Where a request is kept, and all that its waiter was given */
  predicate RequestIs(nextId: nat, pending: map<nat, Option<Wanted>>, given: seq<Response>, id: nat, l: Request) {
    match l
    case Unasked => id >= nextId && id !in pending && given == []
    case Waiting(stream) => id < nextId && id in pending && pending[id] == stream && given == []
    case Answered(response) => id < nextId && id !in pending && given == [response]
    case Dropped => id < nextId && id !in pending && given == []
  }

  predicate Requests(s: Client, id: nat, l: Request) {
    RequestIs(s.nextId, s.pending, GivenTo(s.replies, id), id, l)
  }

  lemma ReplyKeeps(s: Client, id: nat, given: seq<Response>, l: Request, i: nat, response: Response)
    requires Fresh(s) && RequestIs(s.nextId, s.pending, given, id, l) && i in s.pending
    ensures RequestIs(s.nextId, s.pending - {i}, given + (if i == id then [Given(s.pending[i], response)] else []), id,
                      NextRequest(l, id, TakeReply(i, response)))
  {}

  lemma ReplyRefines(s: Client, id: nat, l: Request, i: nat, response: Response)
    requires Fresh(s) && Requests(s, id, l)
    ensures Requests(TakeReplyStep(s, i, response), id, NextRequest(l, id, TakeReply(i, response)))
  {
    if i in s.pending {
      GivenToSnoc(s.replies, id, i, Given(s.pending[i], response));
      ReplyKeeps(s, id, GivenTo(s.replies, id), l, i, response);
    }
  }

  lemma OthersKeep(s: Client, id: nat, given: seq<Response>, l: Request, event: Event)
    requires Fresh(s) && RequestIs(s.nextId, s.pending, given, id, l) && Enabled(s, event) && !event.TakeReply?
    ensures RequestIs(Apply(s, event).nextId, Apply(s, event).pending, given, id, NextRequest(l, id, event))
    ensures Apply(s, event).replies == s.replies
  {}

  lemma OthersRefine(s: Client, id: nat, l: Request, event: Event)
    requires Fresh(s) && Requests(s, id, l) && Enabled(s, event) && !event.TakeReply?
    ensures Requests(Apply(s, event), id, NextRequest(l, id, event))
  {
    OthersKeep(s, id, GivenTo(s.replies, id), l, event);
  }

  /** A step of the client is the same step of the request's own life */
  lemma RequestRefines(s: Client, id: nat, l: Request, event: Event)
    requires Fresh(s) && Requests(s, id, l) && Enabled(s, event)
    ensures Requests(Apply(s, event), id, NextRequest(l, id, event))
  {
    if event.TakeReply? { ReplyRefines(s, id, l, event.id, event.response); } else { OthersRefine(s, id, l, event); }
  }

  // ----- the detaches of one channel

  /** The detach requests an event issues for a channel of a session: one for each frame that finds the channel
      not relayed or its page gone, one when the page detaches it, one when a page load finds it relayed */
  function DetachesOf(l: Life, key: Key, dead: bool, event: Event): nat {
    match event
    case Relay(k, _) => if k != key || (l.Live? && l.session == key.session && !dead) then 0 else 1
    case DetachChannel(k) => if k == key then 1 else 0
    case ForgetStreams(w) => if l.Live? && l.session == key.session && l.webview == w then 1 else 0
    case _ => 0
  }

  lemma StepDetaches(s: Client, l: Life, key: Key, event: Event)
    requires Lives(s, key.channel, l) && Enabled(s, event)
    ensures Apply(s, event).detaches[key] == s.detaches[key] + DetachesOf(l, key, key.channel in s.dead, event)
  {
    if event.ForgetStreams? {
      var keys := Shown(s.streams, event.webview);
      assert multiset(keys)[key] == if key in keys then 1 else 0;
    }
  }

  function WrittenFor(written: seq<(nat, Key)>, key: Key): nat {
    if written == [] then 0
    else WrittenFor(written[..|written| - 1], key) + (if written[|written| - 1].1 == key then 1 else 0)
  }

  lemma {:induction false} WrittenForSnoc(written: seq<(nat, Key)>, id: nat, k: Key, key: Key)
    ensures WrittenFor(written + [(id, k)], key) == WrittenFor(written, key) + (if k == key then 1 else 0)
  {
    assert (written + [(id, k)])[..|written|] == written;
  }

  /** The detaches of a channel that went out, were lost, or are still to go */
  function Accounted(o: Outgoing, key: Key): nat { o.owed[key] + WrittenFor(o.written, key) + o.lost[key] }

  lemma IssuedAccounts(s: Client, keys: multiset<Key>, key: Key)
    ensures Detached(s, keys).detaches[key] == s.detaches[key] + keys[key]
    ensures Accounted(Detached(s, keys).outgoing, key) == Accounted(s.outgoing, key) + keys[key]
  {}

  lemma WrittenAccounts(o: Outgoing, id: nat, k: Key, key: Key)
    requires k in o.owed
    ensures Accounted(Wrote(o, id, k), key) == Accounted(o, key)
  {
    WrittenForSnoc(o.written, id, k, key);
  }

  lemma LostAccounts(o: Outgoing, k: Key, key: Key)
    requires k in o.owed
    ensures Accounted(Lost(o, k), key) == Accounted(o, key)
  {}

  lemma RelayAccounts(s: Client, k: Key, frame: Frame, key: Key)
    ensures RelayStep(s, k, frame).detaches[key] + Accounted(s.outgoing, key)
            == s.detaches[key] + Accounted(RelayStep(s, k, frame).outgoing, key)
  {
    IssuedAccounts(s, multiset{k}, key);
    IssuedAccounts(s.(streams := s.streams - {k}), multiset{k}, key);
  }

  /** Every detach that is issued is accounted for */
  lemma StepAccounts(s: Client, event: Event, key: Key)
    requires Enabled(s, event)
    ensures Apply(s, event).detaches[key] + Accounted(s.outgoing, key)
            == s.detaches[key] + Accounted(Apply(s, event).outgoing, key)
  {
    match event
    case Relay(k, frame) => RelayAccounts(s, k, frame, key);
    case DetachChannel(k) => IssuedAccounts(s.(streams := s.streams - {k}), multiset{k}, key);
    case ForgetStreams(w) =>
      IssuedAccounts(s.(streams := s.streams - Shown(s.streams, w)), multiset(Shown(s.streams, w)), key);
    case WriteDetach(id, k) => WrittenAccounts(s.outgoing, id, k, key);
    case FailDetach(_, k) => LostAccounts(s.outgoing, k, key);
    case SkipDetach(k) => LostAccounts(s.outgoing, k, key);
    case _ =>
  }
}
