/** The client object itself: the maps its locks guard, updated by requests, replies, relayed frames and
    page loads. Every method is proved to take exactly one step of the relay. */
module AppClient {
  import opened Wrappers
  import opened Stream
  import R = Relay

  class Daemon {
    var pending: map<nat, Option<R.Wanted>>
    var streams: map<R.Key, nat>
    var nextId: nat
    /** What the reader carries from one lock to the next */
    var resolving: R.Resolving
    ghost var asked: set<nat>
    ghost var dead: set<nat>
    ghost var delivered: map<nat, seq<Frame>>
    ghost var replies: seq<(nat, R.Response)>
    ghost var detaches: multiset<R.Key>
    /** Whether there is a writer, and what has become of the detaches */
    var outgoing: R.Outgoing

    ghost function View(): R.Client
      reads this
    {
      R.Client(pending, resolving, streams, nextId, asked, dead, delivered, replies, detaches, outgoing)
    }

    constructor ()
      ensures View() == R.CONNECTED
    {
      pending, resolving, streams, nextId, asked := map[], R.Idle, map[], 0, {};
      dead, delivered, replies, detaches := {}, map[], [], multiset{};
      outgoing := R.Outgoing(true, multiset{}, [], multiset{});
    }

    /** A send on a webview channel, which fails when its page is gone */
    method SendOn(channel: nat, frame: Frame, shown: bool) returns (ok: bool)
      requires shown <==> channel !in dead
      modifies this`delivered
      ensures ok <==> channel !in dead
      ensures delivered == if ok then R.Deliver(old(View()), channel, frame).delivered else old(delivered)
    {
      ok := shown;
      if ok {
        delivered := delivered[channel := (if channel in delivered then delivered[channel] else []) + [frame]];
      }
    }

    method Send(stream: Option<R.Wanted>) returns (id: nat)
      modifies this
      ensures id == old(nextId) && View() == R.Apply(old(View()), R.Ask(id, stream))
    {
      id := nextId;
      nextId := nextId + 1;
      pending := pending[id := stream];
      if stream.Some? {
        asked := asked + {stream.value.channel};
      }
    }

    method WriteFailed(id: nat)
      modifies this
      ensures View() == R.Apply(old(View()), R.Fail(id))
    {
      pending := pending - {id};
    }

    /** The first part of answering a request: its entry is taken, and the waiter's reply is the response without
        the snapshot that goes to the channel */
    method Take(id: nat, response: R.Response) returns (reply: Option<R.Response>)
      modifies this
      ensures View() == R.Apply(old(View()), R.TakeReply(id, response))
      ensures reply == if id in old(pending) then Some(R.Given(old(pending)[id], response)) else None
    {
      if id !in pending { return None; }
      var stream, rest := pending[id], response;
      pending := pending - {id};
      if stream.Some? && response.Attached? {
        resolving := R.Opens(stream.value, response.at, response.screen);
        rest := response.(screen := []);
      }
      replies := replies + [(id, rest)];
      return Some(rest);
    }

    /** The second part: the attach's channel gets its snapshot */
    method Open(shown: bool)
      requires resolving.Opens? && (shown <==> resolving.wanted.channel !in dead)
      modifies this
      ensures View() == R.Apply(old(View()), R.Open)
    {
      var opens := resolving;
      var ok := SendOn(opens.wanted.channel, Snapshot(opens.at, opens.screen), shown);
      resolving := if ok then R.Joins(opens.wanted) else R.Idle;
    }

    /** The third part: the channel joins the relay */
    method Join()
      requires resolving.Joins?
      modifies this
      ensures View() == R.Apply(old(View()), R.Join)
    {
      var wanted := resolving.wanted;
      streams := streams[R.Key(wanted.session, wanted.channel) := wanted.webview];
      resolving := R.Idle;
    }

    /** Detaches are issued, to be written one by one */
    method Issue(keys: multiset<R.Key>)
      modifies this`detaches, this`outgoing
      ensures View() == R.Detached(old(View()), keys)
    {
      detaches := detaches + keys;
      outgoing := outgoing.(owed := outgoing.owed + keys);
    }

    /** Output for a channel nobody shows detaches it */
    method RelayFrame(key: R.Key, frame: Frame, shown: bool) returns (detach: bool)
      requires shown <==> key.channel !in dead
      modifies this
      ensures View() == R.Apply(old(View()), R.Event.Relay(key, frame))
      ensures detach <==> key !in old(streams) || key.channel in dead
    {
      var taken := false;
      if key in streams {
        taken := SendOn(key.channel, frame, shown);
        if !taken { streams := streams - {key}; }
      }
      detach := !taken;
      if detach { Issue(multiset{key}); }
    }

    method Detach(key: R.Key)
      modifies this
      ensures View() == R.Apply(old(View()), R.DetachChannel(key))
    {
      streams := streams - {key};
      Issue(multiset{key});
    }

    /** A detach that was issued goes out: it takes an id only while there is a connection to write it to, and nothing
        waits for its reply */
    method DetachChannel(key: R.Key, ok: bool) returns (id: Option<nat>)
      modifies this`nextId, this`outgoing
      ensures id == if old(outgoing).connected then Some(old(nextId)) else None
      ensures View() == R.Apply(old(View()), if id == None then R.SkipDetach(key)
                                             else if ok then R.WriteDetach(id.value, key)
                                             else R.FailDetach(id.value, key))
    {
      if !outgoing.connected {
        outgoing := R.Lost(outgoing, key);
        return None;
      }
      id, nextId := Some(nextId), nextId + 1;
      outgoing := if ok then R.Wrote(outgoing, id.value, key) else R.Lost(outgoing, key);
    }

    method ForgetPending(webview: nat)
      modifies this
      ensures View() == R.Apply(old(View()), R.ForgetPending(webview))
    {
      ghost var s := View();
      var todo := pending.Keys;
      while todo != {}
        invariant todo <= s.pending.Keys && pending.Keys == s.pending.Keys
        invariant forall id :: id in pending ==>
          pending[id] == if id in todo then s.pending[id] else R.Unwanted(s.pending[id], webview)
        invariant View() == s.(pending := pending)
        decreases todo
      {
        var id :| id in todo;
        if pending[id].Some? && pending[id].value.webview == webview {
          pending := pending[id := None];
        }
        todo := todo - {id};
      }
      assert pending == R.Apply(s, R.ForgetPending(webview)).pending;
    }

    /** The channels that are dropped are detached next */
    method ForgetStreams(webview: nat) returns (keys: set<R.Key>)
      modifies this
      ensures View() == R.Apply(old(View()), R.ForgetStreams(webview))
      ensures keys == R.Shown(old(streams), webview)
    {
      keys := R.Shown(streams, webview);
      DropStreams(keys);
      Issue(multiset(keys));
    }

    method DropStreams(keys: set<R.Key>)
      modifies this`streams
      ensures streams == old(streams) - keys
    {
      var todo := keys;
      while todo != {}
        invariant todo <= keys && streams == old(streams) - (keys - todo)
        decreases todo
      {
        var key :| key in todo;
        streams := streams - {key};
        todo := todo - {key};
      }
      assert keys - {} == keys;
    }

    method Connect()
      modifies this
      ensures View() == R.Apply(old(View()), R.Connect)
    {
      outgoing := outgoing.(connected := true);
    }

    /** A lost connection, in three lock scopes */
    method CloseWriter()
      modifies this
      ensures View() == R.Apply(old(View()), R.CloseWriter)
    {
      outgoing := outgoing.(connected := false);
    }

    method ClearPending()
      modifies this
      ensures View() == R.Apply(old(View()), R.ClearPending)
    {
      pending := map[];
    }

    method ClearStreams()
      modifies this
      ensures View() == R.Apply(old(View()), R.ClearStreams)
    {
      streams := map[];
    }
  }
}
