/** Properties of the gateway: the session invariant every handler keeps,
    upstream order across the queued-to-live switch, idempotent cleanup,
    forwarding to the browser, and two end-to-end scenarios: credentials
    missing, and a message sent before the upstream connect succeeds. */
module GatewayProofs {
  import opened Common
  import J = Jammer
  import opened Gateway

  // ---------------------------------------------------------------------
  // The session invariant
  // ---------------------------------------------------------------------

  /** A registered session is healthy: its peer exists, its Jammer is
      listened to and has a socket, every message the browser sent is either
      on that socket or in the queue (socket first, queue after, in arrival
      order), and the queue is in use exactly while the connect is pending. */
  ghost predicate Healthy(w: World, id: PeerId) {
    && id in w.connections
    && id in w.peers
    && var c := w.connections[id];
    && c.jammer.listening
    && c.jammer.socket.Some?
    && c.jammer.socket.value.sent + c.messageQueue == w.peers[id].inbound
    && (c.isConnected ==> c.messageQueue == [] && c.jammer.socket.value.piped)
    && (!c.isConnected ==> c.jammer.socket.value.sent == [] && !c.jammer.socket.value.piped)
  }

  ghost predicate Inv(w: World) {
    forall id :: id in w.connections ==> Healthy(w, id)
  }

  /** crossws gives every new peer a fresh id. */
  ghost predicate Admissible(w: World, e: Event) {
    e.Open? ==> e.id !in w.peers
  }

  ghost predicate AdmissibleRun(w: World, es: seq<Event>)
    decreases |es|
  {
    es == [] || (Admissible(w, es[0]) && AdmissibleRun(Step(w, es[0]), es[1..]))
  }

  lemma InvEmpty()
    ensures Inv(Empty)
  {
  }

  /** Removing one entry leaves every other session as healthy as it was. */
  lemma CleanupRestoresInv(w: World, id: PeerId, f: Faults)
    requires forall k :: k in w.connections && k != id ==> Healthy(w, k)
    ensures Inv(CleanupWith(w, id, f))
  {
    var r := CleanupWith(w, id, f);
    forall k | k in r.connections ensures Healthy(r, k) {
      assert Healthy(w, k);
    }
  }

  lemma ReactPreservesInv(w: World, id: PeerId, e: J.JammerEvent, f: Faults)
    requires Inv(w)
    ensures Inv(React(w, id, e, f))
  {
    var r := React(w, id, e, f);
    if id in w.connections && w.connections[id].jammer.listening && !e.Received? {
      CleanupRestoresInv(w, id, f);
    } else {
      forall k | k in r.connections ensures Healthy(r, k) {
        assert Healthy(w, k);
      }
    }
  }

  lemma {:induction false} DispatchPreservesInv(w: World, id: PeerId, evs: seq<J.JammerEvent>, f: Faults)
    requires Inv(w)
    ensures Inv(Dispatch(w, id, evs, f))
    decreases |evs|
  {
    if evs != [] {
      ReactPreservesInv(w, id, evs[0], f);
      DispatchPreservesInv(React(w, id, evs[0], f), id, evs[1..], f);
    }
  }

  lemma OpenPreservesInv(w: World, id: PeerId, query: Option<seq<QueryParam>>)
    requires Inv(w) && id !in w.peers
    ensures Inv(OnOpen(w, id, query))
  {
    var r := OnOpen(w, id, query);
    forall k | k in r.connections ensures Healthy(r, k) {
      if k != id {
        assert Healthy(w, k);
      }
    }
  }

  lemma MessagePreservesInv(w: World, id: PeerId, text: Text)
    requires Inv(w)
    ensures Inv(OnMessage(w, id, text))
  {
    var r := OnMessage(w, id, text);
    forall k | k in r.connections ensures Healthy(r, k) {
      assert Healthy(w, k);
      if k == id {
        var c := w.connections[id];
        var s := c.jammer.socket.value;
        if c.isConnected {
          assert (s.sent + [text]) + [] == (s.sent + c.messageQueue) + [text];
        } else {
          assert s.sent + (c.messageQueue + [text]) == (s.sent + c.messageQueue) + [text];
        }
      }
    }
  }

  /** The failure path of `open` keeps every other session healthy, whichever
      teardown steps throw. */
  lemma FailConnectPreservesInv(w: World, id: PeerId, f: Faults)
    requires Inv(w) && id in w.connections
    ensures Inv(FailConnect(w, id, f))
  {
    var r := FailConnect(w, id, f);
    forall k | k in r.connections ensures Healthy(r, k) {
      assert Healthy(w, k);
    }
  }

  lemma ConnectSettledPreservesInv(w: World, id: PeerId, evs: seq<J.SocketEvent>, f: Faults)
    requires Inv(w)
    ensures Inv(OnConnectSettled(w, id, evs, f))
  {
    if id in w.connections {
      var c := w.connections[id];
      assert Healthy(w, id);
      var step := J.FinishConnect(c.jammer, evs);
      match step.outcome
      case Unsettled =>
      case Resolved =>
        var w1 := w.(connections := w.connections[id := c.(jammer := step.jammer, isConnected := true)]);
        var r := ProcessQueue(w1, id);
        forall k | k in r.connections ensures Healthy(r, k) {
          assert Healthy(w, k);
          if k == id && c.messageQueue != [] {
            assert c.jammer.socket.value.sent == [];
          }
        }
      case Rejected => FailConnectPreservesInv(w, id, f);
    }
  }

  lemma PeerClosingPreservesInv(w: World, id: PeerId)
    requires Inv(w)
    ensures Inv(OnPeerClosing(w, id))
  {
    var r := OnPeerClosing(w, id);
    forall k | k in r.connections ensures Healthy(r, k) {
      assert Healthy(w, k);
    }
  }

  /** Every handler keeps every registered session healthy. */
  lemma StepPreservesInv(w: World, e: Event)
    requires Inv(w) && Admissible(w, e)
    ensures Inv(Step(w, e))
  {
    match e
    case Open(id, query) => OpenPreservesInv(w, id, query);
    case Message(id, text) => MessagePreservesInv(w, id, text);
    case ConnectSettled(id, evs, f) => ConnectSettledPreservesInv(w, id, evs, f);
    case Upstream(id, frames) =>
      if id in w.connections { DispatchPreservesInv(w, id, J.Receive(w.connections[id].jammer, frames), NoFaults); }
    case UpstreamError(id, f) =>
      if id in w.connections { DispatchPreservesInv(w, id, J.StreamError(w.connections[id].jammer), f); }
    case UpstreamClose(id, f) =>
      if id in w.connections { DispatchPreservesInv(w, id, J.StreamClose(w.connections[id].jammer), f); }
    case PeerClosing(id) => PeerClosingPreservesInv(w, id);
    case PeerClose(id, f) =>
      PeerClosingPreservesInv(w, id);
      var closing := OnPeerClosing(w, id);
      forall k | k in closing.connections && k != id ensures Healthy(closing, k) { }
      CleanupRestoresInv(closing, id, f);
  }

  lemma {:induction false} RunPreservesInv(w: World, es: seq<Event>)
    requires Inv(w) && AdmissibleRun(w, es)
    ensures Inv(Run(w, es))
    decreases |es|
  {
    if es != [] {
      StepPreservesInv(w, es[0]);
      RunPreservesInv(Step(w, es[0]), es[1..]);
    }
  }

  // ---------------------------------------------------------------------
  // Upstream order
  // ---------------------------------------------------------------------

  /** From a fresh process, through any admissible history, whichever
      teardown steps throw: a connected session's socket has been handed
      exactly the messages its browser sent, in the order sent, none dropped
      or repeated, and its wire text is their frames; a session still
      connecting has written nothing and holds every message, in order, in
      its queue. */
  lemma ArrivalOrderIsUpstreamOrder(es: seq<Event>)
    requires AdmissibleRun(Empty, es)
    ensures var w := Run(Empty, es);
      forall id :: id in w.connections ==>
        && id in w.peers
        && w.connections[id].jammer.socket.Some?
        && var c, s := w.connections[id], w.connections[id].jammer.socket.value;
        && (c.isConnected ==> s.sent == w.peers[id].inbound && J.WireText(s) == J.FrameAll(w.peers[id].inbound))
        && (!c.isConnected ==> s.sent == [] && c.messageQueue == w.peers[id].inbound)
  {
    InvEmpty();
    RunPreservesInv(Empty, es);
    var w := Run(Empty, es);
    forall id | id in w.connections
      ensures && id in w.peers
              && w.connections[id].jammer.socket.Some?
              && var c, s := w.connections[id], w.connections[id].jammer.socket.value;
              && (c.isConnected ==> s.sent == w.peers[id].inbound && J.WireText(s) == J.FrameAll(w.peers[id].inbound))
              && (!c.isConnected ==> s.sent == [] && c.messageQueue == w.peers[id].inbound)
    {
      assert Healthy(w, id);
      var c := w.connections[id];
      if c.isConnected {
        assert c.jammer.socket.value.sent + [] == c.jammer.socket.value.sent;
      } else {
        assert [] + c.messageQueue == c.messageQueue;
      }
    }
  }

  /** A run of messages from the browser of `id`. */
  function Messages(id: PeerId, ms: seq<Text>): (es: seq<Event>)
    ensures |es| == |ms|
    ensures forall i :: 0 <= i < |ms| ==> es[i] == Message(id, ms[i])
    decreases |ms|
  {
    if ms == [] then [] else [Message(id, ms[0])] + Messages(id, ms[1..])
  }

  lemma {:induction false} RunAppend(w: World, a: seq<Event>, b: seq<Event>)
    ensures Run(w, a + b) == Run(Run(w, a), b)
    decreases |a|
  {
    if a != [] {
      assert (a + b)[0] == a[0];
      assert (a + b)[1..] == a[1..] + b;
      RunAppend(Step(w, a[0]), a[1..], b);
    } else {
      assert a + b == b;
    }
  }

  /** The `message` handler applied to each of `ms` in turn. */
  function Feed(w: World, id: PeerId, ms: seq<Text>): World
    decreases |ms|
  {
    if ms == [] then w else Feed(OnMessage(w, id, ms[0]), id, ms[1..])
  }

  lemma {:induction false} RunMessagesIsFeed(w: World, id: PeerId, ms: seq<Text>)
    ensures Run(w, Messages(id, ms)) == Feed(w, id, ms)
    decreases |ms|
  {
    if ms != [] {
      var es := Messages(id, ms);
      assert es == [Message(id, ms[0])] + Messages(id, ms[1..]);
      assert es[1..] == Messages(id, ms[1..]);
      RunMessagesIsFeed(OnMessage(w, id, ms[0]), id, ms[1..]);
    }
  }

  /** While the connect is pending, each message joins the back of the queue
      and nothing else about the session changes. */
  lemma {:induction false} MessagesAreQueued(w: World, id: PeerId, ms: seq<Text>)
    requires id in w.connections && id in w.peers && !w.connections[id].isConnected
    ensures var r := Feed(w, id, ms);
      && id in r.connections && id in r.peers
      && r.connections[id] == w.connections[id].(messageQueue := w.connections[id].messageQueue + ms)
      && r.peers[id].inbound == w.peers[id].inbound + ms
    decreases |ms|
  {
    if ms == [] {
        assert w.connections[id].messageQueue + ms == w.connections[id].messageQueue;
      assert w.peers[id].inbound + ms == w.peers[id].inbound;
    } else {
      var c, p := w.connections[id], w.peers[id];
      var w1 := OnMessage(w, id, ms[0]);
      assert w1.connections[id] == c.(messageQueue := c.messageQueue + [ms[0]]) && w1.peers[id].inbound == p.inbound + [ms[0]] by {
      }
      MessagesAreQueued(w1, id, ms[1..]);
      assert c.messageQueue + [ms[0]] + ms[1..] == c.messageQueue + ms;
      assert p.inbound + [ms[0]] + ms[1..] == p.inbound + ms;
    }
  }

  /** Once connected, each message is handed to the socket at once, after
      everything before it, and the queue stays empty. */
  lemma {:induction false} MessagesAreWritten(w: World, id: PeerId, ms: seq<Text>)
    requires id in w.connections && id in w.peers
    requires w.connections[id].isConnected && w.connections[id].jammer.socket.Some?
    ensures var r := Feed(w, id, ms);
      && id in r.connections && id in r.peers
      && r.connections[id].isConnected
      && r.connections[id].messageQueue == w.connections[id].messageQueue
      && r.connections[id].jammer.socket.Some?
      && r.connections[id].jammer.socket.value.sent == w.connections[id].jammer.socket.value.sent + ms
      && r.peers[id].inbound == w.peers[id].inbound + ms
    decreases |ms|
  {
    if ms == [] {
        assert w.connections[id].jammer.socket.value.sent + ms == w.connections[id].jammer.socket.value.sent;
      assert w.peers[id].inbound + ms == w.peers[id].inbound;
    } else {
      var c, p := w.connections[id], w.peers[id];
      var sent := c.jammer.socket.value.sent;
      var w1 := OnMessage(w, id, ms[0]);
      assert && w1.connections[id].isConnected
             && w1.connections[id].messageQueue == c.messageQueue
             && w1.connections[id].jammer.socket.Some?
             && w1.connections[id].jammer.socket.value.sent == sent + [ms[0]]
             && w1.peers[id].inbound == p.inbound + [ms[0]] by {
      }
      MessagesAreWritten(w1, id, ms[1..]);
      assert sent + [ms[0]] + ms[1..] == sent + ms;
      assert p.inbound + [ms[0]] + ms[1..] == p.inbound + ms;
    }
  }

  /** Messages sent before the connect succeeds, then messages sent after,
      reach the socket in exactly the order the browser sent them, each once,
      and the queue ends empty. */
  lemma QueuedThenLive(w: World, id: PeerId, before: seq<Text>, evs: seq<J.SocketEvent>, f: Faults, after: seq<Text>)
    requires Inv(w) && id in w.connections && !w.connections[id].isConnected
    requires J.Settle(evs) == J.Resolved
    ensures var r := Run(w, Messages(id, before) + [ConnectSettled(id, evs, f)] + Messages(id, after));
      && id in r.connections
      && r.connections[id].isConnected
      && r.connections[id].messageQueue == []
      && r.connections[id].jammer.socket.Some?
      && r.connections[id].jammer.socket.value.sent == w.connections[id].messageQueue + before + after
  {
    assert Healthy(w, id);
    var es1 := Messages(id, before);
    var es2 := [ConnectSettled(id, evs, f)];
    var es3 := Messages(id, after);
    RunAppend(w, es1 + es2, es3);
    RunAppend(w, es1, es2);
    RunMessagesIsFeed(w, id, before);
    MessagesAreQueued(w, id, before);
    var w1 := Run(w, es1);
    var q := w.connections[id].messageQueue + before;
    assert w1.connections[id].messageQueue == q;
    assert w1.connections[id].jammer.socket.value.sent == [];
    var w2 := OnConnectSettled(w1, id, evs, f);
    assert Run(w1, es2) == w2;
    assert w2.connections[id].jammer.socket.value.sent == q;
    RunMessagesIsFeed(w2, id, after);
    MessagesAreWritten(w2, id, after);
  }

  // ---------------------------------------------------------------------
  // Cleanup
  // ---------------------------------------------------------------------

  /** A second `cleanupConnection` changes nothing, whichever steps threw. */
  lemma CleanupIdempotent(w: World, id: PeerId, f: Faults, g: Faults)
    ensures CleanupWith(CleanupWith(w, id, f), id, g) == CleanupWith(w, id, f)
  {
  }

  /** A failed connect reaches `cleanupConnection` twice (the Jammer's
      `error` listener, then the `catch`), yet the outcome is one cleanup of
      the session with its socket dropped: one record retired, the entry
      gone, the queued messages never written. */
  lemma ConnectFailureCleansUpOnce(w: World, id: PeerId, evs: seq<J.SocketEvent>, f: Faults)
    requires id in w.connections && w.connections[id].jammer.listening
    requires J.Settle(evs) == J.Rejected
    ensures var c := w.connections[id];
      var r := OnConnectSettled(w, id, evs, f);
      && r == CleanupWith(w.(connections := w.connections[id := c.(jammer := c.jammer.(socket := None))]), id, f)
      && id !in r.connections
      && r.retired == w.retired + [r.retired[|w.retired|]]
      && r.retired[|w.retired|].messageQueue == c.messageQueue
      && r.retired[|w.retired|].jammer.socket.None?
      && !r.retired[|w.retired|].jammer.listening
  {
    var c := w.connections[id];
    var failed := w.(connections := w.connections[id := c.(jammer := c.jammer.(socket := None))]);
    assert Dispatch(failed, id, [J.Failed], f) == CleanupWith(failed, id, f);
  }

  /** Cleanup closes the peer with a plain `close()` exactly when it is open,
      and removes the Jammer's listeners even when `destroy` throws. */
  lemma CleanupClosesOpenPeerOnly(w: World, id: PeerId, f: Faults)
    requires id in w.connections && id in w.peers && !f.peerCloseThrows
    ensures var r := CleanupWith(w, id, f);
      && (w.peers[id].open <==> r.peers[id].closes == w.peers[id].closes + [CloseNormal])
      && (!w.peers[id].open ==> r.peers[id] == w.peers[id])
      && !r.peers[id].open
      && !r.retired[|w.retired|].jammer.listening
  {
  }

  // ---------------------------------------------------------------------
  // Forwarding to the browser
  // ---------------------------------------------------------------------

  /** Received events reach the peer in order, data unchanged. */
  lemma {:induction false} DispatchForwardsInOrder(w: World, id: PeerId, frames: seq<Chunk>)
    requires id in w.connections && w.connections[id].jammer.listening
    requires id in w.peers && w.peers[id].open
    ensures var evs := seq(|frames|, i requires 0 <= i < |frames| => J.Received(frames[i]));
      var r := Dispatch(w, id, evs, NoFaults);
      && r.connections == w.connections && r.retired == w.retired
      && id in r.peers
      && r.peers[id] == w.peers[id].(delivered := w.peers[id].delivered + frames)
    decreases |frames|
  {
    var evs := seq(|frames|, i requires 0 <= i < |frames| => J.Received(frames[i]));
    if frames == [] {
      assert w.peers[id].(delivered := w.peers[id].delivered + frames) == w.peers[id];
    } else {
      var w1 := React(w, id, evs[0], NoFaults);
      var rest := seq(|frames[1..]|, i requires 0 <= i < |frames[1..]| => J.Received(frames[1..][i]));
      assert evs[1..] == rest;
      DispatchForwardsInOrder(w1, id, frames[1..]);
      assert w.peers[id].delivered + [frames[0]] + frames[1..] == w.peers[id].delivered + frames;
    }
  }

  /** Once the peer is no longer open, received events are dropped. */
  lemma {:induction false} DispatchDropsWhenPeerClosed(w: World, id: PeerId, frames: seq<Chunk>)
    requires id in w.peers && !w.peers[id].open
    ensures Dispatch(w, id, seq(|frames|, i requires 0 <= i < |frames| => J.Received(frames[i])), NoFaults) == w
    decreases |frames|
  {
    var evs := seq(|frames|, i requires 0 <= i < |frames| => J.Received(frames[i]));
    if frames != [] {
      var rest := seq(|frames[1..]|, i requires 0 <= i < |frames[1..]| => J.Received(frames[1..][i]));
      assert evs[1..] == rest;
      DispatchDropsWhenPeerClosed(w, id, frames[1..]);
    }
  }

  /** Upstream frames of a connected session reach its browser, each once, in
      stream order, while the browser's socket is open, and are dropped
      otherwise; nothing else changes. */
  lemma UpstreamFramesForwarded(w: World, id: PeerId, frames: seq<Chunk>)
    requires id in w.connections && id in w.peers
    requires w.connections[id].jammer.listening && J.Piped(w.connections[id].jammer)
    ensures var r := OnUpstream(w, id, frames);
      && (w.peers[id].open ==>
            && id in r.peers
            && r.connections == w.connections && r.retired == w.retired
            && r.peers[id] == w.peers[id].(delivered := w.peers[id].delivered + frames))
      && (!w.peers[id].open ==> r == w)
  {
    var evs := J.Receive(w.connections[id].jammer, frames);
    assert evs == seq(|frames|, i requires 0 <= i < |frames| => J.Received(frames[i]));
    if w.peers[id].open {
      DispatchForwardsInOrder(w, id, frames);
    } else {
      DispatchDropsWhenPeerClosed(w, id, frames);
    }
  }

  // ---------------------------------------------------------------------
  // Scenarios
  // ---------------------------------------------------------------------

  /** "hello" */
  const Hello: Text := [0x68, 0x65, 0x6C, 0x6C, 0x6F]

  const Credentialed: seq<QueryParam> := [QueryParam("screen_name", "abc"), QueryParam("token", "xyz")]

  /** The session `OnOpen` registers for the credentials "abc"/"xyz". */
  lemma HelloOpened(id: PeerId)
    ensures var w1 := Step(Empty, Open(id, Some(Credentialed)));
      && id in w1.connections && !w1.connections[id].isConnected
      && w1.connections[id].messageQueue == []
      && w1.connections[id].jammer.socket == Some(J.Socket([], false))
  {
    assert GetParam(Credentialed, "screen_name") == Some("abc");
    assert GetParam(Credentialed, "token") == Some("xyz");
  }

  /** Before the connect settles, "hello" is queued and nothing is written. */
  lemma HelloQueued(w1: World, id: PeerId)
    requires id in w1.connections && !w1.connections[id].isConnected
    requires w1.connections[id].messageQueue == [] && w1.connections[id].jammer.socket == Some(J.Socket([], false))
    ensures var w2 := Step(w1, Message(id, Hello));
      && id in w2.connections && !w2.connections[id].isConnected
      && w2.connections[id].messageQueue == [Hello] && w2.connections[id].jammer.socket == Some(J.Socket([], false))
  {
  }

  /** A `secureConnect` drains the queue onto the socket. */
  lemma HelloSent(w2: World, id: PeerId)
    requires id in w2.connections && !w2.connections[id].isConnected
    requires w2.connections[id].messageQueue == [Hello] && w2.connections[id].jammer.socket == Some(J.Socket([], false))
    ensures var w3 := Step(w2, ConnectSettled(id, [J.SecureConnect], NoFaults));
      && id in w3.connections && w3.connections[id].isConnected
      && w3.connections[id].messageQueue == []
      && w3.connections[id].jammer.socket.Some?
      && w3.connections[id].jammer.socket.value.sent == [Hello]
  {
    assert J.Settle([J.SecureConnect]) == J.Resolved;
  }

  /** A peer with screen name "abc" and token "xyz" sends "hello" before the
      upstream connect succeeds; once it does, the upstream socket has been
      handed exactly `hello\0`. */
  lemma HelloBeforeReady(id: PeerId)
    ensures var w := Run(Empty, [Open(id, Some(Credentialed)), Message(id, Hello), ConnectSettled(id, [J.SecureConnect], NoFaults)]);
      && id in w.connections
      && w.connections[id].isConnected
      && w.connections[id].messageQueue == []
      && w.connections[id].jammer.socket.Some?
      && J.WireText(w.connections[id].jammer.socket.value) == Hello + [J.NUL]
  {
    var open, message, settled := Open(id, Some(Credentialed)), Message(id, Hello), ConnectSettled(id, [J.SecureConnect], NoFaults);
    RunThree(Empty, open, message, settled);
    HelloOpened(id);
    var w1 := Step(Empty, open);
    HelloQueued(w1, id);
    var w2 := Step(w1, message);
    HelloSent(w2, id);
    assert J.FrameAll([Hello]) == J.Frame(Hello) + J.FrameAll([]);
    assert !J.EndsWithNul(Hello);
  }

  lemma RunThree(w: World, a: Event, b: Event, c: Event)
    ensures Run(w, [a, b, c]) == Step(Step(Step(w, a), b), c)
  {
    var w1, w2 := Step(w, a), Step(Step(w, a), b);
    assert [a, b, c][1..] == [b, c];
    assert [b, c][1..] == [c];
    assert [c][1..] == [];
    assert Run(w2, [c]) == Run(Step(w2, c), []);
    assert Run(w1, [b, c]) == Run(w2, [c]);
    assert Run(w, [a, b, c]) == Run(w1, [b, c]);
  }

  /** A handshake without credentials is closed with 4000 "Missing
      credentials" and no session or Jammer is created. */
  lemma NoCredentialsRejected(id: PeerId, query: seq<QueryParam>)
    requires GetParam(query, "screen_name").GetOr("") == "" || GetParam(query, "token").GetOr("") == ""
    ensures var w := Run(Empty, [Open(id, Some(query))]);
      && w.connections == map[] && w.retired == []
      && id in w.peers && !w.peers[id].open
      && w.peers[id].closes == [CloseWith(4000, "Missing credentials")]
  {
    assert Run(Empty, [Open(id, Some(query))]) == OnOpen(Empty, id, Some(query));
  }
}
