/** The WebSocket gateway: one Jammer per browser peer, a process-wide map
    from peer id to its connection record, and the `open`, `message` and
    `close` handlers.

    Node runs every handler to completion on one event loop, so each handler
    is an atomic transition of the whole `World`. The asynchronous `open`
    becomes two transitions: its synchronous prefix (`OnOpen`) and the
    continuation after the connect promise settles (`OnConnectSettled`).
    Jammer events reach the gateway as sequences of `JammerEvent`s that
    `Dispatch` hands to the listeners `open` registered. */
module Gateway {
  import opened Common
  import J = Jammer

  const UpstreamHost: string := "lb-iss02-classic-prod.animaljam.com"
  const UpstreamPort: int := 443
  const MissingCredentialsCode: int := 4000
  const MissingCredentialsReason: string := "Missing credentials"

  /** The opaque per-connection id crossws gives each peer. */
  type PeerId = string

  /** One `name=value` pair of the handshake URL's query, in URL order. */
  datatype QueryParam = QueryParam(name: string, value: string)

  /** `URLSearchParams.get`: the value of the first pair named `name`. */
  function GetParam(q: seq<QueryParam>, name: string): (r: Option<string>)
    ensures r.None? <==> forall i :: 0 <= i < |q| ==> q[i].name != name
    ensures r.Some? ==> exists i :: 0 <= i < |q| && q[i] == QueryParam(name, r.value)
                                    && forall k :: 0 <= k < i ==> q[k].name != name
    decreases |q|
  {
    if q == [] then None
    else if q[0].name == name then Some(q[0].value)
    else
      var r := GetParam(q[1..], name);
      assert r.Some? ==> exists i :: 0 <= i < |q| && q[i] == QueryParam(name, r.value)
                                    && forall k :: 0 <= k < i ==> q[k].name != name by {
        if r.Some? {
          var i :| 0 <= i < |q[1..]| && q[1..][i] == QueryParam(name, r.value)
                   && forall k :: 0 <= k < i ==> q[1..][k].name != name;
          assert q[i + 1] == QueryParam(name, r.value);
          forall k | 0 <= k < i + 1 ensures q[k].name != name {
            if k > 0 {
              assert q[k] == q[1..][k - 1];
            }
          }
        }
      }
      r
  }

  /** How `peer.close` was called: with no arguments, or with a code and a
      reason. */
  datatype CloseCall = CloseNormal | CloseWith(code: int, reason: string)

  /** A browser peer: whether its WebSocket is open (`readyState === 1`),
      the messages the browser has sent on it and the ones it was sent, in
      order, and the `close` calls made on it. */
  datatype Peer = Peer(open: bool, inbound: seq<Text>, delivered: seq<Chunk>, closes: seq<CloseCall>)

  const FreshPeer: Peer := Peer(true, [], [], [])

  /** `peer.close(...)`: the socket leaves the open state. */
  function ClosePeer(p: Peer, call: CloseCall): Peer {
    p.(open := false, closes := p.closes + [call])
  }

  /** The per-peer record: its Jammer, whether the upstream connect has
      succeeded, and the messages waiting for it. The peer is the one under
      the same id in `World.peers`. */
  datatype Connection = Connection(jammer: J.Jammer, isConnected: bool, messageQueue: seq<Text>)

  /** The peers, the connection map, and the records removed from the map
      (kept so that what teardown did to them can be stated). */
  datatype World = World(peers: map<PeerId, Peer>, connections: map<PeerId, Connection>, retired: seq<Connection>)

  const Empty: World := World(map[], map[], [])

  /** Which teardown steps throw: `peer.close()` and the socket's `destroy()`. */
  datatype Faults = Faults(peerCloseThrows: bool, destroyThrows: bool)

  const NoFaults: Faults := Faults(false, false)

  /** Everything that can happen to the gateway. `Upstream` carries the
      frames the decoder produced; `PeerClosing` is the browser's socket
      leaving the open state before crossws runs the `close` hook
      (`PeerClose`). An event that can run `cleanupConnection` carries the
      teardown steps that throw during it. */
  datatype Event =
    | Open(id: PeerId, query: Option<seq<QueryParam>>)
    | Message(id: PeerId, text: Text)
    | ConnectSettled(id: PeerId, socketEvents: seq<J.SocketEvent>, faults: Faults)
    | Upstream(id: PeerId, frames: seq<Chunk>)
    | UpstreamError(id: PeerId, faults: Faults)
    | UpstreamClose(id: PeerId, faults: Faults)
    | PeerClosing(id: PeerId)
    | PeerClose(id: PeerId, faults: Faults)

  // ---------------------------------------------------------------------
  // cleanupConnection
  // ---------------------------------------------------------------------

  /** The connection record after teardown: the Jammer destroyed (unless its
      `destroy` threw) and, in the `finally`, stripped of all listeners. The
      queue is left as it was: queued messages are never written. */
  function Teardown(c: Connection, f: Faults): (t: Connection)
    ensures !t.jammer.listening
    ensures t.messageQueue == c.messageQueue && t.isConnected == c.isConnected
    ensures t.jammer.options == c.jammer.options
    ensures !f.destroyThrows ==> t.jammer.socket.None?
    ensures f.destroyThrows ==> t.jammer.socket == c.jammer.socket
  {
    var destroyed := if f.destroyThrows then c.jammer else J.Destroy(c.jammer);
    c.(jammer := J.RemoveAllListeners(destroyed))
  }

  /** `cleanupConnection(id)`: nothing when there is no entry; otherwise close
      the peer if it is open, tear the Jammer down, and remove the entry. A
      throwing `peer.close()` or `destroy()` does not stop the later steps. */
  function CleanupWith(w: World, id: PeerId, f: Faults): (r: World)
    ensures id !in w.connections ==> r == w
    ensures id !in r.connections
    ensures r.connections.Keys == w.connections.Keys - {id}
    ensures forall k :: k in r.connections ==> r.connections[k] == w.connections[k]
    ensures r.peers.Keys == w.peers.Keys
    ensures forall k :: k in r.peers && k != id ==> r.peers[k] == w.peers[k]
    ensures id in w.peers ==> r.peers[id].inbound == w.peers[id].inbound
                              && r.peers[id].delivered == w.peers[id].delivered
    ensures id in w.peers ==>
      (r.peers[id].closes == w.peers[id].closes + [CloseNormal]
       <==> id in w.connections && w.peers[id].open && !f.peerCloseThrows)
    ensures id in w.peers && id in w.connections && !f.peerCloseThrows ==> !r.peers[id].open
    ensures id in w.connections ==> r.retired == w.retired + [Teardown(w.connections[id], f)]
  {
    if id !in w.connections then w
    else
      var c := w.connections[id];
      var peers :=
        if id in w.peers && w.peers[id].open && !f.peerCloseThrows
        then w.peers[id := ClosePeer(w.peers[id], CloseNormal)]
        else w.peers;
      World(peers, w.connections - {id}, w.retired + [Teardown(c, f)])
  }

  // ---------------------------------------------------------------------
  // processQueue
  // ---------------------------------------------------------------------

  /** The drain loop of `processQueue`: shift each queued message and write
      it, front to back. */
  function SendAll(j: J.Jammer, ms: seq<Text>): (r: J.Jammer)
    ensures r.options == j.options && r.listening == j.listening
    ensures j.socket.None? ==> r == j
    ensures j.socket.Some? ==> r.socket.Some? && r.socket.value.piped == j.socket.value.piped
    ensures j.socket.Some? ==> r.socket.value.sent == j.socket.value.sent + ms
    decreases |ms|
  {
    if ms == [] then j
    else
      assert ms == [ms[0]] + ms[1..];
      SendAll(J.Transmit(j, ms[0]), ms[1..])
  }

  /** `processQueue(id)`: nothing unless an entry exists, is connected and has
      queued messages; otherwise every queued message is written in order and
      the queue ends empty. */
  function ProcessQueue(w: World, id: PeerId): (r: World)
    ensures id !in w.connections || !w.connections[id].isConnected || w.connections[id].messageQueue == []
            ==> r == w
    ensures r.peers == w.peers && r.retired == w.retired
    ensures r.connections.Keys == w.connections.Keys
    ensures forall k :: k in r.connections && k != id ==> r.connections[k] == w.connections[k]
    ensures id in w.connections ==>
      var c, c' := w.connections[id], r.connections[id];
      && c'.messageQueue == (if c.isConnected then [] else c.messageQueue)
      && c'.isConnected == c.isConnected
      && c'.jammer.options == c.jammer.options && c'.jammer.listening == c.jammer.listening
      && (c.jammer.socket.Some? ==> c'.jammer.socket.Some? && c'.jammer.socket.value.piped == c.jammer.socket.value.piped)
      && (c.jammer.socket.Some? && c.isConnected ==>
            c'.jammer.socket.value.sent == c.jammer.socket.value.sent + c.messageQueue)
  {
    if id !in w.connections then w
    else
      var c := w.connections[id];
      if !c.isConnected || c.messageQueue == [] then w
      else w.(connections := w.connections[id := c.(jammer := SendAll(c.jammer, c.messageQueue), messageQueue := [])])
  }

  // ---------------------------------------------------------------------
  // Jammer listeners
  // ---------------------------------------------------------------------

  /** The listeners `open` registered on the Jammer of `id`: `received`
      forwards the data to the peer while it is open; `error` and `close`
      run `cleanupConnection`, in which the steps `f` names throw. Once the
      listeners are removed nothing reacts. */
  function React(w: World, id: PeerId, e: J.JammerEvent, f: Faults): (r: World)
    ensures id !in w.connections || !w.connections[id].jammer.listening ==> r == w
    ensures id in w.connections && w.connections[id].jammer.listening && !e.Received? ==> r == CleanupWith(w, id, f)
    ensures e.Received? ==> r.connections == w.connections && r.retired == w.retired
    ensures e.Received? ==> r.peers.Keys == w.peers.Keys
    ensures e.Received? ==> forall k :: k in r.peers && k != id ==> r.peers[k] == w.peers[k]
    ensures e.Received? && id in w.peers && !w.peers[id].open ==> r == w
    ensures e.Received? && id in w.connections && w.connections[id].jammer.listening && id in w.peers && w.peers[id].open
            ==> r.peers[id] == w.peers[id].(delivered := w.peers[id].delivered + [e.data])
  {
    if id !in w.connections || !w.connections[id].jammer.listening then w
    else
      match e
      case Received(data) =>
        if id in w.peers && w.peers[id].open
        then w.(peers := w.peers[id := w.peers[id].(delivered := w.peers[id].delivered + [data])])
        else w
      case Failed => CleanupWith(w, id, f)
      case Closed => CleanupWith(w, id, f)
  }

  /** Hands the Jammer's events to its listeners, in order. */
  function Dispatch(w: World, id: PeerId, evs: seq<J.JammerEvent>, f: Faults): World
    decreases |evs|
  {
    if evs == [] then w else Dispatch(React(w, id, evs[0], f), id, evs[1..], f)
  }

  // ---------------------------------------------------------------------
  // Handlers
  // ---------------------------------------------------------------------

  /** The synchronous prefix of `open`. Without a request URL, `new URL('')`
      throws and nothing is set up. Without a non-empty `screen_name` and
      `token` the peer is closed with 4000 "Missing credentials" and nothing
      is created. Otherwise one entry is registered, not yet connected and
      with an empty queue, its Jammer configured for the upstream server,
      listened to, and connecting. */
  function OnOpen(w: World, id: PeerId, query: Option<seq<QueryParam>>): (r: World)
    ensures id in r.peers && r.peers[id].inbound == [] && r.peers[id].delivered == []
    ensures forall k :: k in r.peers && k != id ==> k in w.peers && r.peers[k] == w.peers[k]
    ensures w.peers.Keys <= r.peers.Keys
    ensures r.retired == w.retired
    ensures forall k :: k in r.connections && k != id ==> k in w.connections && r.connections[k] == w.connections[k]
    ensures forall k :: k in w.connections && k != id ==> k in r.connections
    ensures query.None? ==> r.connections == w.connections && r.peers[id] == FreshPeer
    ensures query.Some? ==>
      var screenName := GetParam(query.value, "screen_name").GetOr("");
      var token := GetParam(query.value, "token").GetOr("");
      && (screenName == "" || token == "" ==>
            && r.connections == w.connections
            && !r.peers[id].open
            && r.peers[id].closes == [CloseWith(MissingCredentialsCode, MissingCredentialsReason)])
      && (screenName != "" && token != "" ==>
            && r.connections.Keys == w.connections.Keys + {id}
            && r.peers[id] == FreshPeer
            && var c := r.connections[id];
            && !c.isConnected && c.messageQueue == []
            && c.jammer.options == J.Options(UpstreamHost, UpstreamPort, screenName, token)
            && c.jammer.listening
            && c.jammer.socket == Some(J.Socket([], false)))
  {
    match query
    case None => w.(peers := w.peers[id := FreshPeer])
    case Some(q) =>
      var screenName := GetParam(q, "screen_name").GetOr("");
      var token := GetParam(q, "token").GetOr("");
      if screenName == "" || token == "" then
        w.(peers := w.peers[id := ClosePeer(FreshPeer, CloseWith(MissingCredentialsCode, MissingCredentialsReason))])
      else
        var options := J.Options(UpstreamHost, UpstreamPort, screenName, token);
        var jammer := J.StartConnect(J.Listen(J.New(options)));
        w.(peers := w.peers[id := FreshPeer],
           connections := w.connections[id := Connection(jammer, false, [])])
  }

  /** The `message` handler; the browser's message is recorded on the peer.
      Without an entry nothing else changes. Before the connect succeeds the
      message joins the back of the queue and nothing is written; after, it
      is written at once and the queue is untouched. */
  function OnMessage(w: World, id: PeerId, text: Text): (r: World)
    ensures r.retired == w.retired
    ensures r.peers.Keys == w.peers.Keys
    ensures forall k :: k in r.peers && k != id ==> r.peers[k] == w.peers[k]
    ensures id in w.peers ==> r.peers[id] == w.peers[id].(inbound := w.peers[id].inbound + [text])
    ensures r.connections.Keys == w.connections.Keys
    ensures forall k :: k in r.connections && k != id ==> r.connections[k] == w.connections[k]
    ensures id in w.connections ==>
      var c, c' := w.connections[id], r.connections[id];
      && c'.isConnected == c.isConnected
      && (!c.isConnected ==> c' == c.(messageQueue := c.messageQueue + [text]))
      && (c.isConnected ==> c'.messageQueue == c.messageQueue && c'.jammer == J.Transmit(c.jammer, text))
  {
    var w1 :=
      if id in w.peers then w.(peers := w.peers[id := w.peers[id].(inbound := w.peers[id].inbound + [text])])
      else w;
    if id !in w1.connections then w1
    else
      var c := w1.connections[id];
      if c.isConnected then w1.(connections := w1.connections[id := c.(jammer := J.Transmit(c.jammer, text))])
      else w1.(connections := w1.connections[id := c.(messageQueue := c.messageQueue + [text])])
  }

  /** The failure path of `open`: the Jammer has dropped its socket and
      emitted `error`, whose listener runs `cleanupConnection`; then the
      `catch` runs it again. The teardown steps `f` names throw. */
  function FailConnect(w: World, id: PeerId, f: Faults): (r: World)
    requires id in w.connections
    ensures id !in r.connections
    ensures r.connections.Keys == w.connections.Keys - {id}
    ensures forall k :: k in r.connections ==> r.connections[k] == w.connections[k]
    ensures r.peers.Keys == w.peers.Keys
    ensures forall k :: k in r.peers && k != id ==> r.peers[k] == w.peers[k]
    ensures |r.retired| == |w.retired| + 1 && r.retired[..|w.retired|] == w.retired
    ensures var t := r.retired[|w.retired|];
      && t.messageQueue == w.connections[id].messageQueue
      && t.jammer.socket.None? && !t.jammer.listening
    ensures id in w.peers ==>
      && r.peers[id].inbound == w.peers[id].inbound
      && r.peers[id].delivered == w.peers[id].delivered
      && (r.peers[id].closes == w.peers[id].closes + [CloseNormal] <==> w.peers[id].open && !f.peerCloseThrows)
      && (!f.peerCloseThrows ==> !r.peers[id].open)
  {
    var c := w.connections[id];
    var failed := w.(connections := w.connections[id := c.(jammer := c.jammer.(socket := None))]);
    assert Dispatch(failed, id, [J.Failed], f) == React(failed, id, J.Failed, f);
    CleanupWith(Dispatch(failed, id, [J.Failed], f), id, f)
  }

  /** The continuation of `open` once the Jammer's connect settles (or not)
      on the socket events `evs`. On success the entry is marked connected
      and its queue drained; on failure `FailConnect` runs with the teardown
      steps `f` names throwing. No other session is touched. */
  function OnConnectSettled(w: World, id: PeerId, evs: seq<J.SocketEvent>, f: Faults): (r: World)
    ensures id !in w.connections || J.Settle(evs) == J.Unsettled ==> r == w
    ensures forall k :: k in r.connections && k != id ==> k in w.connections && r.connections[k] == w.connections[k]
    ensures forall k :: k in w.connections && k != id ==> k in r.connections
    ensures r.peers.Keys == w.peers.Keys
    ensures forall k :: k in r.peers && k != id ==> r.peers[k] == w.peers[k]
    ensures id in w.connections && (J.Settle(evs) == J.Rejected || (J.Settle(evs) == J.Resolved && w.connections[id].jammer.socket.None?))
            ==> r == FailConnect(w, id, f)
    ensures id in w.connections && J.Settle(evs) == J.Resolved && w.connections[id].jammer.socket.Some? ==>
      && r.peers == w.peers && r.retired == w.retired
      && id in r.connections
      && var c, c' := w.connections[id], r.connections[id];
      && c'.isConnected && c'.messageQueue == []
      && J.Piped(c'.jammer)
      && c'.jammer.socket.value.sent == c.jammer.socket.value.sent + c.messageQueue
  {
    if id !in w.connections then w
    else
      var c := w.connections[id];
      var step := J.FinishConnect(c.jammer, evs);
      match step.outcome
      case Unsettled => w
      case Resolved =>
        ProcessQueue(w.(connections := w.connections[id := c.(jammer := step.jammer, isConnected := true)]), id)
      case Rejected => FailConnect(w, id, f)
  }

  /** Frames decoded from the upstream stream of `id`. */
  function OnUpstream(w: World, id: PeerId, frames: seq<Chunk>): World {
    if id !in w.connections then w
    // `received` never runs `cleanupConnection`, so no teardown step can throw.
    else Dispatch(w, id, J.Receive(w.connections[id].jammer, frames), NoFaults)
  }

  /** An `error` on the upstream stream of `id`. */
  function OnUpstreamError(w: World, id: PeerId, f: Faults): (r: World)
    ensures id in w.connections && w.connections[id].jammer.listening && J.Piped(w.connections[id].jammer)
            ==> r == CleanupWith(w, id, f)
    ensures id !in w.connections || !J.Piped(w.connections[id].jammer) ==> r == w
  {
    if id !in w.connections then w
    else
      var evs := J.StreamError(w.connections[id].jammer);
      assert evs != [] ==> Dispatch(w, id, evs, f) == Dispatch(React(w, id, evs[0], f), id, evs[1..], f);
      Dispatch(w, id, evs, f)
  }

  /** A `close` of the upstream stream of `id`. */
  function OnUpstreamClose(w: World, id: PeerId, f: Faults): (r: World)
    ensures id in w.connections && w.connections[id].jammer.listening && J.Piped(w.connections[id].jammer)
            ==> r == CleanupWith(w, id, f)
    ensures id !in w.connections || !J.Piped(w.connections[id].jammer) ==> r == w
  {
    if id !in w.connections then w
    else
      var evs := J.StreamClose(w.connections[id].jammer);
      assert evs != [] ==> Dispatch(w, id, evs, f) == Dispatch(React(w, id, evs[0], f), id, evs[1..], f);
      Dispatch(w, id, evs, f)
  }

  /** The browser's socket leaves the open state. */
  function OnPeerClosing(w: World, id: PeerId): World {
    if id in w.peers then w.(peers := w.peers[id := w.peers[id].(open := false)]) else w
  }

  /** The `close` hook: the peer is closed, and `cleanupConnection` runs with
      the teardown steps `f` names throwing. No other session is touched. */
  function OnPeerClose(w: World, id: PeerId, f: Faults): (r: World)
    ensures id !in r.connections
    ensures r.connections.Keys == w.connections.Keys - {id}
    ensures forall k :: k in r.connections ==> r.connections[k] == w.connections[k]
    ensures r.peers.Keys == w.peers.Keys
    ensures forall k :: k in r.peers && k != id ==> r.peers[k] == w.peers[k]
    ensures id in w.peers ==> !r.peers[id].open && r.peers[id].closes == w.peers[id].closes
                              && r.peers[id].inbound == w.peers[id].inbound
                              && r.peers[id].delivered == w.peers[id].delivered
    ensures id in w.connections ==> r.retired == w.retired + [Teardown(w.connections[id], f)]
    ensures id !in w.connections ==> r.retired == w.retired
  {
    CleanupWith(OnPeerClosing(w, id), id, f)
  }

  function Step(w: World, e: Event): World {
    match e
    case Open(id, query) => OnOpen(w, id, query)
    case Message(id, text) => OnMessage(w, id, text)
    case ConnectSettled(id, evs, f) => OnConnectSettled(w, id, evs, f)
    case Upstream(id, frames) => OnUpstream(w, id, frames)
    case UpstreamError(id, f) => OnUpstreamError(w, id, f)
    case UpstreamClose(id, f) => OnUpstreamClose(w, id, f)
    case PeerClosing(id) => OnPeerClosing(w, id)
    case PeerClose(id, f) => OnPeerClose(w, id, f)
  }

  function Run(w: World, es: seq<Event>): World
    decreases |es|
  {
    if es == [] then w else Run(Step(w, es[0]), es[1..])
  }
}
