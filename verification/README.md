# WebSocket-to-TLS game gateway: a Dafny model

This project models the core of a gateway that lets a browser game client
reach a legacy game server. The game server speaks a TLS protocol of
0x00-terminated messages. The browser opens a WebSocket to the gateway. The
gateway gives each peer its own *Jammer*: a client that holds one TLS socket
upstream. Until the upstream connect succeeds, the gateway queues the
browser's messages. After that it writes them straight through. Every failure
on either side runs one teardown, `cleanupConnection`.

Modules:

- `Common` (`common.dfy`) defines `Option`, `Result`, messages as
  sequences of UTF-16 code units (so `|m|` is JavaScript's `m.length`), and
  `Chunk`, the byte sequence of a Node `Buffer`. Peer ids, query pairs and
  credentials are only compared and passed along, so they stay Dafny
  `string`s.
- `Jammer` (`jammer.dfy`) models the client in `src/lib/jammer/index.ts`.
  It covers framing, the settle rule of `createConnection`, the rest of
  `connect`, `write` and its listeners, `destroy`, and `received` events.
  The socket is an abstract record: present or absent, whether the decoder
  is piped on, and the messages it has been handed. Everything written,
  terminators included, is `WireText` = `FrameAll(sent)`, in code units.
  The socket events that happen, and their order, are parameters.
- `Gateway` (`gateway.dfy`) models the handlers in
  `src/server/websocket/index.ts`. Node runs each handler to completion on
  one event loop, so each handler is a pure, atomic transition of a `World`.
  The `World` holds the peers, the `connections` map, and the records that
  teardown removed from the map. The async `open` is split in two: its
  synchronous prefix (`OnOpen`), and the continuation after the connect
  promise settles (`OnConnectSettled`). The Jammer's events come back as a
  list, and `Dispatch` hands them to the listeners that `open` registered.
- `GatewayProofs` (`gateway_proofs.dfy`) holds the session invariant and
  the proof that every handler keeps it. It also proves upstream ordering
  across the switch from queued to live, idempotent cleanup, forwarding to
  the browser, and two end-to-end scenarios.

The central result is `GatewayProofs.ArrivalOrderIsUpstreamOrder`. From a
fresh process, after any history of events, a connected session's socket
has been handed exactly the messages its browser sent. They arrive in
sending order, with none dropped and none repeated. A session that is still
connecting has written nothing and holds every message in its queue. This
holds whichever teardown steps throw: every event that can run
`cleanupConnection` carries a `Faults` value saying whether `peer.close()`
and `destroy()` throw. The only assumption about the environment is that
each peer id is new when it opens (crossws ids are unique).

Some behaviour of the code that the model keeps:

- `createConnection` overwrites `this.socket` without destroying an earlier
  socket (`Jammer.StartConnect`).
- Cleanup is guarded only by the entry still being in the `connections`
  map, so a second cleanup of the same id does nothing.
- The gateway never awaits a write promise, so a rejected write changes
  nothing. Only the stream's own `error` and `close` events start teardown.
- A handshake without a request URL makes `new URL('')` throw before the
  credential check. The peer then stays open with no session
  (`Gateway.OnOpen`, query `None`). Only a handshake with a URL but without
  credentials is closed with 4000 "Missing credentials".

## Model

| member | source | states |
|---|---|---|
| Jammer.FrameAppendsOnlyWhenAbsent | src/lib/jammer/index.ts:107-108 | The text written for `m` is `m`, then one terminator exactly when `m` does not already end in 0x00. The terminator is never doubled, and framing twice equals framing once. |
| Jammer.FrameAllAppend | src/lib/jammer/index.ts:107-108 | The text of successive writes is the frames of each message, concatenated in write order. |
| Jammer.New | src/lib/jammer/index.ts:11-24 | A new Jammer has no socket and no listeners, and keeps the options it was given. |
| Jammer.StartConnect | src/lib/jammer/index.ts:54-63 | `createConnection` stores a fresh socket that has been handed nothing and is not piped. Options and listeners are kept. |
| Jammer.SettleFirstWins | src/lib/jammer/index.ts:65-80 | The connect promise resolves exactly when the first settling event is `secureConnect` or `connect`. It rejects exactly when that event is `error`, and stays pending exactly when no settling event occurs. |
| Jammer.SettleIsFinal | src/lib/jammer/index.ts:65-80 | Once settled, the promise keeps its outcome whatever events follow. |
| Jammer.ListenersOnlyShrink | src/lib/jammer/index.ts:66-79 | Firing the connect listeners never adds a listener. |
| Jammer.ErrorListenerKeptAsWritten | src/lib/jammer/index.ts:66-69 | As written, no event except `error` removes the error listener that `createConnection` registered. |
| Jammer.ConnectLeaksErrorListener | src/lib/jammer/index.ts:66-69 | As written, a connect that resolves and never sees an error leaves `onError` registered on the socket. |
| Jammer.ConnectLeaksErrorListenerExample | src/lib/jammer/index.ts:66-79 | A concrete case: after a lone `connect`, the listeners left are `secureConnect` and `error`. |
| Jammer.ConnectLeavesNoErrorListener | src/lib/jammer/index.ts:66-79 | With `onConnect` removing `onError`, a resolved connect leaves no error listener. A rejected connect leaves no connect listener at all. |
| Jammer.RejectedConnectLeavesNoListener | src/lib/jammer/index.ts:71-79 | A connect rejected by `error` leaves none of its listeners on the socket, with `onConnect` as written or corrected. |
| Jammer.FinishConnect | src/lib/jammer/index.ts:31-49 | A resolved connect pipes the existing socket and emits nothing. If the socket is already gone, piping throws and the failure path runs. A failed connect drops the socket, emits exactly one `error`, and rethrows. A pending connect changes nothing. The listeners left are those of the code as written: a resolved connect with no `error` keeps `onError`, and a rejected one keeps nothing. |
| Jammer.Transmit | src/lib/jammer/index.ts:104-108 | The write path hands the socket `m`, so the wire text grows by `Frame(m)`. Without a socket, nothing is written. |
| Jammer.WriteListeners | src/lib/jammer/index.ts:89-118 | After a write settles, its `error` and `close` listeners are gone on every path. Its `drain` listener stays exactly when `error` or `close` came before `drain`. |
| Jammer.Write | src/lib/jammer/index.ts:87-119 | Resolves with the original `message.length`, excluding any appended terminator, whether the write flushed at once or after `drain`. Rejects if `error` or `close` comes first. Rejects without writing when there is no socket. |
| Jammer.Receive | src/lib/jammer/index.ts:122-128 | Each decoded chunk becomes exactly one `received` event, with the data unchanged and in stream order. Nothing is emitted before the decoder is piped. |
| Jammer.Destroy | src/lib/jammer/index.ts:133-138 | `destroy` leaves no socket. With no socket, it changes nothing. |
| Jammer.DestroyIdempotent | src/lib/jammer/index.ts:133-138 | A second `destroy` is a no-op. |
| Gateway.GetParam | src/server/websocket/index.ts:31-34 | A query parameter reads as the value of the first pair with that name. It is absent exactly when no pair has that name. |
| Gateway.OnOpen | src/server/websocket/index.ts:26-70 | If `screen_name` or `token` is missing or empty, the peer is closed with 4000 "Missing credentials" and the map is unchanged. Otherwise exactly one entry is registered under the peer id: not connected, with an empty queue, a Jammer for the fixed upstream host and port with the peer's credentials, listened to and connecting. Other entries are untouched. |
| Gateway.OnMessage | src/server/websocket/index.ts:88-103 | With no entry, no connection changes. Before connect, the message is appended to the end of the queue and nothing is written. After connect, it is written at once and the queue is untouched. |
| Gateway.SendAll | src/server/websocket/index.ts:154-157 | The drain loop hands the socket the queued messages in front-to-back order. |
| Gateway.ProcessQueue | src/server/websocket/index.ts:143-158 | A no-op when the entry is missing, not connected, or has an empty queue. Otherwise every queued message is written in order and the queue ends empty. |
| Gateway.FailConnect | src/server/websocket/index.ts:62-82 | After a failed connect, cleanup runs through the `error` listener and again in the `catch`. The entry is gone and its queue is retired unwritten, with no socket and no listeners. The peer gets one plain `close()` exactly when it was open and the close did not throw. Other sessions and peers are untouched. |
| Gateway.OnConnectSettled | src/server/websocket/index.ts:72-82 | On success the entry becomes connected and its socket is handed the queued messages after the earlier ones, leaving the queue empty; peers and retired records are unchanged. On failure, `FailConnect` runs with the given teardown faults. Pending leaves everything unchanged. Other entries and peers are never touched. |
| Gateway.Teardown | src/server/websocket/index.ts:129-135 | The torn-down Jammer always loses its listeners, even when `destroy` throws. When `destroy` does not throw, it has no socket. The queue is kept and not written. |
| Gateway.CleanupWith | src/server/websocket/index.ts:116-138 | Cleanup removes only that entry. The peer gets a plain `close()` exactly when it was open and the close did not throw. One torn-down record is retired. With no entry, nothing changes. |
| Gateway.React | src/server/websocket/index.ts:56-70 | A `received` event is forwarded to the peer only while the peer is open. `error` and `close` run cleanup with the given teardown faults. Once the listeners are removed, nothing reacts. |
| Gateway.OnUpstreamError | src/server/websocket/index.ts:62-65 | An `error` on the piped stream of a listened-to Jammer is exactly one cleanup, with the given teardown faults. |
| Gateway.OnUpstreamClose | src/server/websocket/index.ts:67-70 | A `close` on the piped stream of a listened-to Jammer is exactly one cleanup, with the given teardown faults. |
| Gateway.OnPeerClose | src/server/websocket/index.ts:108-110 | The `close` hook removes the entry, retires its torn-down record, and leaves the peer closed with no `close()` call made. Other entries and peers are untouched. |
| GatewayProofs.CleanupRestoresInv | src/server/websocket/index.ts:116-138 | Removing one entry leaves every other session healthy. |
| GatewayProofs.OpenPreservesInv | src/server/websocket/index.ts:42-54 | A new entry starts healthy: nothing sent, nothing queued. |
| GatewayProofs.MessagePreservesInv | src/server/websocket/index.ts:98-102 | After a message, the socket's messages followed by the queue are still exactly what the browser sent. |
| GatewayProofs.FailConnectPreservesInv | src/server/websocket/index.ts:79-82 | The failure path of `open` keeps every other session healthy, whichever teardown steps throw. |
| GatewayProofs.ConnectSettledPreservesInv | src/server/websocket/index.ts:72-82 | The queued-to-live switch keeps socket-then-queue equal to the arrival order. |
| GatewayProofs.ReactPreservesInv | src/server/websocket/index.ts:56-70 | Jammer listeners keep every session healthy. |
| GatewayProofs.DispatchPreservesInv | src/server/websocket/index.ts:56-70 | A sequence of Jammer events keeps every session healthy. |
| GatewayProofs.StepPreservesInv | src/server/websocket/index.ts:22-111 | Every handler keeps every registered session healthy, whichever teardown steps throw. |
| GatewayProofs.RunPreservesInv | src/server/websocket/index.ts:22-111 | Any admissible history keeps every session healthy, including histories where `peer.close()` or `destroy()` throws. |
| GatewayProofs.ArrivalOrderIsUpstreamOrder | src/server/websocket/index.ts:98-102 | From a fresh process, a connected session's socket holds exactly the browser's messages, each once and in order, and its wire text is their frames. A connecting session has written nothing and queues them all, in order. |
| GatewayProofs.MessagesAreQueued | src/server/websocket/index.ts:101 | While connecting, each message joins the back of the queue and nothing else about the session changes. |
| GatewayProofs.MessagesAreWritten | src/server/websocket/index.ts:99 | Once connected, each message goes to the socket after everything before it, and the queue does not change. |
| GatewayProofs.QueuedThenLive | src/server/websocket/index.ts:76-78 | Messages sent before and after a successful connect reach the socket in exactly their sending order, each once, and the queue ends empty. |
| GatewayProofs.CleanupIdempotent | src/server/websocket/index.ts:117-118 | A second cleanup of the same id changes nothing, whichever teardown steps threw. |
| GatewayProofs.ConnectFailureCleansUpOnce | src/server/websocket/index.ts:79-82 | A failed connect reaches cleanup twice, through the `error` listener and then the `catch`. The result is still a single cleanup with the given teardown faults: entry gone, one record retired, queue never written, socket dropped. |
| GatewayProofs.CleanupClosesOpenPeerOnly | src/server/websocket/index.ts:121-127 | Cleanup closes the peer exactly when it is open (`readyState === 1`), leaves an already-closed peer as it was, and removes the Jammer's listeners. |
| GatewayProofs.DispatchForwardsInOrder | src/server/websocket/index.ts:56-60 | `received` events reach an open peer in order, data unchanged, and nothing else changes. |
| GatewayProofs.DispatchDropsWhenPeerClosed | src/server/websocket/index.ts:56-60 | Once the peer is not open, `received` data is dropped. |
| GatewayProofs.UpstreamFramesForwarded | src/server/websocket/index.ts:56-60 | Upstream frames of a connected session reach the browser each once, in stream order, while it is open. Otherwise they are dropped. |
| GatewayProofs.HelloBeforeReady | src/server/websocket/index.ts:72-78 | A peer with credentials "abc"/"xyz" sends "hello" before the connect succeeds. Afterwards the upstream socket has been handed exactly `hello\0`. |
| GatewayProofs.NoCredentialsRejected | src/server/websocket/index.ts:33-40 | A handshake without a non-empty screen name and token is closed with 4000 "Missing credentials". No session or Jammer is created and nothing is retired. |

## Findings

| source | as written | input that shows it | evidently intended | confidence | as-written member | corrected member |
|---|---|---|---|---|---|---|
| src/lib/jammer/index.ts:66-69 | `onConnect` calls `removeListener('error', reject)`, but the listener registered for `error` is `onError`, so nothing is removed | The socket emits `connect` and no `error`: `onError` stays registered for the socket's whole life | `onConnect` removes `onError` | not executed; medium | Jammer.ConnectLeaksErrorListener | Jammer.ConnectLeavesNoErrorListener |

`Jammer.FinishConnect` reports the listeners that `onConnect` as written
leaves, so its contract states the leak. The corrected `onConnect` is
`Jammer.ConnectLeftover`. One caution about the correction: the leaked listener is also what
currently absorbs socket-level `error` events. The `.on('error')` chained
after `pipe` is attached to the decoder stream, not to the socket.

## Left out

- The frame decoder (`DelimiterTransform`) is not part of this model. `Upstream` events carry the frames it produced, as an uninterpreted input. Chunk-boundary independence of decoding is therefore not stated.
- `socket.write` encodes a message as UTF-8; the model keeps the UTF-16 code units (`Jammer.WireText`), not the bytes. Framing is unaffected: U+0000 is the only code point whose UTF-8 encoding contains a zero byte, so terminators sit at the same message boundaries either way.
- Real TLS and socket behaviour is left out: the handshake, `rejectUnauthorized: false`, backpressure timing, and Node stream event ordering. Settle order and write outcome are parameters. Whether a socket-level `error` reaches the Jammer through the pipe is not modelled; `UpstreamError` and `UpstreamClose` stand for the piped stream's events.
- Write promises in the gateway are never awaited, so the gateway uses only the synchronous part of `write` (`Jammer.Transmit`). Unhandled rejections and all logging are left out.
- A `received` listener that throws (`peer.send` failing) is caught and logged by `handleReceivedData`. The model does not include a throwing `peer.send`.
- Gateway.CleanupWith: a `peer.close()` that throws is modelled as leaving the peer's state unchanged. The state of a peer after a throwing close is not specified.
- Gateway.OnConnectSettled: a connect that settles after its entry was cleaned up is a no-op. In the code it sets `isConnected` on the orphaned record, which nothing reads. After `destroy` the promise in fact never settles.
- Emitting `error` on a Jammer with no `error` listener makes Node throw. That happens only after the entry is gone, where the model's outcome is the same.
- A second `open` under an id that is still registered would overwrite the entry while the old Jammer's listeners stay live. The invariant lemmas assume fresh peer ids, as crossws provides.
- `src/server/middleware/proxy.ts`, `src/server/api/*`, `src/stores/*`, `src/validations/*` and `nuxt.config.ts` are HTTP forwarders, UI state and configuration. None of them is part of the gateway core.
