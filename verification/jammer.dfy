/** The Jammer: the client that owns one TLS socket to the upstream game
    server, frames outbound messages with a 0x00 terminator, and reports
    decoded inbound frames and socket failures as `received`, `error` and
    `close` events.

    The socket is an abstract record: whether it is present, whether the
    decoding pipe has been attached, and the messages it has been handed.
    Which socket events happen, and in what order, is a parameter of the
    operations that wait for them. */
module Jammer {
  import opened Common

  // ---------------------------------------------------------------------
  // Framing
  // ---------------------------------------------------------------------

  /** The frame terminator of the game protocol. */
  const NUL: CodeUnit := 0

  predicate EndsWithNul(m: Text) {
    |m| > 0 && m[|m| - 1] == NUL
  }

  /** What `write(m)` puts on the wire: `m`, then a terminator unless `m`
      already ends with one. */
  function Frame(m: Text): Text {
    if EndsWithNul(m) then m else m + [NUL]
  }

  /** The number of terminators at the end of `m`. */
  function TrailingNuls(m: Text): nat {
    if EndsWithNul(m) then 1 + TrailingNuls(m[..|m| - 1]) else 0
  }

  /** The text of several messages written one after another. */
  function FrameAll(ms: seq<Text>): Text {
    if ms == [] then [] else Frame(ms[0]) + FrameAll(ms[1..])
  }

  /** A framed message always ends in a terminator, keeps the message as its
      prefix, gains exactly one terminator when it had none and none when it
      had one: the terminator is never doubled, and framing twice is framing
      once. */
  lemma FrameAppendsOnlyWhenAbsent(m: Text)
    ensures EndsWithNul(Frame(m))
    ensures |Frame(m)| >= |m| && Frame(m)[..|m|] == m
    ensures Frame(m) == m <==> EndsWithNul(m)
    ensures !EndsWithNul(m) ==> Frame(m) == m + [NUL]
    ensures TrailingNuls(Frame(m)) == if TrailingNuls(m) == 0 then 1 else TrailingNuls(m)
    ensures Frame(Frame(m)) == Frame(m)
  {
    if !EndsWithNul(m) {
      assert (m + [NUL])[..|m|] == m;
    }
  }

  /** Writing a batch of messages puts the frames of the first part, then the
      frames of the rest, on the wire. */
  lemma {:induction false} FrameAllAppend(a: seq<Text>, b: seq<Text>)
    ensures FrameAll(a + b) == FrameAll(a) + FrameAll(b)
    decreases |a|
  {
    if a == [] {
      assert a + b == b;
    } else {
      assert (a + b)[0] == a[0];
      assert (a + b)[1..] == a[1..] + b;
      FrameAllAppend(a[1..], b);
    }
  }

  // ---------------------------------------------------------------------
  // State
  // ---------------------------------------------------------------------

  /** Events a TLS socket emits that the Jammer listens for. */
  datatype SocketEvent = SecureConnect | Connect | Error | Close | Drain

  /** The TLS socket: the messages it has been handed, in order, and whether
      its output is piped through the frame decoder (done once connected). */
  datatype Socket = Socket(sent: seq<Text>, piped: bool)

  /** Construction options: upstream endpoint and the session credentials. */
  datatype Options = Options(host: string, port: int, screenName: string, authToken: string)

  /** A Jammer: its options, its socket (`null` until a connect starts and
      after a failure or `destroy`), and whether its owner's `received`,
      `error` and `close` listeners are registered. */
  datatype Jammer = Jammer(options: Options, socket: Option<Socket>, listening: bool)

  /** Events the Jammer emits to its listeners. */
  datatype JammerEvent = Received(data: Chunk) | Failed | Closed

  /** Everything the socket has been handed, terminators included, as code
      units: the text `socket.write` encodes onto the wire. */
  function WireText(s: Socket): Text {
    FrameAll(s.sent)
  }

  predicate Piped(j: Jammer) {
    j.socket.Some? && j.socket.value.piped
  }

  /** A new Jammer: no socket, no listeners. */
  function New(options: Options): (j: Jammer)
    ensures j.socket.None? && !j.listening && j.options == options
  {
    Jammer(options, None, false)
  }

  /** Registration of the owner's `received`, `error` and `close` listeners. */
  function Listen(j: Jammer): Jammer {
    j.(listening := true)
  }

  /** `removeAllListeners`. */
  function RemoveAllListeners(j: Jammer): Jammer {
    j.(listening := false)
  }

  // ---------------------------------------------------------------------
  // Connecting
  // ---------------------------------------------------------------------

  /** The synchronous start of `connect`: `createConnection` opens a fresh
      socket and stores it, replacing (without destroying) any socket the
      Jammer already had. */
  function StartConnect(j: Jammer): (r: Jammer)
    ensures r.socket.Some? && r.socket.value.sent == [] && !r.socket.value.piped
    ensures r.options == j.options && r.listening == j.listening
  {
    j.(socket := Some(Socket([], false)))
  }

  predicate IsConnectEvent(e: SocketEvent) {
    e == SecureConnect || e == Connect
  }

  /** An event that settles the connect promise. */
  predicate Decisive(e: SocketEvent) {
    IsConnectEvent(e) || e == Error
  }

  datatype Settlement = Resolved | Rejected | Unsettled

  /** How the promise of `createConnection` settles given the socket's
      events in order: the first `secureConnect` or `connect` resolves it, an
      `error` before either rejects it, and nothing else settles it. */
  function Settle(evs: seq<SocketEvent>): Settlement {
    if |evs| == 0 then Unsettled
    else if IsConnectEvent(evs[0]) then Resolved
    else if evs[0] == Error then Rejected
    else Settle(evs[1..])
  }

  /** Index `i` holds the first event that settles the promise. */
  ghost predicate FirstDecisiveAt(evs: seq<SocketEvent>, i: int) {
    0 <= i < |evs| && Decisive(evs[i]) && forall k :: 0 <= k < i ==> !Decisive(evs[k])
  }

  /** The promise resolves exactly when the first settling event is a
      connect, rejects exactly when it is an error, and stays pending exactly
      when no settling event occurs. */
  lemma {:induction false} SettleFirstWins(evs: seq<SocketEvent>)
    ensures Settle(evs) == Unsettled <==> forall k :: 0 <= k < |evs| ==> !Decisive(evs[k])
    ensures Settle(evs) == Resolved <==> exists i :: FirstDecisiveAt(evs, i) && IsConnectEvent(evs[i])
    ensures Settle(evs) == Rejected <==> exists i :: FirstDecisiveAt(evs, i) && evs[i] == Error
    decreases |evs|
  {
    if |evs| == 0 {
    } else if Decisive(evs[0]) {
      assert FirstDecisiveAt(evs, 0);
    } else {
      var tail := evs[1..];
      SettleFirstWins(tail);
      forall i | 1 <= i <= |evs| ensures FirstDecisiveAt(evs, i) <==> FirstDecisiveAt(tail, i - 1) {
        if FirstDecisiveAt(tail, i - 1) {
          forall k | 0 <= k < i ensures !Decisive(evs[k]) {
            if k > 0 {
              assert evs[k] == tail[k - 1];
            }
          }
        }
      }
      if Settle(evs) == Resolved {
        var i :| FirstDecisiveAt(tail, i) && IsConnectEvent(tail[i]);
        assert FirstDecisiveAt(evs, i + 1);
      }
      if exists i :: FirstDecisiveAt(evs, i) && IsConnectEvent(evs[i]) {
        var i :| FirstDecisiveAt(evs, i) && IsConnectEvent(evs[i]);
        assert FirstDecisiveAt(tail, i - 1);
      }
      if Settle(evs) == Rejected {
        var i :| FirstDecisiveAt(tail, i) && tail[i] == Error;
        assert FirstDecisiveAt(evs, i + 1);
      }
      if exists i :: FirstDecisiveAt(evs, i) && evs[i] == Error {
        var i :| FirstDecisiveAt(evs, i) && evs[i] == Error;
        assert FirstDecisiveAt(tail, i - 1);
      }
      if Settle(evs) != Unsettled {
        var k :| 0 <= k < |tail| && Decisive(tail[k]);
        assert Decisive(evs[k + 1]);
      }
    }
  }

  /** A settled promise stays settled the same way, whatever happens later. */
  lemma {:induction false} SettleIsFinal(evs: seq<SocketEvent>, later: seq<SocketEvent>)
    requires Settle(evs) != Unsettled
    ensures Settle(evs + later) == Settle(evs)
    decreases |evs|
  {
    assert (evs + later)[0] == evs[0];
    if !Decisive(evs[0]) {
      assert (evs + later)[1..] == evs[1..] + later;
      SettleIsFinal(evs[1..], later);
    }
  }

  /** The one-shot listeners `createConnection` registers on the socket:
      `onConnect` for `secureConnect` and for `connect`, `onError` for `error`. */
  const ConnectListeners: multiset<SocketEvent> := multiset{SecureConnect, Connect, Error}

  /** The listeners left after event `e` fires. A one-shot listener is removed
      when it fires; `onError` also removes both `onConnect` registrations;
      `onConnect` removes the error listener only when `removesErrorListener`
      holds. */
  function FireConnectListener(ls: multiset<SocketEvent>, e: SocketEvent, removesErrorListener: bool): multiset<SocketEvent> {
    if e !in ls then ls
    else if IsConnectEvent(e) then
      ls - multiset{e} - (if removesErrorListener then multiset{Error} else multiset{})
    else if e == Error then
      ls - multiset{Error, SecureConnect, Connect}
    else ls
  }

  function ListenersAfter(ls: multiset<SocketEvent>, evs: seq<SocketEvent>, removesErrorListener: bool): multiset<SocketEvent>
    decreases |evs|
  {
    if |evs| == 0 then ls
    else ListenersAfter(FireConnectListener(ls, evs[0], removesErrorListener), evs[1..], removesErrorListener)
  }

  /** The connect listeners left on the socket, as written: `onConnect`
      calls `removeListener('error', reject)`, but `reject` was never
      registered (the error listener is `onError`), so nothing is removed. */
  function ConnectLeftoverAsWritten(evs: seq<SocketEvent>): multiset<SocketEvent> {
    ListenersAfter(ConnectListeners, evs, false)
  }

  /** The connect listeners left on the socket when `onConnect` removes
      `onError`, as evidently intended. */
  function ConnectLeftover(evs: seq<SocketEvent>): multiset<SocketEvent> {
    ListenersAfter(ConnectListeners, evs, true)
  }

  /** Firing listeners never adds one. */
  lemma {:induction false} ListenersOnlyShrink(ls: multiset<SocketEvent>, evs: seq<SocketEvent>, removesErrorListener: bool)
    ensures ListenersAfter(ls, evs, removesErrorListener) <= ls
    decreases |evs|
  {
    if |evs| != 0 {
      ListenersOnlyShrink(FireConnectListener(ls, evs[0], removesErrorListener), evs[1..], removesErrorListener);
    }
  }

  /** As written, no event but `error` removes the error listener. */
  lemma {:induction false} ErrorListenerKeptAsWritten(ls: multiset<SocketEvent>, evs: seq<SocketEvent>)
    requires forall k :: 0 <= k < |evs| ==> evs[k] != Error
    ensures ListenersAfter(ls, evs, false)[Error] == ls[Error]
    decreases |evs|
  {
    if |evs| != 0 {
      ErrorListenerKeptAsWritten(FireConnectListener(ls, evs[0], false), evs[1..]);
    }
  }

  /** As written, a connection that succeeds and never errors keeps
      `onError` registered on the socket for its whole life. */
  lemma ConnectLeaksErrorListener(evs: seq<SocketEvent>)
    requires Settle(evs) == Resolved
    requires forall k :: 0 <= k < |evs| ==> evs[k] != Error
    ensures Error in ConnectLeftoverAsWritten(evs)
  {
    ErrorListenerKeptAsWritten(ConnectListeners, evs);
  }

  /** The smallest instance: the socket emits `connect` and the error
      listener stays. */
  lemma ConnectLeaksErrorListenerExample()
    ensures Settle([Connect]) == Resolved
    ensures ConnectLeftoverAsWritten([Connect]) == multiset{SecureConnect, Error}
  {
    assert FireConnectListener(ConnectListeners, Connect, false) == multiset{SecureConnect, Error};
  }

  /** With the corrected `onConnect`, a resolved connect leaves no error
      listener behind, and a rejected one leaves no listener at all. */
  lemma {:induction false} ConnectLeavesNoErrorListener(evs: seq<SocketEvent>)
    ensures Settle(evs) == Resolved ==> Error !in ConnectLeftover(evs)
    ensures Settle(evs) == Rejected ==> ConnectLeftover(evs) == multiset{}
    decreases |evs|
  {
    if |evs| != 0 {
      var e := evs[0];
      var next := FireConnectListener(ConnectListeners, e, true);
      ListenersOnlyShrink(next, evs[1..], true);
      if IsConnectEvent(e) {
        assert Error !in next;
      } else if e == Error {
        assert next == multiset{};
      } else {
        assert next == ConnectListeners;
        ConnectLeavesNoErrorListener(evs[1..]);
      }
    }
  }

  /** What `connect` does once the socket has settled: the Jammer after it,
      the events it emitted, how it ended, and the connect listeners left on
      the socket. */
  datatype ConnectStep = ConnectStep(jammer: Jammer, emitted: seq<JammerEvent>, outcome: Settlement, leftover: multiset<SocketEvent>)

  /** A rejected connect leaves no connect listener, with `onConnect` as
      written or as corrected: the first settling event is an `error`, whose
      `onError` removes every listener left. */
  lemma {:induction false} RejectedConnectLeavesNoListener(evs: seq<SocketEvent>, removesErrorListener: bool)
    requires Settle(evs) == Rejected
    ensures ListenersAfter(ConnectListeners, evs, removesErrorListener) == multiset{}
    decreases |evs|
  {
    var next := FireConnectListener(ConnectListeners, evs[0], removesErrorListener);
    if evs[0] == Error {
      assert next == multiset{};
      ListenersOnlyShrink(next, evs[1..], removesErrorListener);
    } else {
      assert next == ConnectListeners;
      RejectedConnectLeavesNoListener(evs[1..], removesErrorListener);
    }
  }

  /** The rest of `connect` after `createConnection`. On resolution the
      socket's output is piped through the frame decoder; if the socket is
      already gone by then, piping throws and the failure path runs. On
      failure the socket is destroyed and dropped, `error` is emitted and the
      error is rethrown (`outcome == Rejected`). The listeners left on the
      socket are those of `onConnect` as written, so a connect that succeeds
      without an `error` keeps `onError`. */
  function FinishConnect(j: Jammer, evs: seq<SocketEvent>): (r: ConnectStep)
    ensures r.jammer.options == j.options && r.jammer.listening == j.listening
    ensures r.outcome == Resolved <==> Settle(evs) == Resolved && j.socket.Some?
    ensures r.outcome == Rejected <==> Settle(evs) == Rejected || (Settle(evs) == Resolved && j.socket.None?)
    ensures r.outcome == Resolved ==> r.emitted == [] && r.jammer.socket == Some(j.socket.value.(piped := true))
    ensures r.outcome == Rejected ==> r.emitted == [Failed] && r.jammer.socket.None?
    ensures r.outcome == Unsettled ==> r.emitted == [] && r.jammer == j
    ensures r.leftover <= ConnectListeners
    ensures Settle(evs) == Resolved && (forall k :: 0 <= k < |evs| ==> evs[k] != Error) ==> Error in r.leftover
    ensures Settle(evs) == Rejected ==> r.leftover == multiset{}
  {
    ListenersOnlyShrink(ConnectListeners, evs, false);
    assert Settle(evs) == Resolved && (forall k :: 0 <= k < |evs| ==> evs[k] != Error)
           ==> Error in ConnectLeftoverAsWritten(evs) by {
      if Settle(evs) == Resolved && (forall k :: 0 <= k < |evs| ==> evs[k] != Error) {
        ConnectLeaksErrorListener(evs);
      }
    }
    assert Settle(evs) == Rejected ==> ConnectLeftoverAsWritten(evs) == multiset{} by {
      if Settle(evs) == Rejected {
        RejectedConnectLeavesNoListener(evs, false);
      }
    }
    var leftover := ConnectLeftoverAsWritten(evs);
    var failed := ConnectStep(j.(socket := None), [Failed], Rejected, leftover);
    match Settle(evs)
    case Unsettled => ConnectStep(j, [], Unsettled, leftover)
    case Rejected => failed
    case Resolved =>
      match j.socket
      case None => failed
      case Some(s) => ConnectStep(j.(socket := Some(s.(piped := true))), [], Resolved, leftover)
  }

  // ---------------------------------------------------------------------
  // Writing
  // ---------------------------------------------------------------------

  /** The synchronous part of `write(m)`: the socket is handed `m` and, when
      `m` lacks one, a terminator. Without a socket, `this.socket!.once`
      throws inside the promise executor and nothing is written. */
  function Transmit(j: Jammer, m: Text): (r: Jammer)
    ensures r.options == j.options && r.listening == j.listening
    ensures j.socket.None? ==> r == j
    ensures j.socket.Some? ==> r.socket.Some? && r.socket.value.piped == j.socket.value.piped
    ensures j.socket.Some? ==> r.socket.value.sent == j.socket.value.sent + [m]
    ensures j.socket.Some? ==> WireText(r.socket.value) == WireText(j.socket.value) + Frame(m)
  {
    match j.socket
    case None => j
    case Some(s) =>
      FrameAllAppend(s.sent, [m]);
      j.(socket := Some(s.(sent := s.sent + [m])))
  }

  /** How a write's promise settles: `socket.write` reports the buffer
      writable, or not, and then `drain`, `error` or `close` comes first. */
  datatype WriteOutcome = Flushed | AfterDrain | ErrorBeforeDrain | CloseBeforeDrain

  datatype WriteError = NoSocket | SocketFailed | ClosedBeforeSent

  /** A settled write: the Jammer after it, the promise's result, and the
      listeners the write left on the socket. */
  datatype WriteStep = WriteStep(jammer: Jammer, result: Result<nat, WriteError>, leftover: multiset<SocketEvent>)

  /** The listeners a settled write leaves on the socket. It registers
      one-shot `error` and `close` listeners and, when the buffer is full, a
      one-shot `drain` listener; a one-shot listener goes when it fires, and
      every settlement path calls `cleanup`, which removes the `error` and
      `close` listeners. */
  function WriteListeners(o: WriteOutcome): (ls: multiset<SocketEvent>)
    ensures Error !in ls && Close !in ls
    ensures Drain in ls <==> o == ErrorBeforeDrain || o == CloseBeforeDrain
  {
    var registered := multiset{Error, Close};
    var cleanup := multiset{Error, Close};
    match o
    case Flushed => registered - cleanup
    case AfterDrain => registered + multiset{Drain} - multiset{Drain} - cleanup
    case ErrorBeforeDrain => registered + multiset{Drain} - multiset{Error} - cleanup
    case CloseBeforeDrain => registered + multiset{Drain} - multiset{Close} - cleanup
  }

  /** `write(m)` through to the settlement of its promise. */
  function Write(j: Jammer, m: Text, o: WriteOutcome): (r: WriteStep)
    ensures j.socket.None? ==> r.jammer == j && r.result == Err(NoSocket) && r.leftover == multiset{}
    ensures j.socket.Some? ==> r.jammer.socket.Some? && WireText(r.jammer.socket.value) == WireText(j.socket.value) + Frame(m)
    ensures j.socket.Some? ==> (r.result.Ok? <==> o == Flushed || o == AfterDrain)
    ensures r.result.Ok? ==> r.result.value == |m| && |Frame(m)| - r.result.value <= 1
    ensures o == ErrorBeforeDrain && j.socket.Some? ==> r.result == Err(SocketFailed)
    ensures o == CloseBeforeDrain && j.socket.Some? ==> r.result == Err(ClosedBeforeSent)
    ensures Error !in r.leftover && Close !in r.leftover
  {
    if j.socket.None? then WriteStep(j, Err(NoSocket), multiset{})
    else
      var result := match o
        case Flushed => Ok(|m|)
        case AfterDrain => Ok(|m|)
        case ErrorBeforeDrain => Err(SocketFailed)
        case CloseBeforeDrain => Err(ClosedBeforeSent);
      WriteStep(Transmit(j, m), result, WriteListeners(o))
  }

  // ---------------------------------------------------------------------
  // Receiving, failure and teardown
  // ---------------------------------------------------------------------

  /** `handleReceivedData` for each frame the decoder yields: one `received`
      event per frame, data unchanged, in stream order. Before the decoder is
      piped, and after the socket is dropped, nothing is emitted. */
  function Receive(j: Jammer, frames: seq<Chunk>): (evs: seq<JammerEvent>)
    ensures Piped(j) ==> |evs| == |frames|
    ensures Piped(j) ==> forall i :: 0 <= i < |frames| ==> evs[i] == Received(frames[i])
    ensures !Piped(j) ==> evs == []
    decreases |frames|
  {
    if !Piped(j) || frames == [] then []
    else [Received(frames[0])] + Receive(j, frames[1..])
  }

  /** An `error` on the piped stream is re-emitted as `error`. */
  function StreamError(j: Jammer): seq<JammerEvent> {
    if Piped(j) then [Failed] else []
  }

  /** A `close` on the piped stream is re-emitted as `close`. */
  function StreamClose(j: Jammer): seq<JammerEvent> {
    if Piped(j) then [Closed] else []
  }

  /** `destroy`: the socket is destroyed and dropped; without a socket it does
      nothing, so a second call changes nothing. */
  function Destroy(j: Jammer): (r: Jammer)
    ensures r.socket.None?
    ensures r.options == j.options && r.listening == j.listening
    ensures j.socket.None? ==> r == j
  {
    if j.socket.Some? then j.(socket := None) else j
  }

  lemma DestroyIdempotent(j: Jammer)
    ensures Destroy(Destroy(j)) == Destroy(j)
  {
  }
}
