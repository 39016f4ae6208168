/** The `ChatService` class of `src/services/ChatService.js`: a socket
    connection flag, the socket's id and a registry of event handlers. The
    socket is an opaque handle; the events it delivers are transitions of
    their own; handlers are opaque ids compared by identity (`!==`). */
module ChatClient {
  import opened Wrappers
  import Seqs

  /** An event handler, compared by identity. */
  type Handler = nat

  /** The client state: the socket (if created), whether the server has
      confirmed the connection, the id it gave, and the handlers per event. */
  datatype Client = Client(socket: Option<nat>, connected: bool, socketId: Option<string>, handlers: map<string, seq<Handler>>)

  /** The events the constructor prepares empty handler lists for. */
  const KnownEvents: seq<string> := ["chatMessage", "connected", "disconnected", "newUser", "userDisconnected", "userCount"]

  /** The freshly constructed client. */
  function Initial(): (c: Client)
    ensures c.socket.None? && !c.connected && c.socketId.None?
    ensures forall i :: 0 <= i < |KnownEvents| ==> KnownEvents[i] in c.handlers && c.handlers[KnownEvents[i]] == []
  {
    Client(None, false, None, map e | e in KnownEvents :: [])
  }

  // ---------------------------------------------------------------------------
  // Connection
  // ---------------------------------------------------------------------------

  /** `connect`: with a socket already present nothing happens; otherwise the
      new socket (given) is stored, still unconfirmed. */
  function Connect(c: Client, handle: nat): (r: Client)
    ensures c.socket.Some? ==> r == c
    ensures c.socket.None? ==> r == c.(socket := Some(handle))
  {
    if c.socket.Some? then c else c.(socket := Some(handle))
  }

  /** The socket's `connect` event: the connection is confirmed with the
      socket's id, and the `connected` handlers are told that id. */
  function OnConnect(c: Client, id: string): (r: (Client, seq<(Handler, Option<string>)>))
    ensures r.0 == c.(connected := true, socketId := Some(id))
    ensures r.1 == Notify(c.handlers, "connected", Some(id))
  {
    (c.(connected := true, socketId := Some(id)), Notify(c.handlers, "connected", Some(id)))
  }

  /** The socket's `disconnect` event: the connection is no longer confirmed
      (the socket and id stay), and the `disconnected` handlers are called. */
  function OnDisconnect(c: Client): (r: (Client, seq<(Handler, Option<string>)>))
    ensures r.0 == c.(connected := false)
    ensures r.1 == Notify(c.handlers, "disconnected", None)
  {
    (c.(connected := false), Notify(c.handlers, "disconnected", None))
  }

  /** `disconnect`: drops the socket, the flag and the id when there is a
      socket; otherwise nothing happens. */
  function Disconnect(c: Client): (r: Client)
    ensures c.socket.None? ==> r == c
    ensures c.socket.Some? ==> r.socket.None? && !r.connected && r.socketId.None? && r.handlers == c.handlers
  {
    if c.socket.Some? then c.(socket := None, connected := false, socketId := None) else c
  }

  /** After `disconnect`, messages cannot be sent until the next `connect`
      and the server's confirmation. */
  lemma DisconnectStopsSending(c: Client, message: string, emitThrows: bool)
    requires c.socket.Some?
    ensures !SendMessage(Disconnect(c), message, emitThrows).0
  {
  }

  /** `sendMessage`: refused (false, nothing emitted) unless confirmed and
      with a socket; otherwise one `chatMessage` emit carrying the message,
      whose success is the result (an emit that throws gives false). */
  function SendMessage(c: Client, message: string, emitThrows: bool): (r: (bool, seq<string>))
    ensures !c.connected || c.socket.None? ==> r == (false, [])
    ensures c.connected && c.socket.Some? ==> r.1 == [message] && (r.0 <==> !emitThrows)
  {
    if !c.connected || c.socket.None? then (false, []) else (!emitThrows, [message])
  }

  // ---------------------------------------------------------------------------
  // Handler registry
  // ---------------------------------------------------------------------------

  /** `on`: appends the handler to the event's list, creating the list if
      needed; other events are untouched. */
  function On(c: Client, event: string, h: Handler): (r: Client)
    ensures event in r.handlers
    ensures r.handlers[event] == (if event in c.handlers then c.handlers[event] else []) + [h]
    ensures r.handlers.Keys == c.handlers.Keys + {event}
    ensures forall e :: e in c.handlers && e != event ==> r.handlers[e] == c.handlers[e]
    ensures r.socket == c.socket && r.connected == c.connected && r.socketId == c.socketId
  {
    var list := if event in c.handlers then c.handlers[event] else [];
    c.(handlers := c.handlers[event := list + [h]])
  }

  /** `off`: removes every registration of the handler for the event, keeping
      the others in order; an event without a list is left alone. */
  function Off(c: Client, event: string, h: Handler): (r: Client)
    ensures event !in c.handlers ==> r == c
    ensures r.handlers.Keys == c.handlers.Keys
    ensures event in c.handlers ==>
      && h !in r.handlers[event]
      && r.handlers[event] == Seqs.Filter(c.handlers[event], x => x != h)
    ensures forall e :: e in c.handlers && e != event ==> r.handlers[e] == c.handlers[e]
    ensures r.socket == c.socket && r.connected == c.connected && r.socketId == c.socketId
  {
    if event !in c.handlers then c
    else
      var kept := Seqs.Filter(c.handlers[event], x => x != h);
      assert forall i :: 0 <= i < |kept| ==> kept[i] != h;
      c.(handlers := c.handlers[event := kept])
  }

  /** Registering a handler that was not registered for the event, then
      removing it, restores the registry. */
  lemma OnThenOff(c: Client, event: string, h: Handler)
    requires event in c.handlers && h !in c.handlers[event]
    ensures Off(On(c, event, h), event, h) == c
  {
    var list := c.handlers[event];
    var p := (x: Handler) => x != h;
    Seqs.FilterAppend(list, [h], p);
    Seqs.FilterKeepsAll(list, p);
    assert Seqs.Filter([h], p) == [];
    assert list + [] == list;
    assert Off(On(c, event, h), event, h).handlers == c.handlers;
  }

  /** `_notifyHandlers`: the calls made, in registration order, each with the
      payload. A handler that throws is caught and logged, so every handler is
      called whatever the others do; an event without a list calls nothing. */
  function Notify<D>(handlers: map<string, seq<Handler>>, event: string, data: D): (r: seq<(Handler, D)>)
    ensures event !in handlers ==> r == []
    ensures event in handlers ==>
      && |r| == |handlers[event]|
      && forall i :: 0 <= i < |r| ==> r[i] == (handlers[event][i], data)
  {
    if event !in handlers then []
    else seq(|handlers[event]|, i requires 0 <= i < |handlers[event]| => (handlers[event][i], data))
  }

  /** A handler registered with `on` is called last, after the handlers
      registered before it, on the next notification of its event. */
  lemma NotifyAfterOn<D>(c: Client, event: string, h: Handler, data: D)
    ensures var before := Notify(c.handlers, event, data);
      Notify(On(c, event, h).handlers, event, data) == before + [(h, data)]
  {
  }
}
