/** The browser side of the relay chat in `client.js`: the
    `peerConnections` and `dataChannels` objects kept by the socket handlers,
    the lines written to the chat pane, and `window.sendMessage`. Connections
    and data channels are opaque handles; what the client asks the relay to
    forward and what it does to the foreign objects are returned as outputs.
    The clock prefix of each chat line is left out. */
module SignalingClient {
  import opened Wrappers
  import opened Strings

  /** A data channel: its handle and its label (`name`). */
  datatype Channel = Channel(handle: nat, name: string)

  /** The client: the socket's id once connected, the id shown on the page,
      the connection and data channel per remote id, the chat pane's lines
      and the text in the message box. */
  datatype Client = Client(
    socketId: Option<string>,
    shownId: string,
    peers: map<string, nat>,
    channels: map<string, Channel>,
    chat: seq<string>,
    input: string)

  /** What the client asks the relay to forward. */
  datatype Signal =
    | ChatOut(message: string)
    | OfferTo(target: string)
    | AnswerTo(target: string)
    | CandidateTo(target: string)

  /** What the client does to the foreign connection and channel objects. */
  datatype Effect =
    | Close(connection: nat)
    | AcceptAnswer(connection: nat)
    | AddCandidate(connection: nat)
    | Send(channel: nat, data: string)

  /** The outcome of one event: the next state, the signals emitted in
      order, and the effects (whose order, where there are several, follows
      `Object.values` and is not modelled). */
  datatype Step = Step(next: Client, emits: seq<Signal>, effects: set<Effect>)

  /** The label of the channel an initiator opens. */
  const ChatLabel := "chat"

  const ReadyLine := "Chat initialized, connecting to server..."

  /** `initChat` once the page elements are found. */
  function Initial(): (c: Client)
    ensures c.peers == map[] && c.channels == map[] && c.chat == [ReadyLine]
  {
    Client(None, "", map[], map[], [ReadyLine], "")
  }

  /** `id.substring(0, 6)` followed by an ellipsis, as the lines show peers. */
  function Short(id: string): (r: string)
    ensures |r| == (if |id| < 6 then |id| else 6) + 3
    ensures StartsWith(id, r[..|r| - 3])
  {
    (if |id| < 6 then id else id[..6]) + "..."
  }

  /** Connections and channels are kept per remote id; every channel belongs
      to a remote id that also has a connection. */
  ghost predicate Tracked(c: Client)
  {
    c.channels.Keys <= c.peers.Keys
  }

  function Say(c: Client, line: string): (r: Client)
    ensures r.chat == c.chat + [line] && r.(chat := c.chat) == c
  {
    c.(chat := c.chat + [line])
  }

  // ---------------------------------------------------------------------------
  // Socket events
  // ---------------------------------------------------------------------------

  /** `connect`: the socket's id is known and shown. */
  function OnConnect(c: Client, id: string): (r: Step)
    ensures r.next == c.(socketId := Some(id), shownId := id)
    ensures r.emits == [] && r.effects == {}
  {
    Step(c.(socketId := Some(id), shownId := id), [], {})
  }

  /** `connected`: the relay's id is shown, with the relay's greeting or
      "Success" when it sent none (`data.message || 'Success'`). */
  function OnConnected(c: Client, id: string, message: Option<string>): (r: Step)
    ensures r.next.shownId == id && r.next.peers == c.peers && r.next.channels == c.channels
    ensures |r.next.chat| == |c.chat| + 1
    ensures message.Some? && message.value != "" ==> r.next.chat[|c.chat|] == "Connected to server: " + message.value
    ensures message.None? || message.value == "" ==> r.next.chat[|c.chat|] == "Connected to server: Success"
    ensures r.emits == [] && r.effects == {}
  {
    var greeting := if message.Some? && message.value != "" then message.value else "Success";
    Step(Say(c.(shownId := id), "Connected to server: " + greeting), [], {})
  }

  /** `newUser` and `initiatePeerConnection`: a new connection (given) is
      registered for the id as initiator, which opens a channel labelled
      "chat" (given) and keeps it for the id. Once the offer has been
      created the relay is asked to forward it. */
  function OnNewUser(c: Client, id: string, connection: nat, channel: nat, offerCreated: bool): (r: Step)
    ensures r.next.peers == c.peers[id := connection]
    ensures r.next.channels == c.channels[id := Channel(channel, ChatLabel)]
    ensures r.emits == (if offerCreated then [OfferTo(id)] else [])
    ensures r.effects == {}
    ensures r.next.chat == c.chat + ["New user connected: " + id]
                           + (if offerCreated then ["Initiated connection with " + Short(id)] else [])
  {
    var withLine := Say(c, "New user connected: " + id);
    var registered := withLine.(peers := c.peers[id := connection], channels := c.channels[id := Channel(channel, ChatLabel)]);
    if offerCreated then
      Step(Say(registered, "Initiated connection with " + Short(id)), [OfferTo(id)], {})
    else
      Step(registered, [], {})
  }

  /** `userDisconnected`: with a connection for the id, it is closed and the
      id's connection and channel entries are both dropped; otherwise only
      the line is written. */
  function OnUserDisconnected(c: Client, id: string): (r: Step)
    ensures id in c.peers ==>
      && r.next.peers == c.peers - {id}
      && r.next.channels == c.channels - {id}
      && r.effects == {Close(c.peers[id])}
    ensures id !in c.peers ==> r.next.peers == c.peers && r.next.channels == c.channels && r.effects == {}
    ensures r.next.chat == c.chat + ["User disconnected: " + id]
    ensures r.emits == []
  {
    var withLine := Say(c, "User disconnected: " + id);
    if id in c.peers then
      Step(withLine.(peers := c.peers - {id}, channels := c.channels - {id}), [], {Close(c.peers[id])})
    else
      Step(withLine, [], {})
  }

  /** `chatMessage` from the relay: shown unless it carries this client's own
      socket id, since the sender already showed it when sending. */
  function OnChatMessage(c: Client, id: string, message: string): (r: Step)
    ensures c.socketId == Some(id) ==> r.next == c
    ensures c.socketId != Some(id) ==> r.next == Say(c, Short(id) + ": " + message)
    ensures r.emits == [] && r.effects == {}
  {
    if c.socketId == Some(id) then Step(c, [], {})
    else Step(Say(c, Short(id) + ": " + message), [], {})
  }

  /** `userCount`: the number is shown. */
  function OnUserCount(c: Client, count: nat): (r: Step)
    ensures r.next == Say(c, "Users online: " + NatToString(count))
    ensures r.emits == [] && r.effects == {}
  {
    Step(Say(c, "Users online: " + NatToString(count)), [], {})
  }

  // ---------------------------------------------------------------------------
  // Signaling
  // ---------------------------------------------------------------------------

  /** `offer`: a fresh non-initiator connection (given) replaces whatever
      was registered for the sender, and no channel is opened. When creating
      the answer succeeds it goes back to the sender; when it fails (with the
      given message) the failure is shown and the registration stays. */
  function OnOffer(c: Client, from: string, connection: nat, failure: Option<string>): (r: Step)
    ensures r.next.peers == c.peers[from := connection]
    ensures r.next.channels == c.channels
    ensures failure.None? ==> r.emits == [AnswerTo(from)] && r.next.chat == c.chat + ["Answered call from " + Short(from)]
    ensures failure.Some? ==> r.emits == [] && r.next.chat == c.chat + ["Failed to answer call: " + failure.value]
    ensures r.effects == {}
  {
    var registered := c.(peers := c.peers[from := connection]);
    match failure
    case None => Step(Say(registered, "Answered call from " + Short(from)), [AnswerTo(from)], {})
    case Some(message) => Step(Say(registered, "Failed to answer call: " + message), [], {})
  }

  /** `answer`: applied to the sender's connection when there is one;
      otherwise ignored altogether. */
  function OnAnswer(c: Client, from: string): (r: Step)
    ensures from !in c.peers ==> r == Step(c, [], {})
    ensures from in c.peers ==>
      && r.next == Say(c, "Connection established with " + Short(from))
      && r.effects == {AcceptAnswer(c.peers[from])} && r.emits == []
  {
    if from in c.peers then
      Step(Say(c, "Connection established with " + Short(from)), [], {AcceptAnswer(c.peers[from])})
    else Step(c, [], {})
  }

  /** `candidate`: added to the sender's connection when there is one;
      otherwise ignored altogether. */
  function OnCandidate(c: Client, from: string): (r: Step)
    ensures from !in c.peers ==> r == Step(c, [], {})
    ensures from in c.peers ==> r == Step(c, [], {AddCandidate(c.peers[from])})
  {
    if from in c.peers then Step(c, [], {AddCandidate(c.peers[from])}) else Step(c, [], {})
  }

  /** A connection's `icecandidate` event: a real candidate goes to the
      connection's remote id through the relay; the end-of-candidates event
      sends nothing. */
  function OnIceCandidate(c: Client, remoteId: string, hasCandidate: bool): (r: Step)
    ensures r.next == c && r.effects == {}
    ensures r.emits == (if hasCandidate then [CandidateTo(remoteId)] else [])
  {
    Step(c, if hasCandidate then [CandidateTo(remoteId)] else [], {})
  }

  /** A connection's `datachannel` event, through `setupDataChannel`: the
      channel becomes the remote id's channel, replacing any earlier one. */
  function OnDataChannel(c: Client, remoteId: string, channel: Channel): (r: Step)
    ensures r.next == c.(channels := c.channels[remoteId := channel])
    ensures r.emits == [] && r.effects == {}
  {
    Step(c.(channels := c.channels[remoteId := channel]), [], {})
  }

  /** At most one channel per remote id: the later of two wins. */
  lemma LatestChannelWins(c: Client, remoteId: string, first: Channel, second: Channel)
    ensures var r := OnDataChannel(OnDataChannel(c, remoteId, first).next, remoteId, second).next;
      remoteId in r.channels && r.channels[remoteId] == second
      && forall id :: id in r.channels && id != remoteId ==> id in c.channels && r.channels[id] == c.channels[id]
  {
  }

  // ---------------------------------------------------------------------------
  // Sending
  // ---------------------------------------------------------------------------

  /** The sends `sendMessage` makes: one per kept channel whose handle is
      among those whose `readyState` is "open" at that moment. */
  function SendsTo(channels: map<string, Channel>, open: set<nat>, message: string): (r: set<Effect>)
    ensures forall e :: e in r <==> exists id :: id in channels && channels[id].handle in open && e == Send(channels[id].handle, message)
  {
    set id | id in channels && channels[id].handle in open :: Send(channels[id].handle, message)
  }

  /** `window.sendMessage`: a box holding only whitespace changes nothing
      (and is not cleared). Otherwise the trimmed text is shown, emitted to
      the relay exactly once, sent on every open channel, and the box is
      cleared. */
  function SendMessage(c: Client, open: set<nat>): (r: Step)
    ensures Trim(c.input) == [] ==> r == Step(c, [], {})
    ensures Trim(c.input) != [] ==>
      && r.emits == [ChatOut(Trim(c.input))]
      && r.next == c.(chat := c.chat + ["Du: " + Trim(c.input)], input := [])
      && (forall e :: e in r.effects ==> e.Send? && e.data == Trim(c.input) && e.channel in open)
      && (forall id :: id in c.channels && c.channels[id].handle in open ==> Send(c.channels[id].handle, Trim(c.input)) in r.effects)
  {
    var message := Trim(c.input);
    if message == [] then Step(c, [], {})
    else Step(c.(chat := c.chat + ["Du: " + message], input := []), [ChatOut(message)], SendsTo(c.channels, open, message))
  }

  /** Typing into the message box. */
  function Type(c: Client, text: string): (r: Client)
    ensures r == c.(input := text)
  {
    c.(input := text)
  }

  // ---------------------------------------------------------------------------
  // The bookkeeping invariant
  // ---------------------------------------------------------------------------

  /** Every socket event keeps channels paired with connections; a
      `datachannel` event comes from a live connection, so from a registered
      remote id. */
  lemma TrackedPreserved(c: Client, id: string, connection: nat, channel: Channel, message: string,
                         offerCreated: bool, failure: Option<string>, open: set<nat>, count: nat, hasCandidate: bool)
    requires Tracked(c)
    ensures Tracked(Initial())
    ensures Tracked(OnConnect(c, id).next) && Tracked(OnConnected(c, id, Some(message)).next)
    ensures Tracked(OnNewUser(c, id, connection, channel.handle, offerCreated).next)
    ensures Tracked(OnUserDisconnected(c, id).next)
    ensures Tracked(OnChatMessage(c, id, message).next) && Tracked(OnUserCount(c, count).next)
    ensures Tracked(OnOffer(c, id, connection, failure).next)
    ensures Tracked(OnAnswer(c, id).next) && Tracked(OnCandidate(c, id).next)
    ensures Tracked(OnIceCandidate(c, id, hasCandidate).next)
    ensures id in c.peers ==> Tracked(OnDataChannel(c, id, channel).next)
    ensures Tracked(SendMessage(c, open).next) && Tracked(Type(c, message))
  {
  }

  /** After a peer leaves, neither a connection nor a channel is kept for it,
      and a later answer or candidate from that id is ignored. */
  lemma DisconnectForgetsPeer(c: Client, id: string)
    requires Tracked(c)
    ensures var d := OnUserDisconnected(c, id).next;
      id !in d.peers && id !in d.channels
      && OnAnswer(d, id) == Step(d, [], {}) && OnCandidate(d, id) == Step(d, [], {})
  {
  }
}
