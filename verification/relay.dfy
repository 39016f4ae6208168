/** The signaling relay of `server.js` as a state machine: the connection
    counter, the set of connected socket ids, and, for each event, the
    messages it sends in order, each to a set of socket ids. Socket ids,
    session descriptions and candidates are opaque; the clock is a
    parameter. */
module Relay {

  /** The three signals the relay forwards to a single target. */
  datatype SignalKind = Offer | Answer | Candidate

  /** The events the relay sends. */
  datatype Event =
    | UserCount(count: int)
    | Connected(id: string, message: string)
    | NewUser(id: string, timestamp: string)
    | ChatMessage(id: string, message: string, timestamp: string)
    | Signal(kind: SignalKind, payload: string, from: string)
    | UserDisconnected(id: string, timestamp: string)

  /** One emit: the event and the sockets it reaches. */
  datatype Delivery = Delivery(to: set<string>, event: Event)

  /** `connectedUsers` and the sockets currently connected. */
  datatype Relay = Relay(count: int, connections: set<string>)

  const Initial := Relay(0, {})

  const Greeting := "Erfolgreich mit dem Server verbunden"

  /** The counter matches the connected sockets. */
  ghost predicate Counted(r: Relay)
  {
    r.count == |r.connections|
  }

  /** Every message of a step goes to sockets connected after it. */
  ghost predicate ToConnected(r: Relay, out: seq<Delivery>)
  {
    forall i :: 0 <= i < |out| ==> out[i].to <= r.connections
  }

  /** `connection`: the counter goes up and everyone, the newcomer included,
      is told the new count; the newcomer is told its own id; everyone else
      is told about the newcomer. */
  function Connect(r: Relay, id: string, now: string): (res: (Relay, seq<Delivery>))
    ensures res.0 == Relay(r.count + 1, r.connections + {id})
    ensures res.1 == [
      Delivery(r.connections + {id}, UserCount(r.count + 1)),
      Delivery({id}, Connected(id, Greeting)),
      Delivery(r.connections - {id}, NewUser(id, now))]
    ensures id !in res.1[2].to && res.1[2].to + {id} == res.0.connections
    ensures ToConnected(res.0, res.1)
  {
    var next := Relay(r.count + 1, r.connections + {id});
    assert next.connections - {id} == r.connections - {id};
    assert (next.connections - {id}) + {id} == next.connections;
    (next, [
      Delivery(next.connections, UserCount(next.count)),
      Delivery({id}, Connected(id, Greeting)),
      Delivery(next.connections - {id}, NewUser(id, now))])
  }

  /** `chatMessage`: the text goes to every connected socket, the sender
      included, stamped with the sender's id. */
  function Chat(r: Relay, sender: string, message: string, now: string): (res: (Relay, seq<Delivery>))
    ensures res.0 == r
    ensures res.1 == [Delivery(r.connections, ChatMessage(sender, message, now))]
    ensures sender in r.connections ==> sender in res.1[0].to
  {
    (r, [Delivery(r.connections, ChatMessage(sender, message, now))])
  }

  /** `offer`, `answer` and `candidate`: `socket.to(target)` reaches the
      target's own room, so the payload goes unchanged to the target alone,
      with `from` set to the sender by the relay; a target that is not
      connected, or the sender itself (`to` leaves the sender out), gets
      nothing. */
  function Forward(r: Relay, sender: string, kind: SignalKind, target: string, payload: string): (res: (Relay, seq<Delivery>))
    ensures res.0 == r && |res.1| == 1
    ensures res.1[0].event == Signal(kind, payload, sender)
    ensures forall s :: s in res.1[0].to <==> s == target && s in r.connections && s != sender
  {
    (r, [Delivery(if target in r.connections && target != sender then {target} else {}, Signal(kind, payload, sender))])
  }

  /** `disconnect`: the counter goes down and every remaining socket is told
      who left, then the new count. */
  function Disconnect(r: Relay, id: string, now: string): (res: (Relay, seq<Delivery>))
    ensures res.0 == Relay(r.count - 1, r.connections - {id})
    ensures res.1 == [
      Delivery(r.connections - {id}, UserDisconnected(id, now)),
      Delivery(r.connections - {id}, UserCount(r.count - 1))]
    ensures ToConnected(res.0, res.1)
  {
    var next := Relay(r.count - 1, r.connections - {id});
    (next, [Delivery(next.connections, UserDisconnected(id, now)), Delivery(next.connections, UserCount(next.count))])
  }

  /** With fresh socket ids, and disconnects only of connected sockets, the
      counter is always the number of connected sockets, so it never goes
      negative. */
  lemma CounterTracksConnections(r: Relay, id: string, now: string)
    requires Counted(r)
    ensures Counted(Initial)
    ensures id !in r.connections ==> Counted(Connect(r, id, now).0)
    ensures id in r.connections ==> Counted(Disconnect(r, id, now).0)
    ensures r.count >= 0
  {
  }

  /** The count each broadcast carries is the number of sockets it reaches. */
  lemma CountBroadcastReachesEveryone(r: Relay, id: string, now: string)
    requires Counted(r)
    ensures id !in r.connections ==>
      var (next, out) := Connect(r, id, now);
      out[0].event == UserCount(|out[0].to|) && out[0].to == next.connections
    ensures id in r.connections ==>
      var (next, out) := Disconnect(r, id, now);
      out[1].event == UserCount(|out[1].to|) && out[1].to == next.connections
  {
  }

  /** A connection followed by its disconnection leaves the relay as it was,
      and the departure reaches exactly the sockets that were told of the
      arrival. */
  lemma ConnectThenDisconnect(r: Relay, id: string, t1: string, t2: string)
    requires id !in r.connections
    ensures var (mid, arrived) := Connect(r, id, t1);
      var (after, left) := Disconnect(mid, id, t2);
      after == r && left[0].to == arrived[2].to
  {
    var (mid, _) := Connect(r, id, t1);
    assert mid.connections - {id} == r.connections;
  }
}
