/** The peer registry of `src/services/WebRTCService.js`: one connection per
    remote peer id, the local media stream and the single remote-track
    callback. Connections, streams, tracks and callbacks are opaque handles;
    what the service does to them is recorded as a list of effects. */
module PeerRegistry {
  import opened Wrappers

  /** A registered connection: its handle, whether the service's event
      callbacks are still attached, and the local tracks added to it. */
  datatype Connection = Connection(handle: nat, callbacksAttached: bool, tracks: seq<nat>)

  /** A local media stream and its tracks. */
  datatype Stream = Stream(handle: nat, tracks: seq<nat>)

  /** What the service does to the foreign objects. */
  datatype Effect =
    | DetachCallbacks(connection: nat)
    | CloseConnection(connection: nat)
    | StopTrack(track: nat)

  datatype Service = Service(peers: map<string, Connection>, localStream: Option<Stream>, onTrack: Option<nat>)

  /** The constructed service: no peers, no stream, no callback. */
  const Initial := Service(map[], None, None)

  /** `createPeerConnection`: a registered peer gets its existing connection
      back and nothing is added; otherwise the new connection (given) gets the
      service's callbacks and every local track, and is registered. */
  function CreatePeerConnection(s: Service, peerId: string, handle: nat): (r: (Connection, Service))
    ensures peerId in s.peers ==> r == (s.peers[peerId], s)
    ensures peerId !in s.peers ==>
      && r.0 == Connection(handle, true, if s.localStream.Some? then s.localStream.value.tracks else [])
      && r.1 == s.(peers := s.peers[peerId := r.0])
    ensures peerId in r.1.peers && r.1.peers[peerId] == r.0
    ensures forall p :: p in s.peers ==> p in r.1.peers && r.1.peers[p] == s.peers[p]
  {
    if peerId in s.peers then (s.peers[peerId], s)
    else
      var c := Connection(handle, true, if s.localStream.Some? then s.localStream.value.tracks else []);
      (c, s.(peers := s.peers[peerId := c]))
  }

  /** `getPeerConnection`: get or create. */
  function GetPeerConnection(s: Service, peerId: string, handle: nat): (r: (Connection, Service))
    ensures peerId in r.1.peers && r.1.peers[peerId] == r.0
    ensures r.1.peers.Keys == s.peers.Keys + {peerId}
    ensures forall p :: p in s.peers ==> r.1.peers[p] == s.peers[p]
    ensures r.1.localStream == s.localStream && r.1.onTrack == s.onTrack
  {
    if peerId !in s.peers then CreatePeerConnection(s, peerId, handle) else (s.peers[peerId], s)
  }

  /** Getting a connection twice creates it at most once: the second call
      returns the first call's connection and changes nothing. */
  lemma GetTwice(s: Service, peerId: string, h1: nat, h2: nat)
    ensures var (c, s1) := GetPeerConnection(s, peerId, h1);
      GetPeerConnection(s1, peerId, h2) == (c, s1)
  {
  }

  /** `closePeerConnection`: detaches the callbacks, then closes the
      connection and unregisters the peer; an unknown peer is a no-op. */
  function ClosePeerConnection(s: Service, peerId: string): (r: (Service, seq<Effect>))
    ensures peerId !in s.peers ==> r == (s, [])
    ensures peerId in s.peers ==>
      && r.0 == s.(peers := s.peers - {peerId})
      && r.1 == [DetachCallbacks(s.peers[peerId].handle), CloseConnection(s.peers[peerId].handle)]
    ensures peerId !in r.0.peers
  {
    if peerId in s.peers then
      var h := s.peers[peerId].handle;
      (s.(peers := s.peers - {peerId}), [DetachCallbacks(h), CloseConnection(h)])
    else (s, [])
  }

  /** Closing twice is the same as closing once, and does nothing more. */
  lemma CloseIdempotent(s: Service, peerId: string)
    ensures var (s1, _) := ClosePeerConnection(s, peerId);
      ClosePeerConnection(s1, peerId) == (s1, [])
  {
  }

  /** Every `CloseConnection` in a list of effects directly follows the
      detaching of the same connection's callbacks. */
  ghost predicate DetachedBeforeClose(effects: seq<Effect>)
  {
    forall i :: 0 <= i < |effects| && effects[i].CloseConnection? ==>
      0 < i && effects[i - 1] == DetachCallbacks(effects[i].connection)
  }

  /** `closeAllPeerConnections`: closes every registered peer in turn (the
      order of `Object.keys` is not modelled). */
  method CloseAllPeerConnections(s: Service) returns (r: Service, effects: seq<Effect>)
    ensures r.peers == map[] && r.localStream == s.localStream && r.onTrack == s.onTrack
    ensures forall p :: p in s.peers ==> CloseConnection(s.peers[p].handle) in effects
    ensures |effects| == 2 * |s.peers|
    ensures DetachedBeforeClose(effects)
  {
    r, effects := s, [];
    while r.peers != map[]
      invariant r.localStream == s.localStream && r.onTrack == s.onTrack
      invariant r.peers.Keys <= s.peers.Keys
      invariant forall p :: p in r.peers ==> r.peers[p] == s.peers[p]
      invariant forall p :: p in s.peers && p !in r.peers ==> CloseConnection(s.peers[p].handle) in effects
      invariant |effects| == 2 * (|s.peers| - |r.peers|)
      invariant DetachedBeforeClose(effects)
      decreases |r.peers|
    {
      var p :| p in r.peers;
      ghost var before := r;
      var (next, step) := ClosePeerConnection(r, p);
      r := next;
      assert r.peers.Keys == before.peers.Keys - {p};
      effects := effects + step;
    }
  }

  /** `stopLocalStream`: stops every track of the stream and forgets it; with
      no stream nothing happens. */
  function StopLocalStream(s: Service): (r: (Service, seq<Effect>))
    ensures r.0 == s.(localStream := None)
    ensures s.localStream.None? ==> r.1 == []
    ensures s.localStream.Some? ==>
      && |r.1| == |s.localStream.value.tracks|
      && forall i :: 0 <= i < |r.1| ==> r.1[i] == StopTrack(s.localStream.value.tracks[i])
  {
    match s.localStream
    case None => (s, [])
    case Some(stream) =>
      (s.(localStream := None), seq(|stream.tracks|, i requires 0 <= i < |stream.tracks| => StopTrack(stream.tracks[i])))
  }

  /** Stopping twice is the same as stopping once, and does nothing more. */
  lemma StopIdempotent(s: Service)
    ensures var (s1, _) := StopLocalStream(s);
      StopLocalStream(s1) == (s1, [])
  {
  }

  /** `onTrack`: replaces the stored callback. */
  function SetOnTrack(s: Service, callback: nat): (r: Service)
    ensures r.onTrack == Some(callback) && r.peers == s.peers && r.localStream == s.localStream
  {
    s.(onTrack := Some(callback))
  }

  /** A connection's `ontrack` event. The handler lives on the connection:
      it fires only for a registered connection whose callbacks are still
      attached, and then calls the stored callback, if any, once with the
      peer id and the first remote stream. */
  function DeliverTrack(s: Service, peerId: string, stream: nat): (r: seq<(nat, string, nat)>)
    ensures r != [] <==> peerId in s.peers && s.peers[peerId].callbacksAttached && s.onTrack.Some?
    ensures r != [] ==> r == [(s.onTrack.value, peerId, stream)]
  {
    if peerId in s.peers && s.peers[peerId].callbacksAttached && s.onTrack.Some? then
      [(s.onTrack.value, peerId, stream)]
    else []
  }

  /** Every registered connection still has the service's callbacks. */
  ghost predicate Attached(s: Service)
  {
    forall p :: p in s.peers ==> s.peers[p].callbacksAttached
  }

  /** Creating and closing connections keep every registered connection
      attached. */
  lemma AttachedKept(s: Service, peerId: string, handle: nat)
    requires Attached(s)
    ensures Attached(CreatePeerConnection(s, peerId, handle).1)
    ensures Attached(ClosePeerConnection(s, peerId).0)
  {
  }

  /** Once a peer's connection is created, a remote track on it reaches the
      stored callback. */
  lemma TrackAfterCreate(s: Service, peerId: string, handle: nat, stream: nat)
    requires Attached(s) && s.onTrack.Some?
    ensures DeliverTrack(CreatePeerConnection(s, peerId, handle).1, peerId, stream) == [(s.onTrack.value, peerId, stream)]
  {
  }

  /** After `closePeerConnection(peerId)` a track for that peer reaches
      nobody. */
  lemma NoTrackAfterClose(s: Service, peerId: string, stream: nat)
    ensures DeliverTrack(ClosePeerConnection(s, peerId).0, peerId, stream) == []
  {
  }

  /** Callbacks do not stack: after two registrations only the later one is
      called. */
  lemma OnTrackReplaces(s: Service, first: nat, second: nat, peerId: string, stream: nat)
    ensures DeliverTrack(SetOnTrack(SetOnTrack(s, first), second), peerId, stream)
         == DeliverTrack(SetOnTrack(s, second), peerId, stream)
    ensures Attached(s) && peerId in s.peers ==>
      DeliverTrack(SetOnTrack(SetOnTrack(s, first), second), peerId, stream) == [(second, peerId, stream)]
  {
  }
}
