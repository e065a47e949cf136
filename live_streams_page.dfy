/** The viewer page: it keeps one entry per streamer it follows, asks every
    streamer it learns of for its stream, answers the streamer's offer and
    drops the entry when the streamer leaves. */
module LiveStreamsPage {
  import opened Common
  import opened Signaling
  import opened Browser

  /** A registry entry: a copy of the session's state taken when it was filed. */
  datatype StreamInfo = StreamInfo(
    streamerId: Id, isConnected: bool, peerConnection: PeerConnection?,
    stream: MediaStream?, lastSeen: int)

  /** The `streamInfo` object that `requestStreamFromStreamer` creates and its
      connection's callbacks keep updating. */
  class StreamSession {
    const streamerId: Id
    var isConnected: bool
    const peerConnection: PeerConnection?
    var stream: MediaStream?
    const lastSeen: int

    constructor (streamerId: Id, pc: PeerConnection, lastSeen: int)
      ensures this.streamerId == streamerId && peerConnection == pc && this.lastSeen == lastSeen
      ensures !isConnected && stream == null
    {
      this.streamerId, peerConnection, this.lastSeen := streamerId, pc, lastSeen;
      isConnected, stream := false, null;
    }

    /** `{ ...streamInfo }`. */
    function Snapshot(): (info: StreamInfo)
      reads this
      ensures info.streamerId == streamerId && info.peerConnection == peerConnection
      ensures info.isConnected == isConnected && info.stream == stream && info.lastSeen == lastSeen
    {
      StreamInfo(streamerId, isConnected, peerConnection, stream, lastSeen)
    }
  }

  /** The streamers among `ids` that a page knowing `known` requests, in the
      order of their first occurrence. */
  function NewIds(known: set<Id>, ids: seq<Id>): (r: seq<Id>)
    ensures forall x :: x in r <==> x in ids && x !in known
    ensures forall a, b :: 0 <= a < b < |r| ==> r[a] != r[b]
    decreases |ids|
  {
    if ids == [] then []
    else
      var init, x := ids[..|ids| - 1], ids[|ids| - 1];
      assert ids == init + [x];
      var r0 := NewIds(known, init);
      if x in known || x in init then r0 else r0 + [x]
  }

  /** Every streamer of a list without repeats that the page does not know is
      requested, in list order. */
  lemma {:induction false} NewIdsOfFreshList(known: set<Id>, ids: seq<Id>)
    requires forall a, b :: 0 <= a < b < |ids| ==> ids[a] != ids[b]
    requires forall x :: x in ids ==> x !in known
    ensures NewIds(known, ids) == ids
    decreases |ids|
  {
    if ids != [] {
      var init := ids[..|ids| - 1];
      assert ids == init + [ids[|ids| - 1]];
      NewIdsOfFreshList(known, init);
    }
  }

  /** A second list of the same streamers requests nothing more. */
  lemma {:induction false} NewIdsOfKnown(known: set<Id>, ids: seq<Id>)
    requires forall x :: x in ids ==> x in known
    ensures NewIds(known, ids) == []
    decreases |ids|
  {
    if ids != [] {
      NewIdsOfKnown(known, ids[..|ids| - 1]);
    }
  }

  /** The `request_stream` messages for `ids`, in order. */
  function Requests(ids: seq<Id>): (ms: seq<ToServer>)
    ensures |ms| == |ids|
    ensures forall k :: 0 <= k < |ids| ==> ms[k] == ToServer.RequestStream(Some(ids[k]))
    decreases |ids|
  {
    if ids == [] then [] else Requests(ids[..|ids| - 1]) + [ToServer.RequestStream(Some(ids[|ids| - 1]))]
  }

  /** The streamers a list names. */
  function Elements(ids: seq<Id>): (r: set<Id>)
    ensures forall x :: x in r <==> x in ids
  {
    set x | x in ids
  }

  lemma ElementsSnoc(ids: seq<Id>, x: Id)
    ensures Elements(ids + [x]) == Elements(ids) + {x}
  {
  }

  lemma NewIdsSnoc(known: set<Id>, ids: seq<Id>, x: Id)
    ensures NewIds(known, ids + [x]) ==
      if x in known || x in ids then NewIds(known, ids) else NewIds(known, ids) + [x]
  {
    assert (ids + [x])[..|ids|] == ids;
  }

  lemma RequestsSnoc(ids: seq<Id>, x: Id)
    ensures Requests(ids + [x]) == Requests(ids) + [ToServer.RequestStream(Some(x))]
  {
    assert (ids + [x])[..|ids|] == ids;
  }

  /** One streamer of an `active_streamers` list handled: its request is sent
      exactly when it was not known yet. */
  lemma SentStep(known: set<Id>, done: seq<Id>, x: Id, wasKnown: bool,
                 log0: seq<ToServer>, before: seq<ToServer>, after: seq<ToServer>)
    requires wasKnown <==> x in known || x in done
    requires before == log0 + Requests(NewIds(known, done))
    requires after == before + (if wasKnown then [] else [ToServer.RequestStream(Some(x))])
    ensures after == log0 + Requests(NewIds(known, done + [x]))
  {
    var r := NewIds(known, done);
    NewIdsSnoc(known, done, x);
    if wasKnown {
      assert NewIds(known, done + [x]) == r;
    } else {
      RequestsSnoc(r, x);
      assert after == log0 + Requests(r) + [ToServer.RequestStream(Some(x))];
    }
  }

  /** What `requestStreamFromStreamer` files for a streamer at time `now`:
      a connection, not connected yet, and no stream. */
  predicate NewEntry(info: StreamInfo, now: int)
  {
    info.peerConnection != null && !info.isConnected && info.stream == null && info.lastSeen == now
  }

  /** After the first streamers `done` of an `active_streamers` list, from
      the registry `s0`: exactly the listed ones were added (when the socket
      is open), each as a new entry at `now`, and the entries of `s0` are kept. */
  ghost predicate KeysTracked(streams: map<Id, StreamInfo>, s0: map<Id, StreamInfo>, open: bool, done: seq<Id>, now: int)
  {
    && streams.Keys == s0.Keys + (if open then Elements(done) else {})
    && (forall s :: s in s0 ==> streams[s] == s0[s])
    && (forall s :: s in streams && s !in s0 ==> NewEntry(streams[s], now))
  }

  /** ... and, from the sent log `log0`, one request per new streamer was sent. */
  ghost predicate SentTracked(sent: seq<ToServer>, hasSocket: bool, s0: map<Id, StreamInfo>, log0: seq<ToServer>, open: bool, done: seq<Id>)
  {
    hasSocket ==> sent == log0 + (if open then Requests(NewIds(s0.Keys, done)) else [])
  }

  /** Handling one more streamer the way `new_streamer` does keeps the registry tracked. */
  lemma KeysStep(s0: map<Id, StreamInfo>, open: bool, done: seq<Id>, x: Id, now: int,
                 before: map<Id, StreamInfo>, after: map<Id, StreamInfo>)
    requires KeysTracked(before, s0, open, done, now)
    requires after.Keys == before.Keys + (if open then {x} else {})
    requires forall s :: s in before ==> after[s] == before[s]
    requires open && x !in before ==> NewEntry(after[x], now)
    ensures KeysTracked(after, s0, open, done + [x], now)
  {
    assert forall s :: s in s0 ==> after[s] == s0[s] by {
      forall s | s in s0 ensures after[s] == s0[s] {
        assert s in before;
      }
    }
    assert forall s :: s in after && s !in s0 ==> NewEntry(after[s], now) by {
      forall s | s in after && s !in s0 ensures NewEntry(after[s], now) {
        if s in before {
          assert after[s] == before[s];
        }
      }
    }
    ElementsSnoc(done, x);
  }

  /** ... and keeps the sent log tracked. */
  lemma SentLogStep(s0: map<Id, StreamInfo>, log0: seq<ToServer>, open: bool, done: seq<Id>, x: Id, now: int, hasSocket: bool,
                    before: map<Id, StreamInfo>, sentBefore: seq<ToServer>, sentAfter: seq<ToServer>)
    requires KeysTracked(before, s0, open, done, now)
    requires SentTracked(sentBefore, hasSocket, s0, log0, open, done)
    requires open ==> hasSocket
    requires hasSocket ==>
      sentAfter == sentBefore + (if open && x !in before then [ToServer.RequestStream(Some(x))] else [])
    ensures SentTracked(sentAfter, hasSocket, s0, log0, open, done + [x])
  {
    if open {
      assert x in before <==> x in s0.Keys || x in done;
      SentStep(s0.Keys, done, x, x in before, log0, sentBefore, sentAfter);
    }
  }

  class LiveStreamsPage {
    const viewerId: Id
    var streams: map<Id, StreamInfo>
    var isConnected: bool
    var connectionStatus: string
    var ws: Socket?
    /** Reconnect attempts scheduled by socket closes and not yet run. */
    var pendingReconnects: nat

    /** Each entry is filed under its own streamer id. */
    ghost predicate Valid()
      reads this
    {
      forall s :: s in streams ==> streams[s].streamerId == s
    }

    /** The connections of the registry. */
    function Connections(): set<PeerConnection>
      reads this
    {
      set s | s in streams && streams[s].peerConnection != null :: streams[s].peerConnection
    }

    constructor (viewerId: Id)
      ensures Valid()
      ensures this.viewerId == viewerId && streams == map[] && ws == null
      ensures !isConnected && connectionStatus == "Connecting..." && pendingReconnects == 0
    {
      this.viewerId := viewerId;
      streams, ws := map[], null;
      isConnected, connectionStatus, pendingReconnects := false, "Connecting...", 0;
    }

    /** `connectToSignalingServer`: a new socket at `/video/ws/{viewerId}/viewer`. */
    method ConnectToSignalingServer()
      modifies this`ws
      ensures fresh(ws) && ws.state == Connecting && ws.sent == []
    {
      ws := new Socket();
    }

    method OnSocketOpen()
      modifies this`isConnected, this`connectionStatus
      ensures isConnected && connectionStatus == "Connected"
    {
      isConnected, connectionStatus := true, "Connected";
    }

    /** `ws.onclose`: every close, whatever its `code`, marks the page
        disconnected and schedules exactly one more reconnect. */
    method OnSocketClose(code: int)
      modifies this`isConnected, this`connectionStatus, this`pendingReconnects
      ensures !isConnected && connectionStatus == "Disconnected"
      ensures pendingReconnects == old(pendingReconnects) + 1
    {
      isConnected, connectionStatus := false, "Disconnected";
      pendingReconnects := pendingReconnects + 1;
    }

    method OnSocketError()
      modifies this`connectionStatus
      ensures connectionStatus == "Connection Error"
    {
      connectionStatus := "Connection Error";
    }

    /** A scheduled reconnect runs: one fewer pending, and a new socket. */
    method OnReconnectTimer()
      requires pendingReconnects > 0
      modifies this`ws, this`pendingReconnects
      ensures pendingReconnects == old(pendingReconnects) - 1
      ensures fresh(ws) && ws.state == Connecting && ws.sent == []
    {
      pendingReconnects := pendingReconnects - 1;
      ConnectToSignalingServer();
    }

    /** `requestStreamFromStreamer`: only on an open socket. Files a fresh,
        not yet connected session with a new connection under `streamerId`
        and sends `request_stream` for it; `now` is its `lastSeen`. */
    method RequestStreamFromStreamer(streamerId: Id, now: int) returns (session: StreamSession?)
      requires Valid()
      modifies this`streams, ws
      ensures Valid()
      ensures ws == old(ws) && (ws != null ==> ws.state == old(ws.state))
      ensures (ws == null || ws.state != Open) ==>
        session == null && streams == old(streams) && (ws != null ==> ws.sent == old(ws.sent))
      ensures ws != null && ws.state == Open ==>
        session != null && fresh(session) && fresh(session.peerConnection) &&
        session.streamerId == streamerId && session.lastSeen == now &&
        !session.isConnected && session.stream == null &&
        streams == old(streams)[streamerId := StreamInfo(streamerId, false, session.peerConnection, null, now)] &&
        ws.sent == old(ws.sent) + [ToServer.RequestStream(Some(streamerId))]
    {
      if ws == null || ws.state != Open {
        return null;
      }
      var pc := new PeerConnection();
      session := new StreamSession(streamerId, pc, now);
      streams := streams[streamerId := session.Snapshot()];
      var _ := ws.Send(ToServer.RequestStream(Some(streamerId)));
    }

    /** After the first streamers `done` of an `active_streamers` list, from
        the registry `s0` and the sent log `log0`: see `KeysTracked` and `SentTracked`. */
    ghost predicate Progress(s0: map<Id, StreamInfo>, log0: seq<ToServer>, open: bool, done: seq<Id>, now: int)
      reads this, ws
    {
      && Valid()
      && KeysTracked(streams, s0, open, done, now)
      && SentTracked(if ws == null then [] else ws.sent, ws != null, s0, log0, open, done)
    }

    /** One step of the `active_streamers` loop. */
    method RequestEach(streamerId: Id, now: int, ghost s0: map<Id, StreamInfo>, ghost log0: seq<ToServer>, ghost open: bool, ghost done: seq<Id>)
      requires Progress(s0, log0, open, done, now)
      requires open <==> ws != null && ws.state == Open
      modifies this`streams, ws
      ensures Progress(s0, log0, open, done + [streamerId], now)
      ensures ws == old(ws) && (ws != null ==> ws.state == old(ws.state))
    {
      ghost var before := streams;
      ghost var sentBefore := if ws == null then [] else ws.sent;
      HandleNewStreamer(streamerId, now);
      KeysStep(s0, open, done, streamerId, now, before, streams);
      SentLogStep(s0, log0, open, done, streamerId, now, ws != null, before, sentBefore, if ws == null then [] else ws.sent);
    }

    /** `active_streamers`: every listed streamer without an entry is
        requested, once and in list order; entries already there are kept. */
    method HandleActiveStreamers(ids: seq<Id>, now: int)
      requires Valid()
      modifies this`streams, ws
      ensures Valid()
      ensures ws == old(ws) && (ws != null ==> ws.state == old(ws.state))
      ensures (ws == null || ws.state != Open) ==> streams == old(streams) && (ws != null ==> ws.sent == old(ws.sent))
      ensures ws != null && ws.state == Open ==>
        streams.Keys == old(streams).Keys + Elements(ids) &&
        (forall s :: s in old(streams) ==> streams[s] == old(streams)[s]) &&
        (forall s :: s in streams && s !in old(streams) ==> NewEntry(streams[s], now)) &&
        ws.sent == old(ws.sent) + Requests(NewIds(old(streams).Keys, ids))
    {
      ghost var open := ws != null && ws.state == Open;
      ghost var s0 := streams;
      ghost var log0 := if ws == null then [] else ws.sent;
      for i := 0 to |ids|
        invariant Progress(s0, log0, open, ids[..i], now)
        invariant ws == old(ws) && (ws != null ==> ws.state == old(ws.state))
      {
        RequestEach(ids[i], now, s0, log0, open, ids[..i]);
        assert ids[..i] + [ids[i]] == ids[..i + 1];
      }
      assert ids[..|ids|] == ids;
      if !open {
        assert streams == s0;
      }
    }

    /** `new_streamer`: requested unless it already has an entry. */
    method HandleNewStreamer(streamerId: Id, now: int)
      requires Valid()
      modifies this`streams, ws
      ensures Valid()
      ensures ws == old(ws) && (ws != null ==> ws.state == old(ws.state))
      ensures (ws == null || ws.state != Open) ==> streams == old(streams)
      ensures streams.Keys == old(streams).Keys + (if ws != null && ws.state == Open then {streamerId} else {})
      ensures forall s :: s in old(streams) ==> streams[s] == old(streams)[s]
      ensures ws != null ==>
        ws.sent == old(ws.sent) + (if ws.state == Open && streamerId !in old(streams) then [ToServer.RequestStream(Some(streamerId))] else [])
      ensures streamerId !in old(streams) && ws != null && ws.state == Open ==> NewEntry(streams[streamerId], now)
    {
      if streamerId !in streams {
        var _ := RequestStreamFromStreamer(streamerId, now);
      } else {
        assert old(streams).Keys + {streamerId} == old(streams).Keys;
      }
    }

    /** `streamer_left`: a known streamer's connection is closed and exactly
        its entry is removed; an unknown one changes nothing. */
    method HandleStreamerLeft(streamerId: Id)
      requires Valid()
      modifies this`streams, Connections()
      ensures Valid()
      ensures streams == old(streams) - {streamerId}
      ensures streamerId in old(streams) && old(streams)[streamerId].peerConnection != null ==>
        old(streams)[streamerId].peerConnection.closed
      ensures forall p :: p in old(Connections()) && (streamerId !in old(streams) || p != old(streams)[streamerId].peerConnection) ==> unchanged(p)
    {
      if streamerId in streams {
        var info := streams[streamerId];
        if info.peerConnection != null {
          info.peerConnection.Close();
        }
        streams := streams - {streamerId};
      } else {
        assert streams - {streamerId} == streams;
      }
    }

    /** `handleOffer`: for a known streamer with a connection, the offer is
        set, the browser's answer (`created`) is set locally and, on an open
        socket, sent back to the streamer. A failure at any step ends it. */
    method HandleOffer(offer: Option<Payload>, streamerId: Id, created: Option<Payload>)
      requires Valid()
      modifies Connections()`remoteDescription, Connections()`localDescription, ws
      ensures ws != null ==> ws.state == old(ws.state)
      ensures (streamerId !in streams || streams[streamerId].peerConnection == null) ==>
        (forall p :: p in Connections() ==> unchanged(p)) && (ws != null ==> unchanged(ws))
      ensures streamerId in streams && streams[streamerId].peerConnection != null ==>
        var pc := streams[streamerId].peerConnection;
        var accepted := !pc.closed && offer.Some?;
        (forall p :: p in Connections() && p != pc ==> unchanged(p)) &&
        pc.remoteDescription == (if accepted then offer else old(pc.remoteDescription)) &&
        pc.localDescription == (if accepted && created.Some? then created else old(pc.localDescription)) &&
        (ws != null ==>
          ws.sent == if accepted && created.Some? && ws.state == Open
                     then old(ws.sent) + [Relay(Answer, created, Some(streamerId))]
                     else old(ws.sent))
    {
      if streamerId !in streams || streams[streamerId].peerConnection == null {
        return;
      }
      var pc := streams[streamerId].peerConnection;
      var ok := pc.SetRemoteDescription(offer);
      if !ok || created.None? {
        return;
      }
      ok := pc.SetLocalDescription(created.value);
      if ws != null && ws.state == Open {
        var _ := ws.Send(Relay(Answer, created, Some(streamerId)));
      }
    }

    /** `handleAnswer`: applied to a known streamer's connection only. */
    method HandleAnswer(answer: Option<Payload>, streamerId: Id)
      requires Valid()
      modifies Connections()`remoteDescription
      ensures (streamerId !in streams || streams[streamerId].peerConnection == null) ==>
        forall p :: p in Connections() ==> unchanged(p)
      ensures streamerId in streams && streams[streamerId].peerConnection != null ==>
        var pc := streams[streamerId].peerConnection;
        (forall p :: p in Connections() && p != pc ==> unchanged(p)) &&
        pc.remoteDescription == if !pc.closed && answer.Some? then answer else old(pc.remoteDescription)
    {
      if streamerId !in streams || streams[streamerId].peerConnection == null {
        return;
      }
      var _ := streams[streamerId].peerConnection.SetRemoteDescription(answer);
    }

    /** `handleIceCandidate`: applied to a known streamer's connection only;
        a rejected candidate is dropped. */
    method HandleIceCandidate(candidate: Option<Payload>, streamerId: Id)
      requires Valid()
      modifies Connections()`candidates
      ensures (streamerId !in streams || streams[streamerId].peerConnection == null) ==>
        forall p :: p in Connections() ==> unchanged(p)
      ensures streamerId in streams && streams[streamerId].peerConnection != null ==>
        var pc := streams[streamerId].peerConnection;
        (forall p :: p in Connections() && p != pc ==> unchanged(p)) &&
        pc.candidates ==
          if !pc.closed && old(pc.remoteDescription).Some? && candidate.Some? then old(pc.candidates) + [candidate.value]
          else old(pc.candidates)
    {
      if streamerId !in streams || streams[streamerId].peerConnection == null {
        return;
      }
      var _ := streams[streamerId].peerConnection.AddIceCandidate(candidate);
    }

    /** `handleSignalingMessage`: dispatch on the message type; `created` is
        the answer the browser produces if an offer is handled, `now` the
        clock for new entries. A `stream_request` is ignored. */
    method HandleSignalingMessage(m: FromServer, created: Option<Payload>, now: int)
      requires Valid()
      modifies this`streams, ws, Connections()
      ensures Valid()
      ensures ws == old(ws)
      ensures m.StreamRequest? ==>
        streams == old(streams) && (ws != null ==> unchanged(ws)) && forall p :: p in Connections() ==> unchanged(p)
      ensures m.Forwarded? ==> streams == old(streams)
      ensures m.StreamerLeft? ==> streams == old(streams) - {m.streamerId}
      ensures (m.ActiveStreamers? || m.NewStreamer?) ==> old(streams).Keys <= streams.Keys
    {
      match m
      case ActiveStreamers(ids) => HandleActiveStreamers(ids, now);
      case NewStreamer(streamerId, _) => HandleNewStreamer(streamerId, now);
      case StreamerLeft(streamerId) => HandleStreamerLeft(streamerId);
      case Forwarded(kind, payload, from) =>
        if kind == Offer {
          HandleOffer(payload, from, created);
        } else if kind == Answer {
          HandleAnswer(payload, from);
        } else {
          HandleIceCandidate(payload, from);
        }
      case StreamRequest(_) =>
    }

    /** `peerConnection.ontrack`: the session now holds the event's first
        stream (none when the event carries no stream) and is connected, and
        a copy of it is filed under its streamer id, even when that entry had
        been removed meanwhile. */
    method OnTrack(session: StreamSession, stream: MediaStream?)
      requires Valid()
      modifies session`stream, session`isConnected, this`streams
      ensures Valid()
      ensures session.stream == stream && session.isConnected
      ensures streams == old(streams)[session.streamerId :=
        StreamInfo(session.streamerId, true, session.peerConnection, stream, session.lastSeen)]
    {
      session.stream := stream;
      session.isConnected := true;
      streams := streams[session.streamerId := session.Snapshot()];
    }

    /** `peerConnection.onconnectionstatechange`: `disconnected` and `failed`
        mark the session not connected and file a copy of it; other states
        change nothing. */
    method OnConnectionState(session: StreamSession, state: PeerState)
      requires Valid()
      modifies session, this`streams
      ensures Valid()
      ensures state in {PeerDisconnected, PeerFailed} ==>
        !session.isConnected && session.stream == old(session.stream) &&
        streams == old(streams)[session.streamerId :=
          StreamInfo(session.streamerId, false, session.peerConnection, session.stream, session.lastSeen)]
      ensures state !in {PeerDisconnected, PeerFailed} ==> unchanged(session) && streams == old(streams)
    {
      if state == PeerDisconnected || state == PeerFailed {
        session.isConnected := false;
        streams := streams[session.streamerId := session.Snapshot()];
      }
    }

    /** `peerConnection.onicecandidate` of the connection to `streamerId`. */
    method OnLocalIceCandidate(streamerId: Id, candidate: Option<Payload>)
      modifies ws
      ensures ws != null && candidate.Some? && old(ws.state) == Open ==>
        ws.sent == old(ws.sent) + [Relay(IceCandidate, candidate, Some(streamerId))]
      ensures ws != null && (candidate.None? || old(ws.state) != Open) ==> ws.sent == old(ws.sent)
    {
      if candidate.Some? && ws != null {
        var _ := ws.Send(Relay(IceCandidate, candidate, Some(streamerId)));
      }
    }

    /** The unmount cleanup: the socket is closed and every connection of the
        registry is closed. */
    method Unmount()
      modifies ws, Connections()
      ensures forall p :: p in Connections() ==> p.closed
      ensures ws != null ==> ws.state == if old(ws.state) in {Connecting, Open} then Closing else old(ws.state)
    {
      if ws != null {
        ws.Close();
      }
      var pending := Connections();
      while pending != {}
        invariant pending <= Connections()
        invariant forall p :: p in Connections() && p !in pending ==> p.closed
        invariant ws != null ==> ws.state == if old(ws.state) in {Connecting, Open} then Closing else old(ws.state)
        decreases pending
      {
        var pc :| pc in pending;
        pc.Close();
        pending := pending - {pc};
      }
    }
  }
}
