/** The streamer page: it serves every viewer that asks for its stream with a
    peer connection of its own. The registry maps viewer id to that viewer's
    connection and whether it is connected; the viewer count is the number of
    connected entries. Handlers read the page's current state. */
module StreamPage {
  import opened Common
  import opened Signaling
  import opened Browser

  datatype ViewerConnection = ViewerConnection(viewerId: Id, peerConnection: PeerConnection, isConnected: bool)

  /** The ids of the entries marked connected. */
  function ConnectedIds(viewers: map<Id, ViewerConnection>): set<Id>
  {
    set v | v in viewers && viewers[v].isConnected
  }

  /** `updateViewerCount`'s count: the entries marked connected. It is zero
      exactly when no entry is connected, and the size of the registry
      exactly when every entry is. */
  function ConnectedViewers(viewers: map<Id, ViewerConnection>): (n: nat)
    ensures n <= |viewers|
    ensures n == 0 <==> forall v :: v in viewers ==> !viewers[v].isConnected
    ensures n == |viewers| <==> forall v :: v in viewers ==> viewers[v].isConnected
  {
    CountBounds(viewers);
    |ConnectedIds(viewers)|
  }

  lemma CountBounds(viewers: map<Id, ViewerConnection>)
    ensures |ConnectedIds(viewers)| <= |viewers|
    ensures |ConnectedIds(viewers)| == 0 <==> forall v :: v in viewers ==> !viewers[v].isConnected
    ensures |ConnectedIds(viewers)| == |viewers| <==> forall v :: v in viewers ==> viewers[v].isConnected
  {
    var c := ConnectedIds(viewers);
    SubsetCardinality(c, viewers.Keys);
    if exists v :: v in viewers && viewers[v].isConnected {
      var v :| v in viewers && viewers[v].isConnected;
      assert v in c;
    }
    if exists v :: v in viewers && !viewers[v].isConnected {
      var v :| v in viewers && !viewers[v].isConnected;
      SubsetCardinality(c, viewers.Keys - {v});
    } else {
      assert c == viewers.Keys;
    }
  }

  /** Filing `e` under `v`, replacing any entry there, moves the count by the
      two flags: marking an unconnected viewer connected raises it by one,
      marking a connected one disconnected lowers it by one, and a new
      unconnected entry leaves it as it was. */
  lemma CountAfterUpdate(viewers: map<Id, ViewerConnection>, v: Id, e: ViewerConnection)
    ensures ConnectedViewers(viewers[v := e]) ==
      ConnectedViewers(viewers) - (if v in viewers && viewers[v].isConnected then 1 else 0) + (if e.isConnected then 1 else 0)
  {
    var c := ConnectedIds(viewers);
    IdsAfterUpdate(viewers, v, e);
    CardinalityWithout(c, v);
    CardinalityWithout(ConnectedIds(viewers[v := e]), v);
  }

  /** Removing an entry lowers the count by one exactly when it was connected. */
  lemma CountAfterRemoval(viewers: map<Id, ViewerConnection>, v: Id)
    ensures ConnectedViewers(viewers - {v}) ==
      ConnectedViewers(viewers) - (if v in viewers && viewers[v].isConnected then 1 else 0)
  {
    IdsAfterRemoval(viewers, v);
    CardinalityWithout(ConnectedIds(viewers), v);
  }

  lemma IdsAfterUpdate(viewers: map<Id, ViewerConnection>, v: Id, e: ViewerConnection)
    ensures ConnectedIds(viewers[v := e]) - {v} == ConnectedIds(viewers) - {v}
    ensures v in ConnectedIds(viewers[v := e]) <==> e.isConnected
    ensures v in ConnectedIds(viewers) <==> v in viewers && viewers[v].isConnected
  {
  }

  lemma IdsAfterRemoval(viewers: map<Id, ViewerConnection>, v: Id)
    ensures ConnectedIds(viewers - {v}) == ConnectedIds(viewers) - {v}
    ensures v in ConnectedIds(viewers) <==> v in viewers && viewers[v].isConnected
  {
  }

  lemma CardinalityWithout<T>(c: set<T>, v: T)
    ensures |c| == |c - {v}| + (if v in c then 1 else 0)
  {
    if v in c {
      assert c == (c - {v}) + {v};
    } else {
      assert c - {v} == c;
    }
  }

  class StreamPage {
    const streamerId: Id
    var isStreaming: bool
    var isConnected: bool
    var connectionStatus: string
    var viewerCount: nat
    var localStream: MediaStream?
    var ws: Socket?
    var viewers: map<Id, ViewerConnection>
    /** Reconnect attempts scheduled by socket closes and not yet run. */
    var pendingReconnects: nat

    /** Each entry is filed under its own viewer id, and no connection serves
        two viewers. */
    ghost predicate Valid()
      reads this
    {
      && (forall v :: v in viewers ==> viewers[v].viewerId == v)
      && (forall a, b :: a in viewers && b in viewers && a != b ==> viewers[a].peerConnection != viewers[b].peerConnection)
    }

    /** The connections of the registry. */
    function Connections(): set<PeerConnection>
      reads this
    {
      set v | v in viewers :: viewers[v].peerConnection
    }

    constructor (streamerId: Id)
      ensures Valid()
      ensures this.streamerId == streamerId
      ensures !isStreaming && !isConnected && connectionStatus == "Connecting..." && viewerCount == 0
      ensures localStream == null && ws == null && viewers == map[] && pendingReconnects == 0
    {
      this.streamerId := streamerId;
      isStreaming, isConnected, connectionStatus, viewerCount := false, false, "Connecting...", 0;
      localStream, ws, viewers, pendingReconnects := null, null, map[], 0;
    }

    /** `connectToSignalingServer`: a new socket at `/video/ws/{streamerId}/streamer`. */
    method ConnectToSignalingServer()
      modifies this`ws
      ensures fresh(ws) && ws.state == Connecting && ws.sent == []
    {
      ws := new Socket();
    }

    method OnSocketOpen()
      modifies this`isConnected, this`connectionStatus
      ensures isConnected && connectionStatus == "Connected"
    {
      isConnected, connectionStatus := true, "Connected";
    }

    /** `ws.onclose`: every close, whatever its `code`, marks the page
        disconnected and schedules exactly one more reconnect. */
    method OnSocketClose(code: int)
      modifies this`isConnected, this`connectionStatus, this`pendingReconnects
      ensures !isConnected && connectionStatus == "Disconnected"
      ensures pendingReconnects == old(pendingReconnects) + 1
    {
      isConnected, connectionStatus := false, "Disconnected";
      pendingReconnects := pendingReconnects + 1;
    }

    method OnSocketError()
      modifies this`connectionStatus
      ensures connectionStatus == "Connection Error"
    {
      connectionStatus := "Connection Error";
    }

    /** A scheduled reconnect runs: one fewer pending, and a new socket. */
    method OnReconnectTimer()
      requires pendingReconnects > 0
      modifies this`ws, this`pendingReconnects
      ensures pendingReconnects == old(pendingReconnects) - 1
      ensures fresh(ws) && ws.state == Connecting && ws.sent == []
    {
      pendingReconnects := pendingReconnects - 1;
      ConnectToSignalingServer();
    }

    /** `startStreaming` once the camera has delivered `stream`. */
    method StartStreaming(stream: MediaStream)
      modifies this`localStream, this`isStreaming
      ensures localStream == stream && isStreaming
    {
      localStream := stream;
      isStreaming := true;
    }

    /** `updateViewerCount`. */
    method UpdateViewerCount()
      modifies this`viewerCount
      ensures viewerCount == ConnectedViewers(viewers)
    {
      viewerCount := ConnectedViewers(viewers);
    }

    /** `handleNewViewer`: without a local stream or a socket nothing happens.
        Otherwise a new connection holding every local track is filed under
        `viewerId` as not connected, replacing any earlier entry; when the
        browser produced an offer (`created`) it is set locally and sent
        addressed to `viewerId`, and the count is recomputed unless the send
        threw. */
    method HandleNewViewer(viewerId: Id, created: Option<Payload>)
      requires Valid()
      modifies this`viewers, this`viewerCount, ws
      ensures Valid()
      ensures (old(localStream) == null || old(ws) == null) ==>
        viewers == old(viewers) && viewerCount == old(viewerCount) && (ws != null ==> unchanged(ws))
      ensures localStream != null && ws != null ==>
        viewerId in viewers &&
        viewers == old(viewers)[viewerId := viewers[viewerId]] &&
        var entry := viewers[viewerId];
        fresh(entry.peerConnection) && !entry.isConnected &&
        entry.peerConnection.tracks == localStream.TrackSet() &&
        entry.peerConnection.localDescription == created &&
        entry.peerConnection.remoteDescription == None &&
        ws.sent == (if created.Some? && old(ws.state) == Open then old(ws.sent) + [Relay(Offer, created, Some(viewerId))]
                    else old(ws.sent)) &&
        viewerCount == (if created.Some? && ws.state != Connecting then ConnectedViewers(viewers) else old(viewerCount))
    {
      if localStream == null || ws == null {
        return;
      }
      var pc: PeerConnection := new PeerConnection();
      AddTracks(pc, localStream.tracks);
      viewers := viewers[viewerId := ViewerConnection(viewerId, pc, false)];
      SendOffer(viewerId, pc, created);
    }

    /** The end of `handleNewViewer`: the offer the browser produced is set on
        the new connection and sent to the viewer; the count is recomputed
        unless the send threw. */
    method SendOffer(viewerId: Id, pc: PeerConnection, created: Option<Payload>)
      requires ws != null && !pc.closed
      modifies pc`localDescription, ws, this`viewerCount
      ensures pc.localDescription == if created.Some? then created else old(pc.localDescription)
      ensures ws.state == old(ws.state)
      ensures ws.sent == if created.Some? && ws.state == Open then old(ws.sent) + [Relay(Offer, created, Some(viewerId))]
                         else old(ws.sent)
      ensures viewerCount == if created.Some? && ws.state != Connecting then ConnectedViewers(viewers) else old(viewerCount)
    {
      if created.None? {
        return;
      }
      var _ := pc.SetLocalDescription(created.value);
      var raised := ws.Send(Relay(Offer, created, Some(viewerId)));
      if raised {
        return;
      }
      UpdateViewerCount();
    }

    /** `handleAnswer`: applied to the viewer's connection; an unknown viewer
        changes nothing. */
    method HandleAnswer(answer: Option<Payload>, viewerId: Id)
      requires Valid()
      modifies Connections()`remoteDescription
      ensures viewerId !in viewers ==> forall p :: p in Connections() ==> unchanged(p)
      ensures forall v :: v in viewers && v != viewerId ==> unchanged(viewers[v].peerConnection)
      ensures viewerId in viewers ==>
        viewers[viewerId].peerConnection.remoteDescription ==
          if answer.Some? && !viewers[viewerId].peerConnection.closed then answer
          else old(viewers[viewerId].peerConnection.remoteDescription)
    {
      if viewerId !in viewers {
        return;
      }
      var _ := viewers[viewerId].peerConnection.SetRemoteDescription(answer);
    }

    /** `handleIceCandidate`: applied to the viewer's connection; an unknown
        viewer changes nothing; a rejected candidate is dropped. */
    method HandleIceCandidate(candidate: Option<Payload>, viewerId: Id)
      requires Valid()
      modifies Connections()`candidates
      ensures viewerId !in viewers ==> forall p :: p in Connections() ==> unchanged(p)
      ensures forall v :: v in viewers && v != viewerId ==> unchanged(viewers[v].peerConnection)
      ensures viewerId in viewers ==>
        var pc := viewers[viewerId].peerConnection;
        pc.candidates ==
          if !pc.closed && old(pc.remoteDescription).Some? && candidate.Some? then old(pc.candidates) + [candidate.value]
          else old(pc.candidates)
    {
      if viewerId !in viewers {
        return;
      }
      var _ := viewers[viewerId].peerConnection.AddIceCandidate(candidate);
    }

    /** `handleSignalingMessage`: acts on `stream_request`, `answer` and
        `ice-candidate` only. */
    method HandleSignalingMessage(m: FromServer, created: Option<Payload>)
      requires Valid()
      modifies this`viewers, this`viewerCount, ws, Connections()
      ensures Valid()
      ensures !(m.StreamRequest? || (m.Forwarded? && m.kind != Offer)) ==>
        viewers == old(viewers) && viewerCount == old(viewerCount) &&
        (ws != null ==> unchanged(ws)) && forall p :: p in Connections() ==> unchanged(p)
      ensures m.Forwarded? ==> viewers == old(viewers) && viewerCount == old(viewerCount) && (ws != null ==> unchanged(ws))
      ensures m.Forwarded? && m.from !in viewers ==> forall p :: p in Connections() ==> unchanged(p)
    {
      match m
      case StreamRequest(from) => HandleNewViewer(from, created);
      case Forwarded(kind, payload, from) =>
        if kind == Answer {
          HandleAnswer(payload, from);
        } else if kind == IceCandidate {
          HandleIceCandidate(payload, from);
        }
      case ActiveStreamers(_) =>
      case NewStreamer(_, _) =>
      case StreamerLeft(_) =>
    }

    /** `peerConnection.onicecandidate` of the connection serving `viewerId`. */
    method OnLocalIceCandidate(viewerId: Id, candidate: Option<Payload>)
      modifies ws
      ensures ws != null && candidate.Some? && old(ws.state) == Open ==>
        ws.sent == old(ws.sent) + [Relay(IceCandidate, candidate, Some(viewerId))]
      ensures ws != null && (candidate.None? || old(ws.state) != Open) ==> ws.sent == old(ws.sent)
    {
      if candidate.Some? && ws != null {
        var _ := ws.Send(Relay(IceCandidate, candidate, Some(viewerId)));
      }
    }

    /** `peerConnection.onconnectionstatechange` of a connection created for
        `viewerId`: the entry filed under that id, if any, is marked connected
        exactly when the state is `connected`, and the count is recomputed. */
    method OnViewerConnectionState(viewerId: Id, state: PeerState)
      requires Valid()
      modifies this`viewers, this`viewerCount
      ensures Valid()
      ensures viewerId !in old(viewers) ==> viewers == old(viewers) && viewerCount == old(viewerCount)
      ensures viewerId in old(viewers) ==>
        viewers == old(viewers)[viewerId := old(viewers[viewerId]).(isConnected := state == PeerConnected)] &&
        viewerCount == ConnectedViewers(viewers)
    {
      if viewerId in viewers {
        viewers := viewers[viewerId := viewers[viewerId].(isConnected := state == PeerConnected)];
        UpdateViewerCount();
      }
    }

    /** `stopStreaming`: stops every local track, closes every connection,
        empties the registry; no longer streaming, no viewers counted. */
    method StopStreaming()
      modifies this`localStream, this`viewers, this`isStreaming, this`viewerCount, Connections()
      modifies if localStream == null then {} else localStream.TrackSet()
      ensures Valid()
      ensures old(localStream) != null ==> forall t :: t in old(localStream).tracks ==> t.stopped
      ensures forall p :: p in old(Connections()) ==> p.closed
      ensures localStream == null && viewers == map[] && !isStreaming && viewerCount == 0
      ensures viewerCount == ConnectedViewers(viewers)
    {
      if localStream != null {
        var tracks := localStream.tracks;
        for i := 0 to |tracks|
          modifies localStream.TrackSet()
          invariant forall k :: 0 <= k < i ==> tracks[k].stopped
        {
          tracks[i].Stop();
        }
        localStream := null;
      }
      var pending := Connections();
      while pending != {}
        modifies Connections()
        invariant pending <= Connections()
        invariant forall p :: p in Connections() && p !in pending ==> p.closed
        decreases pending
      {
        var pc :| pc in pending;
        pc.Close();
        pending := pending - {pc};
      }
      viewers := map[];
      isStreaming := false;
      viewerCount := 0;
    }

    /** The cleanup when the page unmounts: stop streaming, then close the socket. */
    method Unmount()
      modifies this`localStream, this`viewers, this`isStreaming, this`viewerCount, Connections(), ws
      modifies if localStream == null then {} else localStream.TrackSet()
      ensures Valid()
      ensures old(localStream) != null ==> forall t :: t in old(localStream).tracks ==> t.stopped
      ensures forall p :: p in old(Connections()) ==> p.closed
      ensures localStream == null && viewers == map[] && !isStreaming && viewerCount == 0
      ensures ws != null ==> ws.state == if old(ws.state) in {Connecting, Open} then Closing else old(ws.state)
    {
      StopStreaming();
      if ws != null {
        ws.Close();
      }
    }
  }

  lemma SubsetCardinality<T>(a: set<T>, b: set<T>)
    requires a <= b
    ensures |a| <= |b|
  {
    if a != {} {
      var x :| x in a;
      SubsetCardinality(a - {x}, b - {x});
    }
  }
}
