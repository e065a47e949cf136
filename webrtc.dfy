/** The reusable client of the relay protocol: one socket, a registry of peer
    connections keyed by remote client id, and an optional local stream whose
    tracks a streamer adds to every connection. */
module WebRtc {
  import opened Common
  import opened Signaling
  import opened Browser

  datatype ClientType = Streamer | Viewer

  class WebRTCConnection {
    const clientId: Id
    const clientType: ClientType
    const isStreamer: bool
    var ws: Socket?
    var peerConnections: map<Id, PeerConnection>
    var localStream: MediaStream?

    /** No connection in the registry has been closed (only `Disconnect`
        closes them, and it empties the registry), and no connection is
        registered under two ids (each is created for one). */
    ghost predicate Valid()
      reads this, peerConnections.Values
    {
      && (forall p :: p in peerConnections.Values ==> !p.closed)
      && (forall a, b :: a in peerConnections && b in peerConnections && a != b ==> peerConnections[a] != peerConnections[b])
    }

    constructor (clientId: Id, clientType: ClientType)
      ensures Valid()
      ensures this.clientId == clientId && this.clientType == clientType
      ensures isStreamer <==> clientType == Streamer
      ensures ws == null && peerConnections == map[] && localStream == null
    {
      this.clientId := clientId;
      this.clientType := clientType;
      isStreamer := clientType == Streamer;
      ws := null;
      peerConnections := map[];
      localStream := null;
    }

    /** `connect`: opens a new socket at `/video/ws/{clientId}/{clientType}`. */
    method Connect()
      modifies this`ws
      ensures fresh(ws) && ws.state == Connecting && ws.sent == []
    {
      ws := new Socket();
    }

    /** `sendMessage`: sends only on an existing, open socket; otherwise the
        message is dropped. */
    method SendMessage(m: ToServer)
      modifies ws
      ensures ws != null && old(ws.state) == Open ==> ws.sent == old(ws.sent) + [m]
      ensures ws != null && old(ws.state) != Open ==> ws.sent == old(ws.sent)
    {
      if ws != null && ws.state == Open {
        var _ := ws.Send(m);
      }
    }

    /** `getPeerConnection`: the connection registered for `peerId`, or none.
        One found in a valid registry is open and serves no other peer. */
    method GetPeerConnection(peerId: Id) returns (pc: PeerConnection?)
      ensures pc != null <==> peerId in peerConnections
      ensures pc != null ==> pc == peerConnections[peerId]
      ensures Valid() && pc != null ==>
        !pc.closed && forall q :: q in peerConnections && peerConnections[q] == pc ==> q == peerId
    {
      pc := if peerId in peerConnections then peerConnections[peerId] else null;
    }

    /** `getOrCreatePeerConnection`: the registered connection if there is
        one, with the registry unchanged; otherwise a new connection under
        `peerId`, holding every local track when this client is a streamer
        with a local stream. */
    method GetOrCreatePeerConnection(peerId: Id) returns (pc: PeerConnection)
      requires Valid()
      modifies this`peerConnections
      ensures Valid()
      ensures peerId in old(peerConnections) ==>
        pc == old(peerConnections[peerId]) && peerConnections == old(peerConnections)
      ensures peerId !in old(peerConnections) ==>
        fresh(pc) && peerConnections == old(peerConnections)[peerId := pc] &&
        !pc.closed && pc.localDescription == None && pc.remoteDescription == None && pc.candidates == [] &&
        pc.tracks == if isStreamer && localStream != null then localStream.TrackSet() else {}
    {
      if peerId in peerConnections {
        return peerConnections[peerId];
      }
      pc := new PeerConnection();
      peerConnections := peerConnections[peerId := pc];
      if isStreamer && localStream != null {
        AddTracks(pc, localStream.tracks);
      }
    }

    /** `pc.onicecandidate` of the connection for `peerId`: a candidate is sent
        on as `ice-candidate` addressed to `peerId`; the end-of-candidates
        event (no candidate) sends nothing. */
    method OnIceCandidate(peerId: Id, candidate: Option<Payload>)
      modifies ws
      ensures ws != null && old(ws.state) == Open && candidate.Some? ==>
        ws.sent == old(ws.sent) + [Relay(IceCandidate, candidate, Some(peerId))]
      ensures ws != null && (old(ws.state) != Open || candidate.None?) ==> ws.sent == old(ws.sent)
    {
      if candidate.Some? {
        SendMessage(Relay(IceCandidate, candidate, Some(peerId)));
      }
    }

    /** `handleOffer`: gets or creates the connection for `fromId`, applies the
        offer, and, when the browser produced an answer (`created`), sets it
        locally and sends `answer` addressed to `fromId`. */
    method HandleOffer(offer: Option<Payload>, fromId: Id, created: Option<Payload>)
      requires Valid()
      modifies this`peerConnections, peerConnections.Values`remoteDescription, peerConnections.Values`localDescription, ws
      ensures Valid()
      ensures fromId in peerConnections
      ensures peerConnections.Keys == old(peerConnections.Keys) + {fromId}
      ensures forall p :: p in old(peerConnections) ==> peerConnections[p] == old(peerConnections[p])
      ensures forall p :: p in old(peerConnections) && p != fromId ==> unchanged(peerConnections[p])
      ensures peerConnections[fromId].remoteDescription ==
        if offer.Some? then offer else if fromId in old(peerConnections) then old(peerConnections[fromId].remoteDescription) else None
      ensures peerConnections[fromId].localDescription ==
        if offer.Some? && created.Some? then created
        else if fromId in old(peerConnections) then old(peerConnections[fromId].localDescription) else None
      ensures ws != null && old(ws.state) == Open && offer.Some? && created.Some? ==>
        ws.sent == old(ws.sent) + [Relay(Answer, created, Some(fromId))]
      ensures ws != null && (old(ws.state) != Open || offer.None? || created.None?) ==> ws.sent == old(ws.sent)
    {
      var pc := GetOrCreatePeerConnection(fromId);
      var ok := pc.SetRemoteDescription(offer);
      if !ok || created.None? {
        return;
      }
      ok := pc.SetLocalDescription(created.value);
      if ok {
        SendMessage(Relay(Answer, created, Some(fromId)));
      }
    }

    /** `handleAnswer`: applied to the connection for `fromId`; an unknown id
        changes nothing. */
    method HandleAnswer(answer: Option<Payload>, fromId: Id)
      requires Valid()
      modifies peerConnections.Values`remoteDescription
      ensures Valid()
      ensures fromId !in peerConnections ==> forall p :: p in peerConnections.Values ==> unchanged(p)
      ensures forall p :: p in peerConnections && p != fromId ==> unchanged(peerConnections[p])
      ensures fromId in peerConnections ==>
        peerConnections[fromId].remoteDescription ==
          if answer.Some? then answer else old(peerConnections[fromId].remoteDescription)
    {
      if fromId !in peerConnections {
        return;
      }
      var pc := peerConnections[fromId];
      var _ := pc.SetRemoteDescription(answer);
    }

    /** `handleIceCandidate`: applied to the connection for `fromId`; an
        unknown id changes nothing, and a candidate the connection rejects is
        dropped. */
    method HandleIceCandidate(candidate: Option<Payload>, fromId: Id)
      requires Valid()
      modifies peerConnections.Values`candidates
      ensures Valid()
      ensures fromId !in peerConnections ==> forall p :: p in peerConnections.Values ==> unchanged(p)
      ensures forall p :: p in peerConnections && p != fromId ==> unchanged(peerConnections[p])
      ensures fromId in peerConnections ==>
        var pc := peerConnections[fromId];
        pc.candidates ==
          if old(pc.remoteDescription).Some? && candidate.Some? then old(pc.candidates) + [candidate.value]
          else old(pc.candidates)
    {
      if fromId !in peerConnections {
        return;
      }
      var pc := peerConnections[fromId];
      var _ := pc.AddIceCandidate(candidate);
    }

    /** `handleMessage`: dispatches the three negotiation messages by type;
        every other message leaves the registry and the socket alone. */
    method HandleMessage(m: FromServer, created: Option<Payload>)
      requires Valid()
      modifies this`peerConnections, peerConnections.Values, ws
      ensures Valid()
      ensures !m.Forwarded? ==> peerConnections == old(peerConnections) && unchanged(peerConnections.Values) && (ws != null ==> unchanged(ws))
      ensures m.Forwarded? && m.kind == Offer ==> m.from in peerConnections
      ensures m.Forwarded? && m.kind != Offer ==> peerConnections == old(peerConnections) && (ws != null ==> unchanged(ws))
    {
      if m.Forwarded? {
        match m.kind
        case Offer => HandleOffer(m.payload, m.from, created);
        case Answer => HandleAnswer(m.payload, m.from);
        case IceCandidate => HandleIceCandidate(m.payload, m.from);
      }
    }

    /** `setLocalStream`: remembers the stream and adds each of its tracks to
        every connection already in the registry. */
    method SetLocalStream(stream: MediaStream)
      requires Valid()
      modifies this`localStream, peerConnections.Values`tracks
      ensures Valid()
      ensures localStream == stream
      ensures forall p :: p in peerConnections.Values ==> p.tracks == old(p.tracks) + stream.TrackSet()
    {
      localStream := stream;
      var pending := peerConnections.Values;
      while pending != {}
        modifies peerConnections.Values`tracks
        invariant pending <= peerConnections.Values
        invariant Valid()
        invariant forall p :: p in peerConnections.Values ==>
          p.tracks == if p in pending then old(p.tracks) else old(p.tracks) + stream.TrackSet()
        decreases pending
      {
        var pc :| pc in pending;
        AddTracks(pc, stream.tracks);
        pending := pending - {pc};
      }
    }

    /** `createOffer`: gets or creates the connection for `targetId` and, when
        the browser produced an offer (`created`), sets it locally and sends
        `offer` addressed to `targetId`. */
    method CreateOffer(targetId: Id, created: Option<Payload>)
      requires Valid()
      modifies this`peerConnections, peerConnections.Values`localDescription, ws
      ensures Valid()
      ensures targetId in peerConnections
      ensures peerConnections.Keys == old(peerConnections.Keys) + {targetId}
      ensures forall p :: p in old(peerConnections) ==> peerConnections[p] == old(peerConnections[p])
      ensures forall p :: p in old(peerConnections) && p != targetId ==> unchanged(peerConnections[p])
      ensures targetId !in old(peerConnections) ==> fresh(peerConnections[targetId])
      ensures peerConnections[targetId].localDescription ==
        if created.Some? then created else if targetId in old(peerConnections) then old(peerConnections[targetId].localDescription) else None
      ensures ws != null && old(ws.state) == Open && created.Some? ==>
        ws.sent == old(ws.sent) + [Relay(Offer, created, Some(targetId))]
      ensures ws != null && (old(ws.state) != Open || created.None?) ==> ws.sent == old(ws.sent)
    {
      var pc := GetOrCreatePeerConnection(targetId);
      if created.None? {
        return;
      }
      var ok := pc.SetLocalDescription(created.value);
      if ok {
        SendMessage(Relay(Offer, created, Some(targetId)));
      }
    }

    /** `requestStream`: asks the relay for the stream of `streamerId`. */
    method RequestStream(streamerId: Id)
      modifies ws
      ensures ws != null && old(ws.state) == Open ==> ws.sent == old(ws.sent) + [ToServer.RequestStream(Some(streamerId))]
      ensures ws != null && old(ws.state) != Open ==> ws.sent == old(ws.sent)
    {
      SendMessage(ToServer.RequestStream(Some(streamerId)));
    }

    /** `disconnect`: closes every connection, empties the registry, stops
        every local track and closes the socket. */
    method Disconnect()
      requires Valid()
      modifies this`peerConnections, peerConnections.Values, ws
      modifies if localStream == null then {} else localStream.TrackSet()
      ensures Valid()
      ensures peerConnections == map[]
      ensures forall p :: p in old(peerConnections.Values) ==> p.closed
      ensures localStream != null ==> forall t :: t in localStream.tracks ==> t.stopped
      ensures ws != null ==> ws.state == if old(ws.state) in {Connecting, Open} then Closing else old(ws.state)
    {
      var pending := peerConnections.Values;
      while pending != {}
        modifies peerConnections.Values
        invariant pending <= old(peerConnections.Values)
        invariant forall p :: p in old(peerConnections.Values) && p !in pending ==> p.closed
        decreases pending
      {
        var pc :| pc in pending;
        pc.Close();
        pending := pending - {pc};
      }
      peerConnections := map[];
      if localStream != null {
        var tracks := localStream.tracks;
        for i := 0 to |tracks|
          modifies localStream.TrackSet()
          invariant forall k :: 0 <= k < i ==> tracks[k].stopped
        {
          tracks[i].Stop();
        }
      }
      if ws != null {
        ws.Close();
      }
    }
  }
}
