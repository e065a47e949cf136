/** Abstract models of the browser objects the client registries drive: a
    WebSocket to the relay, a native peer connection, media tracks and
    streams, and the peer connection states. Only what the client code
    observes is kept: SDP and ICE contents are opaque payloads, and the
    results the browser produces asynchronously are parameters. */
module Browser {
  import opened Common
  import opened Signaling

  /** `WebSocket.readyState`. */
  datatype ReadyState = Connecting | Open | Closing | Closed

  /** `RTCPeerConnection.connectionState`. */
  datatype PeerState = PeerNew | PeerConnecting | PeerConnected | PeerDisconnected | PeerFailed | PeerClosed

  /** A socket to the relay: its ready state and every message that left it. */
  class Socket {
    var state: ReadyState
    var sent: seq<ToServer>

    constructor ()
      ensures state == Connecting && sent == []
    {
      state, sent := Connecting, [];
    }

    /** `send`: throws while the socket is still connecting, transmits when it
        is open, and discards the message once it is closing or closed. */
    method Send(m: ToServer) returns (raised: bool)
      modifies this`sent
      ensures raised <==> state == Connecting
      ensures sent == if state == Open then old(sent) + [m] else old(sent)
    {
      raised := state == Connecting;
      if state == Open {
        sent := sent + [m];
      }
    }

    /** `close`: starts the closing handshake; a closing or closed socket is left as it is. */
    method Close()
      modifies this`state
      ensures state == if old(state) in {Connecting, Open} then Closing else old(state)
    {
      if state == Connecting || state == Open {
        state := Closing;
      }
    }
  }

  class Track {
    var stopped: bool

    constructor ()
      ensures !stopped
    {
      stopped := false;
    }

    method Stop()
      modifies this`stopped
      ensures stopped
    {
      stopped := true;
    }
  }

  class MediaStream {
    const tracks: seq<Track>

    constructor (tracks: seq<Track>)
      ensures this.tracks == tracks
    {
      this.tracks := tracks;
    }

    /** `getTracks()` as a set. */
    function TrackSet(): set<Track>
    {
      set t | t in tracks
    }
  }

  /** A native peer connection: whether it is closed, the tracks added to it,
      its local and remote descriptions and the remote ICE candidates it has
      accepted. */
  class PeerConnection {
    var closed: bool
    var tracks: set<Track>
    var localDescription: Option<Payload>
    var remoteDescription: Option<Payload>
    var candidates: seq<Payload>

    constructor ()
      ensures !closed && tracks == {} && candidates == []
      ensures localDescription == None && remoteDescription == None
    {
      closed, tracks, candidates := false, {}, [];
      localDescription, remoteDescription := None, None;
    }

    /** `addTrack`, which throws on a closed connection. */
    method AddTrack(t: Track)
      requires !closed
      modifies this`tracks
      ensures tracks == old(tracks) + {t}
    {
      tracks := tracks + {t};
    }

    /** `setRemoteDescription`: rejected on a closed connection or without a description. */
    method SetRemoteDescription(d: Option<Payload>) returns (ok: bool)
      modifies this`remoteDescription
      ensures ok <==> !closed && d.Some?
      ensures remoteDescription == if ok then d else old(remoteDescription)
    {
      ok := !closed && d.Some?;
      if ok {
        remoteDescription := d;
      }
    }

    /** `setLocalDescription`: rejected on a closed connection. */
    method SetLocalDescription(d: Payload) returns (ok: bool)
      modifies this`localDescription
      ensures ok <==> !closed
      ensures localDescription == if ok then Some(d) else old(localDescription)
    {
      ok := !closed;
      if ok {
        localDescription := Some(d);
      }
    }

    /** `addIceCandidate`: rejected on a closed connection and while there is
        no remote description; a missing candidate adds nothing. Nothing
        buffers a rejected candidate. */
    method AddIceCandidate(c: Option<Payload>) returns (ok: bool)
      modifies this`candidates
      ensures ok <==> !closed && remoteDescription.Some?
      ensures candidates == if ok && c.Some? then old(candidates) + [c.value] else old(candidates)
    {
      ok := !closed && remoteDescription.Some?;
      if ok && c.Some? {
        candidates := candidates + [c.value];
      }
    }

    method Close()
      modifies this`closed
      ensures closed
    {
      closed := true;
    }
  }

  /** `stream.getTracks().forEach(track => pc.addTrack(track, stream))`, the
      loop every client runs to put its local tracks on a connection. */
  method AddTracks(pc: PeerConnection, tracks: seq<Track>)
    requires !pc.closed
    modifies pc`tracks
    ensures pc.tracks == old(pc.tracks) + set t | t in tracks
  {
    for i := 0 to |tracks|
      invariant pc.tracks == old(pc.tracks) + set t | t in tracks[..i]
    {
      pc.AddTrack(tracks[i]);
      assert tracks[..i + 1] == tracks[..i] + [tracks[i]];
    }
    assert tracks[..|tracks|] == tracks;
  }
}
