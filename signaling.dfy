/** The JSON messages of the relay protocol on `/video/ws/{clientId}/{role}`,
    as tagged values. Clients send `ToServer` values on their socket; the
    relay server puts `FromServer` values into the clients' sockets. */
module Signaling {
  import opened Common

  /** Client ids are the strings in the socket path. */
  type Id = string

  /** An SDP session description or an ICE candidate descriptor; the relay
      and the registries only carry it around, never look inside. */
  datatype Payload = Payload(blob: string)

  /** The three negotiation messages the server forwards by id, whose `type`
      fields read "offer", "answer" and "ice-candidate". */
  datatype RelayKind = Offer | Answer | IceCandidate

  /** What a client sends and the server reads.
      - `Relay`: `{type, offer|answer|candidate, target}`; either field may be missing.
      - `RequestStream`: `{type: "request_stream", streamerId}`.
      - `Unrecognized`: a JSON object whose `type` is missing or none of the above.
      - `Malformed`: text that is not a JSON object, so reading it raises. */
  datatype ToServer =
    | Relay(kind: RelayKind, payload: Option<Payload>, target: Option<Id>)
    | RequestStream(streamerId: Option<Id>)
    | Unrecognized
    | Malformed

  /** What the server sends to a client.
      - `Forwarded`: a relayed negotiation message with `from` set to the sender.
      - `StreamRequest`: `{type: "stream_request", from}`, a viewer asking a streamer.
      - `ActiveStreamers`, `NewStreamer`, `StreamerLeft`: the viewers' directory updates. */
  datatype FromServer =
    | Forwarded(kind: RelayKind, payload: Option<Payload>, from: Id)
    | StreamRequest(from: Id)
    | ActiveStreamers(streamers: seq<Id>)
    | NewStreamer(streamerId: Id, timestamp: string)
    | StreamerLeft(streamerId: Id)
}
