# Face-detection streaming: signaling bookkeeping and match helpers

This project is a Dafny model of the logic at the centre of a face-detection
system. In that system, phones stream camera video to browsers over WebRTC,
and a backend matches faces against stored embeddings. The model covers:

- **The signaling relay** (`RelayServer`). A connection manager keeps three
  tables from client id to socket: every connection, the streamers and the
  viewers. Connecting and disconnecting notify the viewers. The endpoint
  loop forwards `offer`, `answer` and `ice-candidate` to their `target` with
  the sender written into `from`. It turns `request_stream` into
  `stream_request`, but only for a registered streamer. Sockets are numbers,
  and what each socket has been sent is its inbox. Which sockets fail when
  written to is a parameter.
- **Three client registries of peer connections.** They are
  `WebRtc.WebRTCConnection`, the streamer page `StreamPage.StreamPage` and
  the viewer page `LiveStreamsPage.LiveStreamsPage`. Each is a class whose
  methods update a map from peer id to connection. The browser objects they
  drive are abstract classes in `Browser`:
  - a socket is a ready state plus the list of messages sent;
  - a peer connection is a closed flag, a track set, local and remote
    descriptions and the accepted remote candidates.

  Whatever the browser produces asynchronously is an input of the handler
  that awaits it: an SDP offer or answer (`created`), a connection state, a
  remote track. Any of them may be missing.
- **The detection overlay** (`Overlay`). From the latest `founded` result
  and the state of the canvas, video and 2-D context, it gives the ordered
  list of canvas operations the component issues.
- **Upload validation** (`Upload`). It checks the MIME prefix, then takes the
  extension with POSIX `os.path.splitext` and lowercases it. The allow-list
  is a parameter. It also builds the stored copy's name and path.
- **Match classification** (`Recognition`). It covers cosine similarity with
  its zero-norm guard, Euclidean distance with numpy broadcasting, the match
  threshold and the confidence bands.
- **Face selection** (`ArcFace`). It takes the first detected face, truncates
  its corner box to integers and converts it to `[x, y, width, height]`.
  The detector's answer is an input: the faces it found, or the fact that it
  raised.

Shared definitions:

- `Common`:
  - `Option`;
  - decimal rendering of integers, with its parse round trip. It is used for
    the relay's millisecond timestamp and for the overlay's percentage.
- `Signaling`: the wire messages, as tagged values.

## Two box formats

The embedding wrapper returns `[x, y, width, height]`
(`backend/models/arcface/index.py:31-43`). The overlay destructures its box
as two corners `[x1, y1, x2, y2]` (`frontend/src/components/camera-view.tsx:44-46`).
Each side is modelled as written, and `BoxFormats` shows what follows when
one feeds the other:

- The stroked width is `width - x` and the stroked height is `height - y`.
- So the rectangle matches the face only for a box at the origin
  (`OverlayMisreadsBox`, `MisreadExample`).
- Read as origin and size, the same four numbers give exactly the box
  (`CorrectedBoxIsStroked`, `FirstFaceIsStroked`).

## Behaviour worth knowing

- The overlay draws the raw box coordinates on a canvas sized to the video.
  Nothing scales them between frame and canvas pixels.
- The overlay draws only for a matched result, always in green. An
  unmatched result clears the canvas.
- Both pages reconnect after every socket close, whatever the close code.
- A remote ICE candidate that arrives before the remote description is
  rejected and dropped. No queue holds it.

## Model

| member | source | states |
|---|---|---|
| Common.NatToString | backend/app/routes/video_stream.py:68 | decimal rendering of a natural number: non-empty, digits only, no leading zero |
| Common.NatToStringRoundTrip | backend/app/routes/video_stream.py:68 | the timestamp text parses back to the millisecond count it was made from |
| Common.IntToString | frontend/src/components/camera-view.tsx:60-62 | rendering of an integer: a leading minus exactly for negatives, digits after it |
| Common.IntToStringRoundTrip | frontend/src/components/camera-view.tsx:60-62 | the rendered percentage parses back to the integer it was made from |
| Common.NegativeRoundTrip | frontend/src/components/camera-view.tsx:60-62 | the round trip for a negative integer: the sign, then the digits of its magnitude |
| RelayServer.Routed | backend/app/routes/video_stream.py:99-136 | a relay message produces a delivery exactly when its target is truthy, and `request_stream` exactly when the named id is a registered streamer; the delivery goes to that id with the same kind, the copied payload and `from` = sender, or is `stream_request` from the sender; unknown types produce nothing |
| RelayServer.KeyList | backend/app/routes/video_stream.py:80 | the list of keys names every key of the table exactly once |
| RelayServer.ConnectionManager.constructor | backend/app/routes/video_stream.py:13-19 | three empty tables |
| RelayServer.ConnectionManager.SendToClient | backend/app/routes/video_stream.py:53-55 | the message is appended to the inbox of the socket registered for the id; an id without a connection is sent nothing and nothing raises; a failing socket raises |
| RelayServer.ConnectionManager.BroadcastToViewers | backend/app/routes/video_stream.py:57-62 | every viewer socket that does not fail gets the message once; a failing socket does not stop delivery to the others; no other inbox changes |
| RelayServer.ConnectionManager.SendActiveStreamersToViewer | backend/app/routes/video_stream.py:79-85 | the viewer receives one `active_streamers` whose list holds each current streamer id exactly once; raises only if its socket fails |
| RelayServer.ConnectionManager.Connect | backend/app/routes/video_stream.py:21-34 | the socket is registered in the connection table and the table of its role; a new streamer is announced with `new_streamer` to every viewer registered before it; a new viewer gets the streamer list; the subset invariant is kept |
| RelayServer.ConnectionManager.Disconnect | backend/app/routes/video_stream.py:36-48 | the id leaves all three tables and every other entry stays; `streamer_left` goes to the working viewer sockets exactly when the id was a streamer (`Left`) |
| RelayServer.ConnectionManager.Route | backend/app/routes/video_stream.py:95-136 | one inbound message changes the inboxes exactly as `Routed` and `SendToClient` say, which is one step of `Served`; it raises exactly when the text is not JSON or the recipient's socket fails (`Raises`) |
| RelayServer.ConnectionManager.Serve | backend/app/routes/video_stream.py:94-136 | the inboxes afterwards are `Served` over the handled prefix of the messages, in order; no handled message but the last raised, and the loop stopped early only because the last one raised |
| RelayServer.ConnectionManager.Session | backend/app/routes/video_stream.py:93-142 | `Ended`: the loop as `Serve` states it, then `disconnect`, which announces a departing streamer to the viewers; afterwards `id` is in none of the three tables and every other entry is as before |
| RelayServer.ConnectionManager.Endpoint | backend/app/routes/video_stream.py:91-142 | what `connect` sends (`new_streamer` to the viewers, or the streamer list to a new viewer) gives the intermediate inboxes; from them the session ends as `Ended` says, over the tables `connect` made; a failed initial send to a new viewer ends the endpoint with its entries in place and nothing more sent |
| RelayServer.EndedHandlesAll | backend/app/routes/video_stream.py:93-136 | with no failing socket and no malformed text, a session handles every message |
| RelayServer.ServedKeepsUntargeted | backend/app/routes/video_stream.py:95-136 | a socket that no handled message is addressed to keeps its inbox through the loop |
| RelayServer.UnroutedChangesNothing | backend/app/routes/video_stream.py:95-136 | messages routed nowhere (an unknown type, a relay without a target, a request for an unregistered streamer) change no inbox |
| RelayServer.RelayReachesTarget | backend/app/routes/video_stream.py:99-127 | a relay to a connected client with a working socket appends exactly the forwarded message, with the sender as `from`, to that client's inbox, and does not raise |
| Browser.Socket.Send | frontend/src/app/stream/page.tsx:148-152 | `send` throws while connecting, transmits when open and drops the message when closing or closed |
| Browser.PeerConnection.AddIceCandidate | frontend/src/lib/webrtc.ts:111-115 | a candidate is accepted only by an open connection with a remote description; a rejected one is not kept anywhere |
| WebRtc.WebRTCConnection.constructor | frontend/src/lib/webrtc.ts:22-29 | `isStreamer` holds exactly for the streamer client type; no socket, no connections, no stream |
| WebRtc.WebRTCConnection.Connect | frontend/src/lib/webrtc.ts:31-34 | a new, still-connecting socket with nothing sent |
| WebRtc.WebRTCConnection.SendMessage | frontend/src/lib/webrtc.ts:189-193 | a message is sent only on an existing open socket, otherwise dropped |
| WebRtc.WebRTCConnection.GetPeerConnection | frontend/src/lib/webrtc.ts:195-197 | the registered connection for the id, or none; in a valid registry a connection found is open and is registered under no other peer id |
| WebRtc.WebRTCConnection.GetOrCreatePeerConnection | frontend/src/lib/webrtc.ts:118-152 | an existing entry is returned and the map is unchanged; otherwise exactly one new entry under the id, holding every local track when this client streams |
| Browser.AddTracks | frontend/src/lib/webrtc.ts:128-130 | `getTracks().forEach(addTrack)`: the connection afterwards holds exactly its earlier tracks plus every track of the stream |
| WebRtc.WebRTCConnection.OnIceCandidate | frontend/src/lib/webrtc.ts:134-142 | a local candidate is sent as `ice-candidate` to the peer; the end-of-candidates event sends nothing |
| WebRtc.WebRTCConnection.HandleOffer | frontend/src/lib/webrtc.ts:78-94 | an unknown sender gets an entry; the offer becomes the remote description, and without one the description stays; with an answer it becomes the local description and is sent to the sender; only the descriptions can change, so tracks and candidates stay; other connections are untouched |
| WebRtc.WebRTCConnection.HandleAnswer | frontend/src/lib/webrtc.ts:96-105 | an unknown sender changes nothing; otherwise only that connection's remote description can change (the frame names that field alone) |
| WebRtc.WebRTCConnection.HandleIceCandidate | frontend/src/lib/webrtc.ts:107-116 | an unknown sender changes nothing; the candidate is appended exactly when there is one and a remote description; only the candidate list can change |
| WebRtc.WebRTCConnection.HandleMessage | frontend/src/lib/webrtc.ts:60-76 | only the three negotiation messages act; everything else leaves the registry and socket alone |
| WebRtc.WebRTCConnection.SetLocalStream | frontend/src/lib/webrtc.ts:154-163 | the stream is remembered and each of its tracks is added to every existing connection; only the track sets change |
| WebRtc.WebRTCConnection.CreateOffer | frontend/src/lib/webrtc.ts:165-180 | the target has an entry, new only if it had none; every other entry keeps its connection, unchanged; a produced offer is set locally and sent as `offer` to the target; only local descriptions can change |
| WebRtc.WebRTCConnection.RequestStream | frontend/src/lib/webrtc.ts:182-187 | `request_stream` for the streamer, sent only on an open socket |
| WebRtc.WebRTCConnection.Disconnect | frontend/src/lib/webrtc.ts:199-210 | every connection is closed, the map is empty, every local track is stopped and the socket is closing |
| StreamPage.ConnectedViewers | frontend/src/app/stream/page.tsx:182-186 | the count of connected entries: at most the registry size, zero exactly when none is connected, the registry size exactly when all are |
| StreamPage.CountAfterUpdate | frontend/src/app/stream/page.tsx:128-135 | filing an entry moves the count by its flags: marking an unconnected viewer connected adds one, marking a connected one disconnected takes one away, a new unconnected entry changes nothing |
| StreamPage.CountAfterRemoval | frontend/src/app/stream/page.tsx:217-238 | removing an entry lowers the count by one exactly when it was connected |
| StreamPage.StreamPage.constructor | frontend/src/app/stream/page.tsx:15-25 | the page's initial state: not streaming, "Connecting...", no viewers |
| StreamPage.StreamPage.ConnectToSignalingServer | frontend/src/app/stream/page.tsx:46-49 | a new, still-connecting socket |
| StreamPage.StreamPage.OnSocketOpen | frontend/src/app/stream/page.tsx:51-55 | connected, status "Connected" |
| StreamPage.StreamPage.OnSocketClose | frontend/src/app/stream/page.tsx:57-66 | every close, whatever its code, marks the page disconnected and schedules exactly one reconnect |
| StreamPage.StreamPage.OnSocketError | frontend/src/app/stream/page.tsx:68-71 | status "Connection Error" |
| StreamPage.StreamPage.OnReconnectTimer | frontend/src/app/stream/page.tsx:63-65 | a scheduled reconnect opens a new socket |
| StreamPage.StreamPage.StartStreaming | frontend/src/app/stream/page.tsx:202-208 | the camera stream is kept and the page is streaming |
| StreamPage.StreamPage.UpdateViewerCount | frontend/src/app/stream/page.tsx:182-186 | the viewer count becomes the number of connected entries |
| StreamPage.StreamPage.HandleNewViewer | frontend/src/app/stream/page.tsx:104-158 | without a local stream or socket nothing changes; otherwise the viewer's entry is replaced by a fresh, unconnected connection holding every local track; the offer goes to the viewer on an open socket; the count is recomputed unless the send threw |
| StreamPage.StreamPage.SendOffer | frontend/src/app/stream/page.tsx:144-154 | a produced offer becomes the local description and is sent to the viewer on an open socket; the count is recomputed unless the send threw; no offer changes nothing |
| StreamPage.StreamPage.HandleAnswer | frontend/src/app/stream/page.tsx:160-169 | an unknown viewer changes nothing; the viewer's remote description is the answer when the connection accepts it; only remote descriptions can change, and other viewers' connections are untouched |
| StreamPage.StreamPage.HandleIceCandidate | frontend/src/app/stream/page.tsx:171-180 | an unknown viewer changes nothing; the candidate is appended exactly when the connection is open and has a remote description; only candidate lists can change |
| StreamPage.StreamPage.HandleSignalingMessage | frontend/src/app/stream/page.tsx:83-102 | only `stream_request`, `answer` and `ice-candidate` act; an `offer` and the directory messages change nothing |
| StreamPage.StreamPage.OnLocalIceCandidate | frontend/src/app/stream/page.tsx:117-125 | a local candidate is sent to that viewer; none is sent for the end-of-candidates event |
| StreamPage.StreamPage.OnViewerConnectionState | frontend/src/app/stream/page.tsx:128-135 | only an existing entry is updated, connected exactly for state `connected`, then the count is recomputed |
| StreamPage.StreamPage.StopStreaming | frontend/src/app/stream/page.tsx:217-238 | local tracks are stopped, every connection is closed, the registry is empty, not streaming, count 0 |
| StreamPage.StreamPage.Unmount | frontend/src/app/stream/page.tsx:38-43 | stop streaming and close the socket |
| LiveStreamsPage.StreamSession.constructor | frontend/src/app/live-streams/page.tsx:147-153 | a new session: unconnected, no stream |
| LiveStreamsPage.NewIds | frontend/src/app/live-streams/page.tsx:92-96 | the streamers requested for a list: exactly those listed and not already known, each once |
| LiveStreamsPage.NewIdsOfFreshList | frontend/src/app/live-streams/page.tsx:92-96 | a list without repeats of unknown streamers is requested whole, in order |
| LiveStreamsPage.NewIdsOfKnown | frontend/src/app/live-streams/page.tsx:92-96 | repeating a list of known streamers requests nothing |
| LiveStreamsPage.Requests | frontend/src/app/live-streams/page.tsx:187-190 | one `request_stream` per id, in order |
| LiveStreamsPage.LiveStreamsPage.constructor | frontend/src/app/live-streams/page.tsx:18-22 | empty registry, "Connecting..." |
| LiveStreamsPage.LiveStreamsPage.ConnectToSignalingServer | frontend/src/app/live-streams/page.tsx:48-52 | a new, still-connecting socket |
| LiveStreamsPage.LiveStreamsPage.OnSocketOpen | frontend/src/app/live-streams/page.tsx:54-58 | connected, status "Connected" |
| LiveStreamsPage.LiveStreamsPage.OnSocketClose | frontend/src/app/live-streams/page.tsx:60-69 | every close, whatever its code, marks the page disconnected and schedules exactly one reconnect |
| LiveStreamsPage.LiveStreamsPage.OnSocketError | frontend/src/app/live-streams/page.tsx:71-74 | status "Connection Error" |
| LiveStreamsPage.LiveStreamsPage.OnReconnectTimer | frontend/src/app/live-streams/page.tsx:66-68 | a scheduled reconnect opens a new socket |
| LiveStreamsPage.LiveStreamsPage.RequestStreamFromStreamer | frontend/src/app/live-streams/page.tsx:138-191 | a no-op unless the socket is open; then an entry with a fresh connection, not connected, no stream and `lastSeen` = now is filed under the streamer and `request_stream` is sent for it |
| LiveStreamsPage.LiveStreamsPage.RequestEach | frontend/src/app/live-streams/page.tsx:92-96 | one streamer of the list: it is requested exactly when it is neither known nor earlier in the list |
| LiveStreamsPage.LiveStreamsPage.HandleActiveStreamers | frontend/src/app/live-streams/page.tsx:90-97 | on an open socket the registry gains exactly the listed streamers, each new entry with a connection, not connected, no stream and `lastSeen` = now; old entries are kept; the requests sent are those for `NewIds`; otherwise nothing changes |
| LiveStreamsPage.LiveStreamsPage.HandleNewStreamer | frontend/src/app/live-streams/page.tsx:99-104 | a streamer without an entry is requested and filed with a connection, not connected, no stream, `lastSeen` = now; a known one changes nothing |
| LiveStreamsPage.LiveStreamsPage.HandleStreamerLeft | frontend/src/app/live-streams/page.tsx:106-119 | exactly that entry is removed and its connection closed; an unknown id changes nothing |
| LiveStreamsPage.LiveStreamsPage.HandleOffer | frontend/src/app/live-streams/page.tsx:193-212 | a known streamer's offer is set and answered, the answer sent to it only on an open socket; only the descriptions of that connection can change; an unknown streamer changes nothing and sends nothing |
| LiveStreamsPage.LiveStreamsPage.HandleAnswer | frontend/src/app/live-streams/page.tsx:214-223 | applied to a known streamer's connection only; only its remote description can change |
| LiveStreamsPage.LiveStreamsPage.HandleIceCandidate | frontend/src/app/live-streams/page.tsx:225-234 | applied to a known streamer's connection only; a rejected candidate is dropped; only its candidate list can change |
| LiveStreamsPage.LiveStreamsPage.HandleSignalingMessage | frontend/src/app/live-streams/page.tsx:86-136 | dispatch on the type; `stream_request` changes nothing; negotiation messages keep the registry; `streamer_left` removes the entry |
| LiveStreamsPage.LiveStreamsPage.OnTrack | frontend/src/app/live-streams/page.tsx:156-161 | the session gets the event's stream, or none when the event carries none, and is connected; the entry filed under the streamer has connected = true, that stream, and the session's connection and `lastSeen` |
| LiveStreamsPage.LiveStreamsPage.OnConnectionState | frontend/src/app/live-streams/page.tsx:175-182 | `disconnected` or `failed` marks the session unconnected and refiles it with connected = false and its other fields kept; other states change nothing |
| LiveStreamsPage.LiveStreamsPage.OnLocalIceCandidate | frontend/src/app/live-streams/page.tsx:164-172 | a local candidate is sent as `ice-candidate` to the streamer; none for the end-of-candidates event |
| LiveStreamsPage.LiveStreamsPage.Unmount | frontend/src/app/live-streams/page.tsx:35-45 | the socket is closed and every registered connection closed |
| Overlay.Round | frontend/src/components/camera-view.tsx:60-62 | `Math.round` gives the nearest integer, halves upward |
| Overlay.Label | frontend/src/components/camera-view.tsx:59-62 | the label starts with the shown name and ends with "%)"; `LabelReadsBack` gives the whole decomposition |
| Overlay.DrawBoundingBox | frontend/src/components/camera-view.tsx:27-66 | nothing exactly when canvas, video or context is missing; otherwise ten operations, the first sizing the canvas, the second clearing all of it, the last writing the label at `(x1 + 5, y1 - 8)` |
| Overlay.CallsForBox | frontend/src/components/camera-view.tsx:69 | `founded?.matched && founded.bbox`; `StrokedIffCalledFor` relates it to the stroke |
| Overlay.Effect | frontend/src/components/camera-view.tsx:68-78 | nothing exactly when the needed objects are missing; otherwise the first operations wipe the canvas: a sized, cleared canvas before a box, or a single clear at the current size when no box is called for |
| Overlay.DrawGeometry | frontend/src/components/camera-view.tsx:36-65 | the canvas is sized to the video (640 by 480 in place of a zero width or height) and wholly cleared first; box stroked at `(x1, y1, x2-x1, y2-y1)`; a 25-pixel band of the same width directly above it; text inside the band |
| Overlay.NothingWithoutSurface | frontend/src/components/camera-view.tsx:31-34 | no canvas, video or context: nothing is drawn |
| Overlay.StrokedIffCalledFor | frontend/src/components/camera-view.tsx:68-78 | a box is stroked exactly when `matched` and a box are present and the surface is complete; otherwise at most a clear |
| Overlay.LabelReadsBack | frontend/src/components/camera-view.tsx:59-62 | the label is the name ("Detected" when it is missing or empty), " (", digits that parse to the rounded percentage of the similarity (0 when it is missing), "%)" |
| Overlay.LabelPercentage | frontend/src/components/camera-view.tsx:60-62 | a similarity within half a percent of p shows as p |
| Overlay.MissingSimilarityShowsZero | frontend/src/components/camera-view.tsx:60-62 | a result without a similarity is labelled with "(0%)" |
| Upload.LastIndexOf | backend/ml/utils.py:15 | the last position of a character, or -1 |
| Upload.SplitExt | backend/ml/utils.py:15 | root and extension concatenate to the name; the extension is empty or a dot followed by no dot or slash |
| Upload.Lower | backend/ml/utils.py:15 | the ASCII lowercase of each character |
| Upload.FileExtension | backend/ml/utils.py:15 | the extension is empty or one dot and no other, with no slash and no uppercase letter |
| Upload.ValidateImageFile | backend/ml/utils.py:9-22 | success exactly when the content type starts with `image/` and the extension is allowed, and then true; the content type is checked first; both refusals are status 400 |
| Upload.SplitExtLower | backend/ml/utils.py:15 | splitting commutes with lowercasing |
| Upload.ExtensionIgnoresCase | backend/ml/utils.py:15 | a name and its lowercase have the same extension |
| Upload.ValidationIgnoresCase | backend/ml/utils.py:15-16 | names equal up to case, such as `a.JPG` and `a.jpg`, are validated identically |
| Upload.ExtensionFromLastDot | backend/ml/utils.py:15 | without slashes and with a non-dot first character, the extension runs from the last dot |
| Upload.ExtensionOfMixedCase | backend/ml/utils.py:15 | `photo.JPG` has extension `.jpg` |
| Upload.ExtensionOfDoubleSuffix | backend/ml/utils.py:15 | `archive.tar.gz` has extension `.gz` |
| Upload.NoExtensionForDotfiles | backend/ml/utils.py:15 | `.jpg` and `..png` have no extension |
| Upload.NoExtensionWithoutDotInName | backend/ml/utils.py:15 | a dot only in a directory name, or no dot, gives no extension |
| Upload.JoinPath | backend/ml/utils.py:34 | the directory, then one slash unless it is empty or already ends in one, then the name |
| Upload.SavedFilename | backend/ml/utils.py:32-33 | the stored name begins with the UUID and, for UUID text, holds no slash |
| Upload.SavedPath | backend/ml/utils.py:32-34 | the path begins with the directory, ends with the stored name, and a slash separates them when the directory is not empty |
| Upload.SavedFilenameKeepsExtension | backend/ml/utils.py:32-33 | the stored copy's name has the same extension the upload was judged by |
| Recognition.SquaredNormIsDot | backend/ml/recognition.py:11-13 | the squared norm is the dot product of a vector with itself |
| Recognition.ZeroNormIffZeroVector | backend/ml/recognition.py:12-15 | the norm is zero exactly for the zero vector |
| Recognition.CosineSimilarity | backend/ml/recognition.py:7-20 | 0.0 when the lengths differ or either norm is zero; otherwise the value times the product of the norms is the dot product |
| Recognition.ZeroVectorHasZeroSimilarity | backend/ml/recognition.py:14-15 | a zero embedding on either side has similarity 0.0 |
| Recognition.Difference | backend/ml/recognition.py:26 | `a - b` elementwise, with a one-element side broadcast |
| Recognition.EuclideanDistance | backend/ml/recognition.py:23-29 | infinity exactly when `a - b` raises; otherwise a non-negative value whose square is the squared norm of the difference |
| Recognition.DistanceZeroIffEqual | backend/ml/recognition.py:23-29 | vectors of one length are at distance 0 exactly when they are equal |
| Recognition.DistanceSymmetric | backend/ml/recognition.py:23-29 | the distance from b to a is the distance from a to b |
| Recognition.CompareFaces | backend/ml/recognition.py:32-36 | a match exactly when the similarity reaches the threshold; the similarity is returned unchanged |
| Recognition.ZeroEmbeddingNeverMatches | backend/ml/recognition.py:32-36 | with a positive threshold, such as the default 0.4, a zero embedding matches nothing |
| Recognition.MatchMonotoneInThreshold | backend/ml/recognition.py:32-36 | lowering the threshold never loses a match |
| Recognition.ConfidenceLevel | backend/ml/recognition.py:39-46 | always "high", "medium" or "low": high exactly from 0.7, medium exactly in [0.5, 0.7), low exactly below 0.5 |
| Recognition.ConfidenceMonotone | backend/ml/recognition.py:39-46 | a higher similarity never gets a lower level |
| Recognition.MatchCanBeLowConfidence | backend/ml/recognition.py:32-46 | a match at the default threshold can still be of low confidence |
| ArcFace.Truncate | backend/models/arcface/index.py:38 | `astype(int)` truncates toward zero |
| ArcFace.TruncationTowardZero | backend/models/arcface/index.py:38 | -0.5 and 0.5 give 0, -1.5 gives -1, 1.5 gives 1 |
| ArcFace.ToXywh | backend/models/arcface/index.py:40-43 | x and y are kept, `x + width = x2` and `y + height = y2` |
| ArcFace.CornersOfToXywh | backend/models/arcface/index.py:40-43 | the corners are recovered from the converted box |
| ArcFace.ToXywhOfCorners | backend/models/arcface/index.py:40-43 | converting the corners of an origin-and-size box gives it back |
| ArcFace.OrderedCornersHaveSize | backend/models/arcface/index.py:40-43 | ordered corners give a non-negative width and height |
| ArcFace.FormatBox | backend/models/arcface/index.py:38-43 | the returned box's corners are the truncated detector corners |
| ArcFace.WholeBoxKeepsSize | backend/models/arcface/index.py:38-43 | a whole-number detector box keeps its exact size |
| ArcFace.GetEmbeddingFromFrame | backend/models/arcface/index.py:13-25 | the first face's embedding exactly when faces were found; None when none were or the detector raised |
| ArcFace.GetEmbeddingAndBbox | backend/models/arcface/index.py:27-49 | the first face's embedding with its converted box; both None exactly when no face was found or the detector raised |
| ArcFace.EmbeddingsAgree | backend/models/arcface/index.py:19-36 | both entry points choose the same face |
| ArcFace.OnlyFirstFaceCounts | backend/models/arcface/index.py:19-36 | faces after the first never change either answer |
| BoxFormats.ReadAsCorners | frontend/src/components/camera-view.tsx:44 | the overlay takes the third and fourth numbers for the far corner |
| BoxFormats.ReadAsXywh | backend/models/arcface/index.py:31-43 | the far corner is the origin plus the size |
| BoxFormats.OverlayMisreadsBox | frontend/src/components/camera-view.tsx:44-50 | a wrapper box drawn as written is stroked `width - x` wide and `height - y` high, which is right only at the origin |
| BoxFormats.MisreadExample | frontend/src/components/camera-view.tsx:44-50 | an 80 by 120 face at (100, 50) is stroked -20 wide and 70 high |
| BoxFormats.CorrectedBoxIsStroked | frontend/src/components/camera-view.tsx:44-50 | read as origin and size, the stroke is exactly the box |
| BoxFormats.FirstFaceIsStroked | backend/models/arcface/index.py:36-45 | read as origin and size, the first face's truncated corners are stroked |

## Left out

- Asynchrony is not modelled: `await` ordering, `setTimeout` delays, the socket transport and event scheduling. Each handler runs to completion. Reconnects are a count of scheduled attempts.
- Browser internals are not modelled: SDP and ICE contents, `getUserMedia`, `switchCamera` and the STUN configuration. Whatever the browser produces is an input of the handler that awaits it, and `None` stands for a rejection.
- `supportsWebRTC`, `isMobileDevice` and `getMediaConstraints` are environment probes and constant tables.
- The `onMessage` and `onConnectionStateChange` callbacks of `WebRTCConnection` belong to its callers. The Dafny model does not include those callers.
- JSON encoding is not modelled. Messages are tagged values. Fields that are present but not strings are not modelled.
- Text that is not a JSON object is the `Malformed` message. Reading it raises in the relay and ends that client's loop.
- `RelayServer.KeyList` returns the keys in some order; Python's dict order is insertion order, which the model does not fix.
- The relay's timestamp is a parameter (`nowMillis`), because the clock is I/O. So is the viewer page's `lastSeen`.
- Logging and `print` calls are left out.
- On both pages, the handlers registered on mount see the state of the first render. A `localStream` set later is never seen by `handleNewViewer`.
- On the viewer page, `prev.set` mutates the first render's `streams` map in place. The model keeps one current registry per page, which is the evidently intended behaviour.
- `StreamPage.StreamPage.HandleNewViewer`: when the offer is not produced, or the send throws, the model states what is left. A failure of `setLocalDescription` is merged into a missing offer.
- `LiveStreamsPage.LiveStreamsPage.HandleOffer`: a rejected remote description and a missing answer are merged into one failure that ends the handler.
- `addTrack` throws on a track the connection already carries. The model adds tracks to a set, so the duplicate throw in `setLocalStream` is not modelled.
- `Upload.ValidateImageFile`: the detail text of the extension error is "File extension not allowed". The source appends the allow-list, whose text comes from the configuration, which the Dafny model does not include.
- `Upload.Lower` folds ASCII letters only. Python's `str.lower` also folds other Unicode letters.
- A missing filename or content type is not modelled. Python would raise on `None`.
- `save_uploaded_file` is left out as I/O: the directory creation, the write and its 500 error. Also left out are `delete_file`, `ensure_directory` and `get_file_size_mb`. The name and path it builds are modelled: `SavedFilename` and `JoinPath`. The UUID is a parameter.
- Floating point is not modelled. Similarities, embeddings and norms are exact reals, so NaN, infinities and rounding error are absent.
- `Recognition.CosineSimilarity`: the norms are parameters, each required to be the non-negative square root of the squared norm (`IsNorm`), because there is no real square root to call.
- Recognition covers one-dimensional embeddings only. Arrays of other shapes are not modelled.
- `ArcFace.Truncate` yields unbounded integers. numpy's `int64` overflow for huge coordinates is not modelled.
- The detector model loading in `ArcFaceModel.__init__` and the `__main__` script are left out.
- `Overlay.Label`: the percentage is printed as an integer. JavaScript prints huge numbers in exponent notation, which is not modelled.
- `Overlay.Round`: the model takes the similarity as an exact real.
