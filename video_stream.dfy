/** The signaling relay server: a connection manager holding three tables
    from client id to socket (every connection, the streamers, the viewers)
    and the endpoint loop that turns each inbound message into at most one
    outbound message. Sockets are identified by number; what each socket has
    been sent is its inbox. Which sockets fail when written to is a
    parameter of every sending operation (`failing`). */
module RelayServer {
  import opened Common
  import opened Signaling

  /** An accepted socket; only its identity matters. */
  type Sock = nat

  /** The result of the routing rule: the client id a message is addressed
      to, and the message. */
  datatype Delivery = Delivery(to: Id, message: FromServer)

  /** Python truthiness of an optional string field. */
  predicate Truthy(target: Option<Id>)
  {
    target.Some? && target.value != ""
  }

  /** The routing rule of the endpoint loop, for a sender and one inbound
      message, given the ids of the registered streamers. */
  function Routed(streamers: set<Id>, sender: Id, m: ToServer): (d: Option<Delivery>)
    ensures d.Some? <==>
      || (m.Relay? && Truthy(m.target))
      || (m.RequestStream? && m.streamerId.Some? && m.streamerId.value in streamers)
    ensures m.Relay? && d.Some? ==>
      d.value.to == m.target.value &&
      d.value.message == Forwarded(m.kind, m.payload, sender)
    ensures m.RequestStream? && d.Some? ==>
      d.value.to == m.streamerId.value && d.value.message == StreamRequest(sender)
  {
    match m
    case Relay(kind, payload, target) =>
      if target.Some? && target.value != "" then Some(Delivery(target.value, Forwarded(kind, payload, sender)))
      else None
    case RequestStream(streamerId) =>
      if streamerId.Some? && streamerId.value in streamers then Some(Delivery(streamerId.value, StreamRequest(sender)))
      else None
    case Unrecognized => None
    case Malformed => None
  }

  /** The inboxes after `m` has been written to every socket in `to`. */
  ghost function Deliver(inbox: map<Sock, seq<FromServer>>, to: set<Sock>, m: FromServer): map<Sock, seq<FromServer>>
  {
    map s | s in inbox :: if s in to then inbox[s] + [m] else inbox[s]
  }

  /** The inboxes after a write of `m` to client `id`: it reaches the socket
      registered for `id`, unless there is none or that socket fails. */
  ghost function SendTo(inbox: map<Sock, seq<FromServer>>, active: map<Id, Sock>, failing: set<Sock>,
                        id: Id, m: FromServer): map<Sock, seq<FromServer>>
  {
    if id in active && active[id] in inbox && active[id] !in failing then inbox[active[id] := inbox[active[id]] + [m]]
    else inbox
  }

  /** Every inbox of `before` is a prefix of the same inbox in `after`. */
  ghost predicate Grown(before: map<Sock, seq<FromServer>>, after: map<Sock, seq<FromServer>>)
  {
    before.Keys <= after.Keys && forall s :: s in before ==> before[s] <= after[s]
  }

  lemma GrownTransitive(a: map<Sock, seq<FromServer>>, b: map<Sock, seq<FromServer>>, c: map<Sock, seq<FromServer>>)
    requires Grown(a, b) && Grown(b, c)
    ensures Grown(a, c)
  {
    forall s | s in a ensures a[s] <= c[s] {
      assert b[s][..|a[s]|] == c[s][..|b[s]|][..|a[s]|];
    }
  }

  /** Whether handling `m` raises: a text that is not a JSON object, or a
      delivery whose recipient's socket fails. */
  predicate Raises(active: map<Id, Sock>, streamers: set<Id>, failing: set<Sock>, sender: Id, m: ToServer)
  {
    || m.Malformed?
    || (Routed(streamers, sender, m).Some? &&
        var d := Routed(streamers, sender, m).value; d.to in active && active[d.to] in failing)
  }

  /** The inboxes after the endpoint loop has handled `m`. */
  ghost function Step(inbox: map<Sock, seq<FromServer>>, active: map<Id, Sock>, streamers: set<Id>,
                      failing: set<Sock>, sender: Id, m: ToServer): (r: map<Sock, seq<FromServer>>)
    ensures r.Keys == inbox.Keys
  {
    if m.Malformed? || Routed(streamers, sender, m).None? then inbox
    else
      var d := Routed(streamers, sender, m).value;
      SendTo(inbox, active, failing, d.to, d.message)
  }

  /** The inboxes after the endpoint loop has handled `ms` in order, with the
      tables fixed. */
  ghost function Served(inbox: map<Sock, seq<FromServer>>, active: map<Id, Sock>, streamers: set<Id>,
                        failing: set<Sock>, sender: Id, ms: seq<ToServer>): (r: map<Sock, seq<FromServer>>)
    ensures r.Keys == inbox.Keys
    decreases |ms|
  {
    if ms == [] then inbox
    else Step(Served(inbox, active, streamers, failing, sender, ms[..|ms| - 1]), active, streamers, failing, sender, ms[|ms| - 1])
  }

  /** The inboxes after `disconnect(id)`: a streamer's departure is announced
      to every viewer whose socket does not fail. */
  ghost function Left(inbox: map<Sock, seq<FromServer>>, streamers: map<Id, Sock>, viewers: map<Id, Sock>,
                      id: Id, failing: set<Sock>): map<Sock, seq<FromServer>>
  {
    if id in streamers then Deliver(inbox, viewers.Values - failing, StreamerLeft(id)) else inbox
  }

  /** How a session that `connect` opened with the tables `active`,
      `streamers`, `viewers` and the inboxes `before` ends with the inboxes
      `after`: the first `handled` messages were handled in order, only the
      last of them may have raised, and it did if the loop stopped early;
      then `disconnect(id)` announced a departing streamer. */
  ghost predicate Ended(active: map<Id, Sock>, streamers: map<Id, Sock>, viewers: map<Id, Sock>, failing: set<Sock>,
                        id: Id, incoming: seq<ToServer>, handled: nat,
                        before: map<Sock, seq<FromServer>>, after: map<Sock, seq<FromServer>>)
  {
    && handled <= |incoming|
    && (forall k :: 0 <= k < handled - 1 ==> !Raises(active, streamers.Keys, failing, id, incoming[k]))
    && (handled < |incoming| ==> 0 < handled && Raises(active, streamers.Keys, failing, id, incoming[handled - 1]))
    && after == Left(Served(before, active, streamers.Keys, failing, id, incoming[..handled]), streamers, viewers, id, failing)
  }

  /** With no failing socket and no malformed text, a session handles every message. */
  lemma EndedHandlesAll(active: map<Id, Sock>, streamers: map<Id, Sock>, viewers: map<Id, Sock>,
                        id: Id, incoming: seq<ToServer>, handled: nat,
                        before: map<Sock, seq<FromServer>>, after: map<Sock, seq<FromServer>>)
    requires Ended(active, streamers, viewers, {}, id, incoming, handled, before, after)
    requires forall k :: 0 <= k < |incoming| ==> !incoming[k].Malformed?
    ensures handled == |incoming|
  {
  }

  /** Whether `m`, handled by the endpoint loop, writes to socket `s`. */
  predicate Targets(active: map<Id, Sock>, streamers: set<Id>, sender: Id, m: ToServer, s: Sock)
  {
    !m.Malformed? && Routed(streamers, sender, m).Some? &&
    var d := Routed(streamers, sender, m).value; d.to in active && active[d.to] == s
  }

  /** A socket no handled message is addressed to keeps its inbox. */
  lemma {:induction false} ServedKeepsUntargeted(inbox: map<Sock, seq<FromServer>>, active: map<Id, Sock>, streamers: set<Id>,
                                                 failing: set<Sock>, sender: Id, ms: seq<ToServer>, s: Sock)
    requires s in inbox
    requires forall k :: 0 <= k < |ms| ==> !Targets(active, streamers, sender, ms[k], s)
    ensures Served(inbox, active, streamers, failing, sender, ms)[s] == inbox[s]
    decreases |ms|
  {
    if ms != [] {
      ServedKeepsUntargeted(inbox, active, streamers, failing, sender, ms[..|ms| - 1], s);
      assert !Targets(active, streamers, sender, ms[|ms| - 1], s);
    }
  }

  /** Messages that are routed nowhere (an unknown type, a relay without a
      target, a request for a streamer that is not registered) change no inbox. */
  lemma UnroutedChangesNothing(inbox: map<Sock, seq<FromServer>>, active: map<Id, Sock>, streamers: set<Id>,
                               failing: set<Sock>, sender: Id, ms: seq<ToServer>)
    requires forall k :: 0 <= k < |ms| ==> Routed(streamers, sender, ms[k]).None?
    ensures Served(inbox, active, streamers, failing, sender, ms) == inbox
  {
    var r := Served(inbox, active, streamers, failing, sender, ms);
    forall s | s in inbox ensures r[s] == inbox[s] {
      ServedKeepsUntargeted(inbox, active, streamers, failing, sender, ms, s);
    }
  }

  /** A relayed offer, answer or candidate addressed to a connected client
      whose socket works reaches exactly that client, with the sender filled in. */
  lemma RelayReachesTarget(inbox: map<Sock, seq<FromServer>>, active: map<Id, Sock>, streamers: set<Id>,
                           failing: set<Sock>, sender: Id, kind: RelayKind, payload: Option<Payload>, target: Id)
    requires target != "" && target in active && active[target] in inbox && active[target] !in failing
    ensures var ws := active[target];
      Served(inbox, active, streamers, failing, sender, [Relay(kind, payload, Some(target))]) ==
        inbox[ws := inbox[ws] + [Forwarded(kind, payload, sender)]]
    ensures !Raises(active, streamers, failing, sender, Relay(kind, payload, Some(target)))
  {
    var ms := [Relay(kind, payload, Some(target))];
    assert ms[..0] == [];
  }

  ghost predicate Distinct(ids: seq<Id>)
  {
    forall i, j :: 0 <= i < j < |ids| ==> ids[i] != ids[j]
  }

  /** `list(d.keys())`: every key once, in some order. */
  method KeyList(d: map<Id, Sock>) returns (ids: seq<Id>)
    ensures forall i :: i in ids <==> i in d
    ensures Distinct(ids)
    ensures |ids| == |d|
  {
    ids := [];
    var rest := d.Keys;
    while rest != {}
      invariant rest <= d.Keys
      invariant forall i :: i in ids <==> i in d && i !in rest
      invariant Distinct(ids)
      invariant |ids| + |rest| == |d|
      decreases rest
    {
      var k :| k in rest;
      ids := ids + [k];
      rest := rest - {k};
    }
  }

  class ConnectionManager {
    var active: map<Id, Sock>
    var streamers: map<Id, Sock>
    var viewers: map<Id, Sock>
    /** Everything each accepted socket has been sent, in order. */
    var inbox: map<Sock, seq<FromServer>>

    /** Streamers and viewers are always connections; every registered socket
        was accepted; no socket is registered under two viewer ids. */
    ghost predicate Valid()
      reads this
    {
      && streamers.Keys <= active.Keys
      && viewers.Keys <= active.Keys
      && active.Values <= inbox.Keys
      && streamers.Values <= inbox.Keys
      && viewers.Values <= inbox.Keys
      && forall a, b :: a in viewers && b in viewers && a != b ==> viewers[a] != viewers[b]
    }

    constructor ()
      ensures Valid()
      ensures active == map[] && streamers == map[] && viewers == map[] && inbox == map[]
    {
      active, streamers, viewers, inbox := map[], map[], map[], map[];
    }

    /** `send_to_client`: raises when the registered socket fails; an id
        without a connection is sent nothing and does not raise. */
    method SendToClient(m: FromServer, id: Id, failing: set<Sock>) returns (raised: bool)
      requires Valid()
      modifies this`inbox
      ensures Valid()
      ensures raised <==> id in active && active[id] in failing
      ensures inbox == SendTo(old(inbox), active, failing, id, m)
      ensures id !in active ==> inbox == old(inbox)
    {
      raised := false;
      if id in active {
        var ws := active[id];
        if ws in failing {
          raised := true;
        } else {
          inbox := inbox[ws := inbox[ws] + [m]];
        }
      }
    }

    /** `broadcast_to_viewers`: a socket that fails is skipped and the loop
        goes on with the remaining viewers. */
    method BroadcastToViewers(m: FromServer, failing: set<Sock>)
      requires viewers.Values <= inbox.Keys
      modifies this`inbox
      ensures inbox.Keys == old(inbox.Keys) && Grown(old(inbox), inbox)
      ensures inbox == Deliver(old(inbox), viewers.Values - failing, m)
      ensures forall id :: id in viewers && viewers[id] !in failing ==> inbox[viewers[id]] == old(inbox[viewers[id]]) + [m]
    {
      var pending := viewers.Values;
      while pending != {}
        invariant pending <= viewers.Values
        invariant inbox.Keys == old(inbox.Keys)
        invariant forall s :: s in inbox ==>
          inbox[s] == if s in viewers.Values - pending - failing then old(inbox[s]) + [m] else old(inbox[s])
        decreases pending
      {
        var ws :| ws in pending;
        if ws !in failing {
          inbox := inbox[ws := inbox[ws] + [m]];
        }
        pending := pending - {ws};
      }
    }

    /** `send_active_streamers_to_viewer`: one `active_streamers` message
        listing every streamer id once; raises if the socket fails. */
    method SendActiveStreamersToViewer(ws: Sock, failing: set<Sock>) returns (raised: bool)
      requires Valid() && ws in inbox
      modifies this`inbox
      ensures Valid()
      ensures raised <==> ws in failing
      ensures raised ==> inbox == old(inbox)
      ensures !raised ==> inbox.Keys == old(inbox.Keys)
      ensures !raised ==> forall s :: s in inbox && s != ws ==> inbox[s] == old(inbox[s])
      ensures !raised ==> |inbox[ws]| == |old(inbox[ws])| + 1 && inbox[ws][..|old(inbox[ws])|] == old(inbox[ws])
      ensures !raised ==> var last := inbox[ws][|inbox[ws]| - 1];
        last.ActiveStreamers? && Distinct(last.streamers) && forall i :: i in last.streamers <==> i in streamers
    {
      var ids := KeyList(streamers);
      if ws in failing {
        raised := true;
      } else {
        raised := false;
        inbox := inbox[ws := inbox[ws] + [ActiveStreamers(ids)]];
      }
    }

    /** `connect`: registers the accepted socket under `id` in the tables its
        role names; a new streamer is announced to every viewer registered at
        that moment, a new viewer is sent the streamer list. Only the latter
        can raise. */
    method Connect(ws: Sock, id: Id, role: string, nowMillis: nat, failing: set<Sock>) returns (raised: bool)
      requires Valid() && ws !in inbox
      modifies this
      ensures Valid()
      ensures active == old(active)[id := ws]
      ensures streamers == if role == "streamer" then old(streamers)[id := ws] else old(streamers)
      ensures viewers == if role == "viewer" then old(viewers)[id := ws] else old(viewers)
      ensures raised <==> role == "viewer" && ws in failing
      ensures inbox.Keys == old(inbox.Keys) + {ws} && Grown(old(inbox), inbox)
      ensures role == "streamer" ==>
        inbox == Deliver(old(inbox)[ws := []], old(viewers).Values - failing, NewStreamer(id, NatToString(nowMillis)))
      ensures role == "viewer" ==> forall s :: s in old(inbox) ==> inbox[s] == old(inbox[s])
      ensures role == "viewer" && !raised ==>
        |inbox[ws]| == 1 && inbox[ws][0].ActiveStreamers? && Distinct(inbox[ws][0].streamers) &&
        forall i :: i in inbox[ws][0].streamers <==> i in streamers
      ensures role != "streamer" && (role != "viewer" || raised) ==> inbox == old(inbox)[ws := []]
    {
      inbox := inbox[ws := []];
      active := active[id := ws];
      raised := false;
      if role == "streamer" {
        streamers := streamers[id := ws];
        BroadcastToViewers(NewStreamer(id, NatToString(nowMillis)), failing);
      } else if role == "viewer" {
        viewers := viewers[id := ws];
        raised := SendActiveStreamersToViewer(ws, failing);
      }
    }

    /** `disconnect`: removes `id` from all three tables and leaves every other
        entry alone. `streamer_left` goes out only when `id` was a streamer,
        and before `id` leaves the viewer table. */
    method Disconnect(id: Id, failing: set<Sock>)
      requires Valid()
      modifies this
      ensures Valid()
      ensures active == old(active) - {id}
      ensures streamers == old(streamers) - {id}
      ensures viewers == old(viewers) - {id}
      ensures Grown(old(inbox), inbox)
      ensures inbox == Left(old(inbox), old(streamers), old(viewers), id, failing)
    {
      if id in active {
        active := active - {id};
      }
      if id in streamers {
        streamers := streamers - {id};
        BroadcastToViewers(StreamerLeft(id), failing);
      }
      if id in viewers {
        viewers := viewers - {id};
      }
    }

    /** One turn of the endpoint loop for a message from `sender`: the rule
        `Routed` decides the delivery; a failing write, or an inbound text
        that is not a JSON object, raises. */
    method Route(sender: Id, m: ToServer, failing: set<Sock>) returns (raised: bool)
      requires Valid()
      modifies this`inbox
      ensures Valid()
      ensures Grown(old(inbox), inbox)
      ensures m.Malformed? ==> raised && inbox == old(inbox)
      ensures !m.Malformed? && Routed(streamers.Keys, sender, m).None? ==> !raised && inbox == old(inbox)
      ensures !m.Malformed? && Routed(streamers.Keys, sender, m).Some? ==>
        var d := Routed(streamers.Keys, sender, m).value;
        (raised <==> d.to in active && active[d.to] in failing) &&
        inbox == SendTo(old(inbox), active, failing, d.to, d.message)
      ensures raised == Raises(active, streamers.Keys, failing, sender, m)
      ensures inbox == Step(old(inbox), active, streamers.Keys, failing, sender, m)
    {
      if m.Malformed? {
        return true;
      }
      var d := Routed(streamers.Keys, sender, m);
      raised := false;
      if d.Some? {
        raised := SendToClient(d.value.message, d.value.to, failing);
      }
    }

    /** `websocket_endpoint`: connect, then handle the client's messages in
        order until one raises or the client closes, then disconnect. A raise
        during `connect` leaves the endpoint before its `try`, so the tables
        keep the new entries and nothing more is sent. Returns how many
        messages were handled, and (ghost) the inboxes right after `connect`. */
    method Endpoint(ws: Sock, id: Id, role: string, nowMillis: nat, incoming: seq<ToServer>, failing: set<Sock>)
      returns (handled: nat, ghost joined: map<Sock, seq<FromServer>>)
      requires Valid() && ws !in inbox
      modifies this
      ensures Valid()
      ensures Grown(old(inbox), inbox) && ws in inbox
      // what `connect` sent
      ensures joined.Keys == old(inbox).Keys + {ws} && Grown(old(inbox), joined)
      ensures role == "streamer" ==>
        joined == Deliver(old(inbox)[ws := []], old(viewers).Values - failing, NewStreamer(id, NatToString(nowMillis)))
      ensures role != "streamer" && (role != "viewer" || ws in failing) ==> joined == old(inbox)[ws := []]
      ensures role == "viewer" ==> forall s :: s in old(inbox) ==> joined[s] == old(inbox[s])
      ensures role == "viewer" && ws !in failing ==>
        |joined[ws]| == 1 && joined[ws][0].ActiveStreamers? && Distinct(joined[ws][0].streamers) &&
        forall i :: i in joined[ws][0].streamers <==> i in old(streamers)
      // a raise in `connect`
      ensures role == "viewer" && ws in failing ==>
        handled == 0 && inbox == joined &&
        active == old(active)[id := ws] && viewers == old(viewers)[id := ws] && streamers == old(streamers)
      // the loop and `disconnect`
      ensures !(role == "viewer" && ws in failing) ==>
        var active1 := old(active)[id := ws];
        var streamers1 := if role == "streamer" then old(streamers)[id := ws] else old(streamers);
        var viewers1 := if role == "viewer" then old(viewers)[id := ws] else old(viewers);
        Ended(active1, streamers1, viewers1, failing, id, incoming, handled, joined, inbox) &&
        active == old(active) - {id} && streamers == old(streamers) - {id} && viewers == old(viewers) - {id}
    {
      var raised := Connect(ws, id, role, nowMillis, failing);
      joined := inbox;
      handled := 0;
      if raised {
        return;
      }
      assert active - {id} == old(active) - {id};
      assert streamers - {id} == old(streamers) - {id};
      assert viewers - {id} == old(viewers) - {id};
      handled := Session(id, incoming, failing);
      GrownTransitive(old(inbox), joined, inbox);
    }

    /** The `try` part of the endpoint and the `disconnect` of its `except`
        handlers: the loop, then `disconnect(id)`. */
    method Session(id: Id, incoming: seq<ToServer>, failing: set<Sock>) returns (handled: nat)
      requires Valid()
      modifies this
      ensures Valid() && Grown(old(inbox), inbox)
      ensures active == old(active) - {id} && streamers == old(streamers) - {id} && viewers == old(viewers) - {id}
      ensures Ended(old(active), old(streamers), old(viewers), failing, id, incoming, handled, old(inbox), inbox)
    {
      handled := Serve(id, incoming, failing);
      ghost var beforeLeave := inbox;
      Disconnect(id, failing);
      GrownTransitive(old(inbox), beforeLeave, inbox);
    }

    /** The `while True` receive-and-dispatch loop: messages are handled in
        order, each as `Route` does; the first one that raises ends the
        loop. The tables do not change while it runs. */
    method Serve(id: Id, incoming: seq<ToServer>, failing: set<Sock>) returns (handled: nat)
      requires Valid()
      modifies this`inbox
      ensures Valid() && Grown(old(inbox), inbox)
      ensures handled <= |incoming|
      ensures forall k :: 0 <= k < handled - 1 ==> !Raises(active, streamers.Keys, failing, id, incoming[k])
      ensures handled < |incoming| ==> 0 < handled && Raises(active, streamers.Keys, failing, id, incoming[handled - 1])
      ensures inbox == Served(old(inbox), active, streamers.Keys, failing, id, incoming[..handled])
    {
      handled := 0;
      var stop := false;
      while handled < |incoming| && !stop
        invariant Valid()
        invariant handled <= |incoming|
        invariant Grown(old(inbox), inbox)
        invariant forall k :: 0 <= k < handled - 1 ==> !Raises(active, streamers.Keys, failing, id, incoming[k])
        invariant 0 < handled ==> (stop <==> Raises(active, streamers.Keys, failing, id, incoming[handled - 1]))
        invariant handled == 0 ==> !stop
        invariant inbox == Served(old(inbox), active, streamers.Keys, failing, id, incoming[..handled])
        decreases |incoming| - handled
      {
        ghost var before := inbox;
        var raised := Route(id, incoming[handled], failing);
        GrownTransitive(old(inbox), before, inbox);
        assert incoming[..handled + 1][..handled] == incoming[..handled];
        handled := handled + 1;
        stop := raised;
      }
    }
  }
}
