/** The signaling router of daemon/websocket_handler.py, run one step at a
    time: the `connections` table (username to socket), presence broadcasts,
    and the forwarding of connection requests, answers and ICE candidates.
    Every send is an append of a `Delivery` to `outbox`. */
module Signaling {
  import opened Collections
  import Sessions

  type Username = string

  /** The handle of one client's websocket. */
  type Socket = nat

  datatype Status = Online | Offline

  /** The messages the router sends, one constructor per `type`. */
  datatype Message =
    | Error(text: string)
    | Registered(username: Username, text: string)
    | PeerStatus(status: Status, username: Username, timestamp: nat)
    | ConnectionRequest(fromUsername: Username, offer: string, timestamp: nat)
    | RequestSent(toUsername: Username, text: string)
    | ConnectionAnswer(fromUsername: Username, answer: string, timestamp: nat)
    | IceCandidate(fromUsername: Username, candidate: string, timestamp: nat)
    | PeerList(peers: seq<Sessions.PeerEntry>, count: nat)
    | HeartbeatAck(timestamp: nat)

  datatype Delivery = Delivery(to: Socket, message: Message)

  /** A decoded inbound message: the fields the handlers read with `data.get`. */
  datatype Request = Request(
    kind: Option<string>,
    toUsername: Option<string>,
    offer: Option<string>,
    answer: Option<string>,
    candidate: Option<string>)

  const UsernameRequired := "Username required"
  const Welcome := "WebSocket connected successfully"
  const InvalidRequest := "Invalid connection request"
  const InvalidAnswer := "Invalid connection answer"
  const RequestAcknowledged := "Connection request sent"

  function OfflineText(username: Username): string {
    "Peer " + username + " is offline"
  }

  /** Python truthiness of an optional string field: present and not empty. */
  predicate Given(field: Option<string>) {
    field.Some? && field.value != ""
  }

  /** The name `broadcast_to_all` skips: `exclude` unless it is None or empty. */
  function Excluded(exclude: Option<Username>): Option<Username> {
    if Given(exclude) then exclude else None
  }

  /** The deliveries a broadcast loop has made after visiting the first `n`
      names: one copy of `message` to the socket of each name but `skip`. */
  function Broadcast(names: seq<Username>, n: nat, skip: Option<Username>, sockets: map<Username, Socket>,
                     message: Message): seq<Delivery>
    requires n <= |names|
    requires forall u :: u in names ==> u in sockets
  {
    if n == 0 then []
    else
      Broadcast(names, n - 1, skip, sockets, message)
      + (if Some(names[n - 1]) != skip then [Delivery(sockets[names[n - 1]], message)] else [])
  }

  /** What a broadcast over the whole connection table sends. */
  function ToAllBut(connections: Dict<Username, Socket>, skip: Option<Username>, message: Message): seq<Delivery>
    requires connections.Valid()
  {
    Broadcast(connections.keys, |connections.keys|, skip, connections.entries, message)
  }

  /** Each delivery goes to the socket of a visited name other than `skip`. */
  lemma {:induction false} BroadcastSends(names: seq<Username>, n: nat, skip: Option<Username>,
                                          sockets: map<Username, Socket>, message: Message)
    requires n <= |names|
    requires forall u :: u in names ==> u in sockets
    ensures forall d :: d in Broadcast(names, n, skip, sockets, message) ==>
      d.message == message && exists j :: 0 <= j < n && Some(names[j]) != skip && d.to == sockets[names[j]]
  {
    if n > 0 {
      BroadcastSends(names, n - 1, skip, sockets, message);
    }
  }

  /** Each visited name other than `skip` gets a delivery. */
  lemma {:induction false} BroadcastReaches(names: seq<Username>, n: nat, skip: Option<Username>,
                                            sockets: map<Username, Socket>, message: Message)
    requires n <= |names|
    requires forall u :: u in names ==> u in sockets
    ensures forall j :: 0 <= j < n && Some(names[j]) != skip ==>
      Delivery(sockets[names[j]], message) in Broadcast(names, n, skip, sockets, message)
  {
    if n > 0 {
      BroadcastReaches(names, n - 1, skip, sockets, message);
    }
  }

  /** Over names without repeats, only `skip` (when visited) goes without a delivery. */
  lemma {:induction false} BroadcastCount(names: seq<Username>, n: nat, skip: Option<Username>,
                                          sockets: map<Username, Socket>, message: Message)
    requires n <= |names|
    requires forall u :: u in names ==> u in sockets
    requires Distinct(names)
    ensures |Broadcast(names, n, skip, sockets, message)| == n - (if skip.Some? && skip.value in names[..n] then 1 else 0)
  {
    if n > 0 {
      BroadcastCount(names, n - 1, skip, sockets, message);
      assert names[..n] == names[..n - 1] + [names[n - 1]];
      assert names[n - 1] !in names[..n - 1];
    }
  }

  /** What `send_to_client` sends: one delivery when the user is connected, none otherwise. */
  function ToClient(connections: Dict<Username, Socket>, username: Username, message: Message): (r: seq<Delivery>)
    ensures username !in connections.entries ==> r == []
    ensures username in connections.entries ==> r == [Delivery(connections.entries[username], message)]
  {
    if username in connections.entries then [Delivery(connections.entries[username], message)] else []
  }

  /** What `handle_connection_request` sends for `data` from `sender`. */
  function RequestReplies(connections: Dict<Username, Socket>, sender: Username, data: Request, now: nat): seq<Delivery> {
    if !Given(data.toUsername) || !Given(data.offer) then
      ToClient(connections, sender, Error(InvalidRequest))
    else
      var target := data.toUsername.value;
      if target in connections.entries then
        ToClient(connections, target, ConnectionRequest(sender, data.offer.value, now))
        + ToClient(connections, sender, RequestSent(target, RequestAcknowledged))
      else
        ToClient(connections, sender, Error(OfflineText(target)))
  }

  /** What `handle_connection_answer` sends for `data` from `sender`. */
  function AnswerReplies(connections: Dict<Username, Socket>, sender: Username, data: Request, now: nat): seq<Delivery> {
    if !Given(data.toUsername) || !Given(data.answer) then
      ToClient(connections, sender, Error(InvalidAnswer))
    else
      var target := data.toUsername.value;
      if target in connections.entries then
        ToClient(connections, target, ConnectionAnswer(sender, data.answer.value, now))
      else
        ToClient(connections, sender, Error(OfflineText(target)))
  }

  /** What `handle_ice_candidate` sends for `data` from `sender`. */
  function IceReplies(connections: Dict<Username, Socket>, sender: Username, data: Request, now: nat): seq<Delivery> {
    if !Given(data.toUsername) || !Given(data.candidate) then []
    else
      var target := data.toUsername.value;
      if target in connections.entries then
        ToClient(connections, target, IceCandidate(sender, data.candidate.value, now))
      else []
  }

  /** The peer list `send_peer_list` sends: the live endpoints minus the requester's own. */
  function WithoutUser(peers: seq<Sessions.PeerEntry>, username: Username): (r: seq<Sessions.PeerEntry>)
    ensures forall p :: p in r <==> p in peers && p.username != username
    ensures |r| <= |peers|
  {
    if peers == [] then []
    else (if peers[0].username != username then [peers[0]] else []) + WithoutUser(peers[1..], username)
  }

  /** When nobody in the list is the requester, the filter returns the list unchanged. */
  lemma {:induction false} WithoutAbsentUser(peers: seq<Sessions.PeerEntry>, username: Username)
    requires forall p :: p in peers ==> p.username != username
    ensures WithoutUser(peers, username) == peers
  {
    if peers != [] {
      WithoutAbsentUser(peers[1..], username);
    }
  }

  /** The filter works piecewise: it keeps the order of the peers it retains, and their repeats. */
  lemma {:induction false} WithoutUserConcat(a: seq<Sessions.PeerEntry>, b: seq<Sessions.PeerEntry>, username: Username)
    ensures WithoutUser(a + b, username) == WithoutUser(a, username) + WithoutUser(b, username)
  {
    if a == [] {
      assert a + b == b;
    } else {
      assert (a + b)[0] == a[0];
      assert (a + b)[1..] == a[1..] + b;
      WithoutUserConcat(a[1..], b, username);
    }
  }

  /** A broadcast reaches every connected user but `skip`, once each, and nobody else. */
  lemma BroadcastRecipients(connections: Dict<Username, Socket>, skip: Option<Username>, message: Message)
    requires connections.Valid()
    ensures forall d :: d in ToAllBut(connections, skip, message) ==>
      d.message == message && exists u :: u in connections.entries && Some(u) != skip && d.to == connections.entries[u]
    ensures forall u :: u in connections.entries && Some(u) != skip ==>
      Delivery(connections.entries[u], message) in ToAllBut(connections, skip, message)
    ensures |ToAllBut(connections, skip, message)|
      == |connections.entries| - (if skip.Some? && skip.value in connections.entries then 1 else 0)
  {
    var names, sockets := connections.keys, connections.entries;
    BroadcastSends(names, |names|, skip, sockets, message);
    BroadcastReaches(names, |names|, skip, sockets, message);
    BroadcastCount(names, |names|, skip, sockets, message);
    assert names[..|names|] == names;
    forall d | d in ToAllBut(connections, skip, message)
      ensures exists u :: u in sockets && Some(u) != skip && d.to == sockets[u]
    {
      var j :| 0 <= j < |names| && Some(names[j]) != skip && d.to == sockets[names[j]];
      assert names[j] in names;
    }
    forall u | u in sockets && Some(u) != skip
      ensures Delivery(sockets[u], message) in ToAllBut(connections, skip, message)
    {
      var j :| 0 <= j < |names| && names[j] == u;
    }
    DistinctKeysCount(connections);
  }

  lemma DistinctKeysCount(d: Dict<Username, Socket>)
    requires d.Valid()
    ensures |d.keys| == |d.entries|
  {
    DistinctSeqCount(d.keys);
    assert d.entries.Keys == (set u | u in d.keys);
  }

  lemma {:induction false} DistinctSeqCount(s: seq<Username>)
    requires Distinct(s)
    ensures |set u | u in s| == |s|
  {
    if s != [] {
      var init, last := s[..|s| - 1], s[|s| - 1];
      assert s == init + [last];
      assert Distinct(init) && last !in init;
      DistinctSeqCount(init);
      assert (set u | u in s) == (set u | u in init) + {last};
    }
  }

  /** A valid `connection_request` to an online user sends it the offer, then acknowledges the sender. */
  lemma RequestToOnlineTarget(connections: Dict<Username, Socket>, sender: Username, data: Request, now: nat)
    requires Given(data.toUsername) && Given(data.offer)
    requires data.toUsername.value in connections.entries
    ensures var r := RequestReplies(connections, sender, data, now);
      && |r| == (if sender in connections.entries then 2 else 1)
      && r[0] == Delivery(connections.entries[data.toUsername.value], ConnectionRequest(sender, data.offer.value, now))
      && (sender in connections.entries ==>
            r[1] == Delivery(connections.entries[sender], RequestSent(data.toUsername.value, RequestAcknowledged)))
  {
  }

  /** A `connection_request` that is malformed, or to an offline user, only sends the sender an error. */
  lemma RequestRejected(connections: Dict<Username, Socket>, sender: Username, data: Request, now: nat)
    requires !Given(data.toUsername) || !Given(data.offer) || data.toUsername.value !in connections.entries
    ensures var r := RequestReplies(connections, sender, data, now);
      && |r| == (if sender in connections.entries then 1 else 0)
      && (forall d :: d in r ==> d.to == connections.entries[sender] && d.message.Error?)
      && (Given(data.toUsername) && Given(data.offer) ==>
            forall d :: d in r ==> d.message == Error(OfflineText(data.toUsername.value)))
  {
  }

  /** A valid `connection_answer` to an online user sends it the answer and nothing to the sender. */
  lemma AnswerToOnlineTarget(connections: Dict<Username, Socket>, sender: Username, data: Request, now: nat)
    requires Given(data.toUsername) && Given(data.answer)
    requires data.toUsername.value in connections.entries
    ensures AnswerReplies(connections, sender, data, now)
      == [Delivery(connections.entries[data.toUsername.value], ConnectionAnswer(sender, data.answer.value, now))]
  {
  }

  /** A `connection_answer` that is malformed, or to an offline user, only sends the sender an error. */
  lemma AnswerRejected(connections: Dict<Username, Socket>, sender: Username, data: Request, now: nat)
    requires !Given(data.toUsername) || !Given(data.answer) || data.toUsername.value !in connections.entries
    ensures var r := AnswerReplies(connections, sender, data, now);
      && |r| == (if sender in connections.entries then 1 else 0)
      && (forall d :: d in r ==> d.to == connections.entries[sender] && d.message.Error?)
  {
  }

  /** `ice_candidate` never answers the sender: one candidate to an online target, else nothing. */
  lemma IceOnlyToTarget(connections: Dict<Username, Socket>, sender: Username, data: Request, now: nat)
    ensures var r := IceReplies(connections, sender, data, now);
      && (Given(data.toUsername) && Given(data.candidate) && data.toUsername.value in connections.entries ==>
            r == [Delivery(connections.entries[data.toUsername.value], IceCandidate(sender, data.candidate.value, now))])
      && (!(Given(data.toUsername) && Given(data.candidate) && data.toUsername.value in connections.entries) ==> r == [])
  {
  }

  class WebSocketHandler {
    const sessionManager: Sessions.SessionManager
    var connections: Dict<Username, Socket>
    var outbox: seq<Delivery>

    /** Nobody is connected under an empty name. */
    ghost predicate Valid()
      reads this
    {
      && connections.Valid()
      && (forall u :: u in connections.entries ==> u != "")
    }

    constructor (sessionManager: Sessions.SessionManager)
      ensures Valid()
      ensures this.sessionManager == sessionManager
      ensures connections == EmptyDict() && outbox == []
    {
      this.sessionManager := sessionManager;
      connections := EmptyDict();
      outbox := [];
    }

    /** `send_to_client` */
    method SendToClient(username: Username, message: Message)
      modifies this`outbox
      ensures outbox == old(outbox) + ToClient(connections, username, message)
    {
      if username in connections.entries {
        outbox := outbox + [Delivery(connections.entries[username], message)];
      }
    }

    /** `broadcast_peer_status`: `peer_online`/`peer_offline` for `username` to
        every other connected user. */
    method BroadcastPeerStatus(username: Username, status: Status, now: nat)
      requires Valid()
      modifies this`outbox
      ensures outbox == old(outbox)
        + ToAllBut(connections, Some(username), PeerStatus(status, username, now))
    {
      var message := PeerStatus(status, username, now);
      var names, sockets := connections.keys, connections.entries;
      ghost var start := outbox;
      var i := 0;
      while i < |names|
        invariant 0 <= i <= |names|
        invariant outbox == start + Broadcast(names, i, Some(username), sockets, message)
      {
        var clientUsername := names[i];
        if clientUsername != username {
          ghost var sent := Broadcast(names, i, Some(username), sockets, message);
          assert (start + sent) + [Delivery(sockets[clientUsername], message)]
              == start + (sent + [Delivery(sockets[clientUsername], message)]);
          outbox := outbox + [Delivery(sockets[clientUsername], message)];
        }
        i := i + 1;
      }
    }

    /** `broadcast_to_all`: `message` to every connected user except a given `exclude`. */
    method BroadcastToAll(message: Message, exclude: Option<Username>)
      requires Valid()
      modifies this`outbox
      ensures outbox == old(outbox)
        + ToAllBut(connections, Excluded(exclude), message)
    {
      var skip := Excluded(exclude);
      var names, sockets := connections.keys, connections.entries;
      ghost var start := outbox;
      var i := 0;
      while i < |names|
        invariant 0 <= i <= |names|
        invariant outbox == start + Broadcast(names, i, skip, sockets, message)
      {
        var username := names[i];
        if Some(username) == skip {
          i := i + 1;
          continue;
        }
        ghost var sent := Broadcast(names, i, skip, sockets, message);
        assert (start + sent) + [Delivery(sockets[username], message)]
            == start + (sent + [Delivery(sockets[username], message)]);
        outbox := outbox + [Delivery(sockets[username], message)];
        i := i + 1;
      }
    }

    /** The start of `handle_client`: a client without a name gets one error;
        otherwise its socket becomes the user's connection (replacing any
        earlier one), it is told it is registered, and the others that it is online. */
    method Attach(socket: Socket, requested: Option<Username>, now: nat) returns (accepted: bool)
      requires Valid()
      modifies this`connections, this`outbox
      ensures Valid()
      ensures accepted <==> Given(requested)
      ensures !accepted ==>
        connections == old(connections) && outbox == old(outbox) + [Delivery(socket, Error(UsernameRequired))]
      ensures accepted ==>
        var username := requested.value;
        && connections == Put(old(connections), username, socket)
        && outbox == old(outbox) + [Delivery(socket, Registered(username, Welcome))]
           + ToAllBut(connections, Some(username), PeerStatus(Online, username, now))
    {
      if !Given(requested) {
        outbox := outbox + [Delivery(socket, Error(UsernameRequired))];
        return false;
      }
      var username := requested.value;
      connections := Put(connections, username, socket);
      outbox := outbox + [Delivery(socket, Registered(username, Welcome))];
      BroadcastPeerStatus(username, Online, now);
      return true;
    }

    /** The `finally` of `handle_client`: drop the user's connection, whichever
        socket it is now, and tell the others it is offline. */
    method Detach(requested: Option<Username>, now: nat)
      requires Valid()
      modifies this`connections, this`outbox
      ensures Valid()
      ensures !(Given(requested) && requested.value in old(connections.entries)) ==>
        connections == old(connections) && outbox == old(outbox)
      ensures Given(requested) && requested.value in old(connections.entries) ==>
        var username := requested.value;
        && connections == Remove(old(connections), username)
        && outbox == old(outbox)
           + ToAllBut(connections, Some(username), PeerStatus(Offline, username, now))
    {
      if Given(requested) && requested.value in connections.entries {
        var username := requested.value;
        connections := Remove(connections, username);
        BroadcastPeerStatus(username, Offline, now);
      }
    }

    /** `handle_connection_request` */
    method HandleConnectionRequest(sender: Username, data: Request, now: nat)
      modifies this`outbox
      ensures outbox == old(outbox) + RequestReplies(connections, sender, data, now)
    {
      if !Given(data.toUsername) || !Given(data.offer) {
        SendToClient(sender, Error(InvalidRequest));
        return;
      }
      var target := data.toUsername.value;
      if target in connections.entries {
        SendToClient(target, ConnectionRequest(sender, data.offer.value, now));
        SendToClient(sender, RequestSent(target, RequestAcknowledged));
      } else {
        SendToClient(sender, Error(OfflineText(target)));
      }
    }

    /** `handle_connection_answer` */
    method HandleConnectionAnswer(sender: Username, data: Request, now: nat)
      modifies this`outbox
      ensures outbox == old(outbox) + AnswerReplies(connections, sender, data, now)
    {
      if !Given(data.toUsername) || !Given(data.answer) {
        SendToClient(sender, Error(InvalidAnswer));
        return;
      }
      var target := data.toUsername.value;
      if target in connections.entries {
        SendToClient(target, ConnectionAnswer(sender, data.answer.value, now));
      } else {
        SendToClient(sender, Error(OfflineText(target)));
      }
    }

    /** `handle_ice_candidate` */
    method HandleIceCandidate(sender: Username, data: Request, now: nat)
      modifies this`outbox
      ensures outbox == old(outbox) + IceReplies(connections, sender, data, now)
    {
      if !Given(data.toUsername) || !Given(data.candidate) {
        return;
      }
      var target := data.toUsername.value;
      if target in connections.entries {
        SendToClient(target, IceCandidate(sender, data.candidate.value, now));
      }
    }

    /** `send_peer_list`: the live endpoints of everybody but `username`, with their count. */
    method SendPeerList(username: Username)
      requires sessionManager.Valid()
      modifies this`outbox
      ensures var peers := WithoutUser(Sessions.LivePeers(sessionManager.activePeers, sessionManager.sessions), username);
        outbox == old(outbox) + ToClient(connections, username, PeerList(peers, |peers|))
    {
      var all := sessionManager.GetAllPeers();
      var peers := WithoutUser(all, username);
      SendToClient(username, PeerList(peers, |peers|));
    }

    /** `handle_message`: dispatch on the message `type`; an undecodable message
        (`raw == None`) or an unknown type sends nothing. */
    method HandleMessage(username: Username, raw: Option<Request>, now: nat)
      requires sessionManager.Valid()
      modifies this`outbox
      ensures connections == old(connections)
      ensures raw == None ==> outbox == old(outbox)
      ensures raw.Some? ==>
        var data := raw.value;
        outbox == old(outbox) +
          if data.kind == Some("heartbeat") then ToClient(connections, username, HeartbeatAck(now))
          else if data.kind == Some("connection_request") then RequestReplies(connections, username, data, now)
          else if data.kind == Some("connection_answer") then AnswerReplies(connections, username, data, now)
          else if data.kind == Some("ice_candidate") then IceReplies(connections, username, data, now)
          else if data.kind == Some("get_peer_list") then
            var peers := WithoutUser(Sessions.LivePeers(sessionManager.activePeers, sessionManager.sessions), username);
            ToClient(connections, username, PeerList(peers, |peers|))
          else []
    {
      if raw == None {
        return;
      }
      var data := raw.value;
      var msgType := data.kind;
      if msgType == Some("heartbeat") {
        SendToClient(username, HeartbeatAck(now));
      } else if msgType == Some("connection_request") {
        HandleConnectionRequest(username, data, now);
      } else if msgType == Some("connection_answer") {
        HandleConnectionAnswer(username, data, now);
      } else if msgType == Some("ice_candidate") {
        HandleIceCandidate(username, data, now);
      } else if msgType == Some("get_peer_list") {
        SendPeerList(username);
      }
    }
  }
}
