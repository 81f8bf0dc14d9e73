/** The session registry and peer directory of daemon/session.py: session
    tokens mapped to users (at most one live token per user), the endpoint
    each session advertised, and the lists of peers handed to clients. */
module Sessions {
  import opened Collections

  type Token = string
  type Username = string

  /** One entry of `sessions`. `peerId` is the `peer_info` slot: it is created
      empty and no operation ever fills it. */
  datatype Session = Session(username: Username, createdAt: nat, lastActive: nat, peerId: Option<Token>)

  /** One entry of `active_peers`, and also one element of the list `get_all_peers` returns. */
  datatype PeerEntry = PeerEntry(username: Username, ip: string, port: int, registeredAt: nat)

  /** One element of the list `get_peer_list` returns. */
  datatype PeerSummary = PeerSummary(ip: string, port: int, username: Username)

  /** One element of a `user_peer_lists` list (nothing in the registry appends to them). */
  datatype PeerLink = PeerLink(peerIp: string, peerPort: int, addedAt: nat)

  function Summary(p: PeerEntry): PeerSummary {
    PeerSummary(p.ip, p.port, p.username)
  }

  /** The tokens `get_all_peers` reports, in the order of `keys`: those with a live session. */
  function LiveTokens(keys: seq<Token>, sessions: map<Token, Session>): (r: seq<Token>)
    ensures forall t :: t in r <==> t in keys && t in sessions
    ensures Distinct(keys) ==> Distinct(r)
    ensures |r| <= |keys|
  {
    if keys == [] then []
    else
      var init, last := keys[..|keys| - 1], keys[|keys| - 1];
      assert keys == init + [last];
      assert Distinct(keys) ==> Distinct(init) && last !in init;
      LiveTokens(init, sessions) + (if last in sessions then [last] else [])
  }

  /** The endpoints registered under `tokens`, in that order. */
  function PeersOf(tokens: seq<Token>, entries: map<Token, PeerEntry>): seq<PeerEntry>
    requires forall t :: t in tokens ==> t in entries
  {
    seq(|tokens|, i requires 0 <= i < |tokens| => entries[tokens[i]])
  }

  lemma LiveTokensSnoc(keys: seq<Token>, t: Token, sessions: map<Token, Session>)
    ensures LiveTokens(keys + [t], sessions) == LiveTokens(keys, sessions) + (if t in sessions then [t] else [])
  {
    assert (keys + [t])[..|keys|] == keys;
  }

  lemma PeersOfSnoc(tokens: seq<Token>, t: Token, entries: map<Token, PeerEntry>)
    requires forall x :: x in tokens ==> x in entries
    requires t in entries
    ensures PeersOf(tokens + [t], entries) == PeersOf(tokens, entries) + [entries[t]]
  {
  }

  /** The list `get_all_peers` builds: the endpoints of the live tokens, in directory order. */
  function LivePeers(peers: Dict<Token, PeerEntry>, sessions: map<Token, Session>): seq<PeerEntry>
    requires peers.Valid()
  {
    PeersOf(LiveTokens(peers.keys, sessions), peers.entries)
  }

  /** Every endpoint registered under a live session is listed by `get_all_peers`. */
  lemma LivePeersListed(peers: Dict<Token, PeerEntry>, sessions: map<Token, Session>, t: Token)
    requires peers.Valid()
    requires t in peers.entries && t in sessions
    ensures peers.entries[t] in LivePeers(peers, sessions)
  {
    var live := LiveTokens(peers.keys, sessions);
    var i :| 0 <= i < |live| && live[i] == t;
    assert LivePeers(peers, sessions)[i] == peers.entries[t];
  }

  /** Every endpoint `get_all_peers` lists was registered under a live session. */
  lemma LivePeersLive(peers: Dict<Token, PeerEntry>, sessions: map<Token, Session>, p: PeerEntry)
    requires peers.Valid()
    requires p in LivePeers(peers, sessions)
    ensures exists t :: t in sessions && t in peers.entries && peers.entries[t] == p
  {
    var live := LiveTokens(peers.keys, sessions);
    var i :| 0 <= i < |LivePeers(peers, sessions)| && LivePeers(peers, sessions)[i] == p;
    assert live[i] in live;
  }

  /** The list `get_peer_list` is evidently meant to return: every registered
      endpoint except the one the caller itself registered, in directory order. */
  function PeerListExcept(peers: Dict<Token, PeerEntry>, self: Token): (r: seq<PeerSummary>)
    requires peers.Valid()
    ensures var others := Erase(peers.keys, self);
      && |r| == |others|
      && forall i :: 0 <= i < |r| ==> others[i] != self && r[i] == Summary(peers.entries[others[i]])
  {
    var others := Erase(peers.keys, self);
    seq(|others|, i requires 0 <= i < |others| => Summary(peers.entries[others[i]]))
  }

  /** A caller that registered an endpoint gets one entry fewer than the
      directory holds, and every entry it gets belongs to another token. */
  lemma OwnEndpointExcluded(peers: Dict<Token, PeerEntry>, self: Token)
    requires peers.Valid()
    requires self in peers.entries
    ensures |PeerListExcept(peers, self)| == |peers.keys| - 1
    ensures forall i :: 0 <= i < |PeerListExcept(peers, self)| ==>
      exists t :: t in peers.entries && t != self && PeerListExcept(peers, self)[i] == Summary(peers.entries[t])
  {
    EraseCount(peers.keys, self);
    var others := Erase(peers.keys, self);
    forall i | 0 <= i < |PeerListExcept(peers, self)|
      ensures exists t :: t in peers.entries && t != self && PeerListExcept(peers, self)[i] == Summary(peers.entries[t])
    {
      var t := others[i];
      assert t in others;
      assert PeerListExcept(peers, self)[i] == Summary(peers.entries[t]);
    }
  }

  /** Every session is the current session of its user, and every user's current
      token names a live session of that user: one live token per user. */
  ghost predicate Paired(sessions: map<Token, Session>, userTokens: map<Username, Token>) {
    && (forall t :: t in sessions ==> sessions[t].username in userTokens && userTokens[sessions[t].username] == t)
    && (forall u :: u in userTokens ==> userTokens[u] in sessions && sessions[userTokens[u]].username == u)
  }

  lemma OneSessionPerUser(sessions: map<Token, Session>, userTokens: map<Username, Token>, t1: Token, t2: Token)
    requires Paired(sessions, userTokens)
    requires t1 in sessions && t2 in sessions
    requires sessions[t1].username == sessions[t2].username
    ensures t1 == t2
  {
  }

  /** The registry's invariant: a well-formed directory, one live token per
      user, no session with peer info, and each live endpoint carrying its
      session's username. */
  ghost predicate Registry(sessions: map<Token, Session>, userTokens: map<Username, Token>, peers: Dict<Token, PeerEntry>) {
    && peers.Valid()
    && Paired(sessions, userTokens)
    && (forall t :: t in sessions ==> sessions[t].peerId == None)
    && (forall t :: t in sessions && t in peers.entries ==> peers.entries[t].username == sessions[t].username)
  }

  /** Dropping a user's previous session and its endpoint (if any) and adding a
      session of that user under an unused token keeps the registry's invariant. */
  lemma ReplaceSession(sessions: map<Token, Session>, userTokens: map<Username, Token>, peers: Dict<Token, PeerEntry>,
                       stale: Option<Token>, remaining: map<Token, Session>, remainingPeers: Dict<Token, PeerEntry>,
                       username: Username, token: Token, now: nat)
    requires Registry(sessions, userTokens, peers)
    requires token !in sessions && token !in peers.entries
    requires stale == (if username in userTokens then Some(userTokens[username]) else None)
    requires remaining == if stale.Some? then sessions - {stale.value} else sessions
    requires remainingPeers.Valid()
    requires remainingPeers.entries == if stale.Some? then peers.entries - {stale.value} else peers.entries
    ensures Registry(remaining[token := Session(username, now, now, None)], userTokens[username := token], remainingPeers)
  {
  }

  class SessionManager {
    var sessions: map<Token, Session>
    var usernameToToken: map<Username, Token>
    var activePeers: Dict<Token, PeerEntry>
    var userPeerLists: map<Token, seq<PeerLink>>

    ghost predicate Valid()
      reads this
    {
      Registry(sessions, usernameToToken, activePeers)
    }

    /** A token as `uuid4` hands it out: never seen by any of the registry's dictionaries. */
    ghost predicate Fresh(token: Token)
      reads this
    {
      token !in sessions && token !in activePeers.entries && token !in userPeerLists
    }

    constructor ()
      ensures Valid()
      ensures sessions == map[] && usernameToToken == map[] && userPeerLists == map[]
      ensures activePeers == EmptyDict()
    {
      sessions := map[];
      usernameToToken := map[];
      activePeers := EmptyDict();
      userPeerLists := map[];
    }

    /** `create_session`: drop the user's previous session and its endpoint, then
        record a new session under the fresh `token`. */
    method CreateSession(username: Username, token: Token, now: nat)
      requires Valid()
      requires Fresh(token)
      modifies this
      ensures Valid()
      ensures token in sessions && sessions[token] == Session(username, now, now, None)
      ensures usernameToToken == old(usernameToToken)[username := token]
      ensures userPeerLists == old(userPeerLists)[token := []]
      ensures username !in old(usernameToToken) ==>
        sessions == old(sessions)[token := Session(username, now, now, None)] && activePeers == old(activePeers)
      ensures username in old(usernameToToken) ==>
        var stale := old(usernameToToken)[username];
        && sessions == (old(sessions) - {stale})[token := Session(username, now, now, None)]
        && activePeers.entries == old(activePeers.entries) - {stale}
        && activePeers.keys == Erase(old(activePeers.keys), stale)
        && stale !in sessions
    {
      var stale: Option<Token> := None;
      if username in usernameToToken {
        var oldToken := usernameToToken[username];
        stale := Some(oldToken);
        if oldToken in sessions {
          sessions := sessions - {oldToken};
        }
        if oldToken in activePeers.entries {
          activePeers := Remove(activePeers, oldToken);
        } else {
          EraseAbsent(activePeers.keys, oldToken);
        }
      }
      ReplaceSession(old(sessions), usernameToToken, old(activePeers), stale, sessions, activePeers, username, token, now);
      sessions := sessions[token := Session(username, now, now, None)];
      usernameToToken := usernameToToken[username := token];
      userPeerLists := userPeerLists[token := []];
    }

    /** `validate_session`: true exactly for a live token, whose `last_active` is refreshed. */
    method ValidateSession(token: Token, now: nat) returns (valid: bool)
      requires Valid()
      modifies this`sessions
      ensures Valid()
      ensures valid <==> token in old(sessions)
      ensures valid ==> sessions == old(sessions)[token := old(sessions)[token].(lastActive := now)]
      ensures !valid ==> sessions == old(sessions)
    {
      if token in sessions {
        sessions := sessions[token := sessions[token].(lastActive := now)];
        return true;
      }
      return false;
    }

    /** `get_session`: the live session of `token`, which is its user's current one. */
    function GetSession(token: Token): (r: Option<Session>)
      reads this
      requires Valid()
      ensures r.Some? <==> token in sessions
      ensures r.Some? ==> r.value == sessions[token]
      ensures r.Some? ==> usernameToToken[r.value.username] == token && r.value.peerId == None
    {
      if token in sessions then Some(sessions[token]) else None
    }

    /** `submit_peer_info`: record (or overwrite) the endpoint of a live session;
        any `port` is accepted. */
    method SubmitPeerInfo(token: Token, ip: string, port: int, now: nat) returns (ok: bool)
      requires Valid()
      modifies this`activePeers
      ensures Valid()
      ensures ok <==> token in sessions
      ensures !ok ==> activePeers == old(activePeers)
      ensures ok ==> activePeers == Put(old(activePeers), token, PeerEntry(sessions[token].username, ip, port, now))
      ensures ok ==> PeerEntry(sessions[token].username, ip, port, now) in LivePeers(activePeers, sessions)
    {
      if token !in sessions {
        return false;
      }
      var username := sessions[token].username;
      activePeers := Put(activePeers, token, PeerEntry(username, ip, port, now));
      LivePeersListed(activePeers, sessions, token);
      return true;
    }

    /** `get_all_peers`: the endpoints whose session is still live, in directory order. */
    method GetAllPeers() returns (peers: seq<PeerEntry>)
      requires Valid()
      ensures peers == LivePeers(activePeers, sessions)
      ensures forall p :: p in peers ==> p.username in usernameToToken
    {
      var keys, entries := activePeers.keys, activePeers.entries;
      peers := [];
      var i := 0;
      while i < |keys|
        invariant 0 <= i <= |keys|
        invariant forall t :: t in keys[..i] ==> t in entries
        invariant peers == PeersOf(LiveTokens(keys[..i], sessions), entries)
      {
        assert keys[..i + 1] == keys[..i] + [keys[i]];
        var token := keys[i];
        LiveTokensSnoc(keys[..i], token, sessions);
        if token in sessions {
          PeersOfSnoc(LiveTokens(keys[..i], sessions), token, entries);
          var info := entries[token];
          peers := peers + [PeerEntry(info.username, info.ip, info.port, info.registeredAt)];
        }
        i := i + 1;
      }
      assert keys[..i] == keys;
      forall p | p in peers
        ensures p.username in usernameToToken
      {
        LivePeersLive(activePeers, sessions, p);
      }
    }

    /** `get_peer_list`: None for an unknown token; otherwise every entry of the
        directory except the caller's own `peer_id`. As that id is never set,
        no entry is left out, not even the caller's own or a logged-out user's. */
    method GetPeerList(token: Token) returns (r: Option<seq<PeerSummary>>)
      requires Valid()
      ensures token !in sessions ==> r == None
      ensures token in sessions ==> r.Some? && |r.value| == |activePeers.keys|
      ensures token in sessions ==>
        forall i :: 0 <= i < |r.value| ==> r.value[i] == Summary(activePeers.entries[activePeers.keys[i]])
      ensures token in sessions && token in activePeers.entries ==> Summary(activePeers.entries[token]) in r.value
    {
      if token !in sessions {
        return None;
      }
      var currentPeerId := sessions[token].peerId;
      var keys := activePeers.keys;
      var list: seq<PeerSummary> := [];
      var i := 0;
      while i < |keys|
        invariant 0 <= i <= |keys|
        invariant |list| == i
        invariant forall j :: 0 <= j < i ==> list[j] == Summary(activePeers.entries[keys[j]])
      {
        var peerId := keys[i];
        if Some(peerId) != currentPeerId {
          var info := activePeers.entries[peerId];
          list := list + [PeerSummary(info.ip, info.port, info.username)];
        }
        i := i + 1;
      }
      if token in activePeers.entries {
        var k :| 0 <= k < |keys| && keys[k] == token;
        assert list[k] == Summary(activePeers.entries[token]);
      }
      return Some(list);
    }

    /** `remove_session`: forget a live session and its user's token. The endpoint
        it registered stays in `active_peers` (only a set `peer_info` would remove
        it), but `get_all_peers` no longer lists anything of that user. */
    method RemoveSession(token: Token)
      requires Valid()
      modifies this`sessions, this`usernameToToken, this`activePeers
      ensures Valid()
      ensures token !in old(sessions) ==> sessions == old(sessions) && usernameToToken == old(usernameToToken)
      ensures token in old(sessions) ==>
        && sessions == old(sessions) - {token}
        && usernameToToken == old(usernameToToken) - {old(sessions)[token].username}
      ensures activePeers == old(activePeers)
      ensures token in old(sessions) ==>
        forall p :: p in LivePeers(activePeers, sessions) ==> p.username != old(sessions)[token].username
    {
      if token in sessions {
        var session := sessions[token];
        var username := session.username;
        match session.peerId {
          case Some(_) =>
            // peer_info is never set, so the source's deletion of the endpoint cannot run
            assert false;
          case None =>
        }
        if username in usernameToToken {
          usernameToToken := usernameToToken - {username};
        }
        sessions := sessions - {token};
        forall p | p in LivePeers(activePeers, sessions)
          ensures p.username != username
        {
          LivePeersLive(activePeers, sessions, p);
        }
      }
    }
  }
}
