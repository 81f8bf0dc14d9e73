# Rendezvous server core, modelled in Dafny

This project models the state-keeping core of a small peer-to-peer chat backend.
The backend has four in-memory registries:

- `SessionManager` (daemon/session.py). It hands out session tokens after login and keeps at most one live token per user. It records the endpoint (IP and port) each session advertises, and it builds the peer lists that clients download.
- `WebSocketHandler` (daemon/websocket_handler.py). It is the signaling router. It keeps one websocket per connected user, announces users coming online and going offline, and forwards WebRTC offers, answers and ICE candidates between users.
- `ChannelManager` (daemon/channel.py). It holds named channels with a creator and a member list, and for each user the channels they created or joined.
- `UserDatabase` (daemon/userdb.py). It is the credential store: user records keyed by username, with only the hash of each password kept.

Each registry is a Dafny `class` whose fields are the Python dictionaries. Each public method that changes state or loops is a Dafny `method` with the same branches. The read-only lookups `get_session`, `get_channel_members`, `authenticate` and `get_user_info` are Dafny functions. `handle_client` becomes `Attach` (its start) and `Detach` (its `finally`), and its message loop is left out.
A Python `dict` whose iteration order matters is a `Collections.Dict`: the keys in insertion order plus a map.
Each send to a websocket appends a `Signaling.Delivery` (a socket and a message) to the handler's `outbox`.
The clock, the `uuid4` token and the SHA-256 hash are parameters: `now: nat`, a `token` that `SessionManager.Fresh` requires to be unused, and the store's `hash` function.

Files: `collections.dfy` (the ordered dictionary), `session.dfy`, `signaling.dfy`, `channel.dfy`, `userdb.dfy`.

## Model

| member | source | states |
|---|---|---|
| Collections.Put | daemon/session.py:72-77 | `d[k] = v` on an ordered dict: the map gains `k := v`; an existing key keeps its place, a new key goes last; the dict stays well formed |
| Collections.Remove | daemon/session.py:25-27 | `del d[k]`: the map loses `k`, the key order loses exactly `k` and keeps the rest in order |
| Sessions.LiveTokens | daemon/session.py:90-91 | the tokens `get_all_peers` keeps are exactly the directory tokens with a live session, without repeats |
| Sessions.LivePeersListed | daemon/session.py:82-100 | every endpoint registered under a live session appears in the `get_all_peers` list |
| Sessions.LivePeersLive | daemon/session.py:82-100 | every endpoint in the `get_all_peers` list was registered under a live session |
| Sessions.OneSessionPerUser | daemon/session.py:21-37 | two live sessions of the same user are the same token |
| Sessions.ReplaceSession | daemon/session.py:21-37 | dropping a user's previous token and its endpoint and adding a fresh token keeps the registry's invariant: one live token per user, no peer info, and each live endpoint under its session's username |
| Sessions.PeerListExcept | daemon/session.py:112-125 | corrected `get_peer_list` list: every directory entry but the caller's own, in directory order |
| Sessions.OwnEndpointExcluded | daemon/session.py:112-125 | a caller with a registered endpoint gets one entry fewer than the directory holds, each belonging to another token |
| Sessions.SessionManager.constructor | daemon/session.py:9-14 | the registry starts with no sessions, no user tokens, an empty peer directory and no peer lists, and its invariant holds |
| Sessions.SessionManager.CreateSession | daemon/session.py:16-43 | the user's previous session and its endpoint are gone; the new token maps to a fresh session with `created_at == last_active == now` and no peer info; the user maps to it; its peer list is empty; one live token per user is kept |
| Sessions.SessionManager.ValidateSession | daemon/session.py:45-51 | true exactly for a live token; then only that session's `last_active` changes, to `now` |
| Sessions.SessionManager.GetSession | daemon/session.py:53-56 | the session of a live token, and None otherwise; a returned session is its user's current one |
| Sessions.SessionManager.SubmitPeerInfo | daemon/session.py:58-80 | false and no change for an unknown token; otherwise the endpoint is stored under the token with the session's username, and `get_all_peers` now lists it |
| Sessions.SessionManager.GetAllPeers | daemon/session.py:82-100 | the list is exactly the endpoints with a live session, in directory order, and every listed user has a current token |
| Sessions.SessionManager.GetPeerList | daemon/session.py:106-127 | None for an unknown token; otherwise one summary per directory entry, in order, including the caller's own endpoint (as written) |
| Sessions.SessionManager.RemoveSession | daemon/session.py:129-149 | the session and the user's token mapping are gone and the directory is unchanged, yet `get_all_peers` lists nothing of that user |
| Signaling.BroadcastSends | daemon/websocket_handler.py:219-222 | every delivery of a broadcast loop carries the message to the socket of a visited name other than the skipped one |
| Signaling.BroadcastReaches | daemon/websocket_handler.py:219-222 | every visited name other than the skipped one gets a delivery |
| Signaling.BroadcastCount | daemon/websocket_handler.py:228-230 | over names without repeats, a broadcast loop sends one delivery per visited name, less one when the skipped name was visited |
| Signaling.BroadcastRecipients | daemon/websocket_handler.py:226-234 | a broadcast sends the message once to every connected user but the skipped one, and to no other socket |
| Signaling.WithoutUser | daemon/websocket_handler.py:193 | the filtered peer list holds exactly the peers whose username differs from the requester's |
| Signaling.WithoutAbsentUser | daemon/websocket_handler.py:193 | when nobody in the list is the requester, the filter returns the list unchanged |
| Signaling.WithoutUserConcat | daemon/websocket_handler.py:193 | the filter distributes over concatenation, so it keeps the order and the repeats of the peers it retains |
| Signaling.ToClient | daemon/websocket_handler.py:203-209 | `send_to_client` sends exactly one delivery to a connected user's socket and nothing to an unconnected user |
| Signaling.RequestToOnlineTarget | daemon/websocket_handler.py:123-135 | a complete offer to an online user reaches that user first, then the sender gets `request_sent` |
| Signaling.RequestRejected | daemon/websocket_handler.py:112-117 | a request missing `to_username` or `offer`, or to an offline user, yields only one error to the sender, naming the offline peer in the second case |
| Signaling.AnswerToOnlineTarget | daemon/websocket_handler.py:156-162 | a complete answer to an online user is the only delivery, and it goes to that user |
| Signaling.AnswerRejected | daemon/websocket_handler.py:147-167 | an incomplete answer, or one to an offline user, yields only one error to the sender |
| Signaling.IceOnlyToTarget | daemon/websocket_handler.py:169-185 | an ICE candidate reaches an online target and nobody else; otherwise nothing is sent, not even an error |
| Signaling.WebSocketHandler.constructor | daemon/websocket_handler.py:12-16 | the router keeps the given session manager and starts with no connections and nothing sent |
| Signaling.WebSocketHandler.SendToClient | daemon/websocket_handler.py:203-209 | the outbox grows by exactly what `ToClient` sends |
| Signaling.WebSocketHandler.BroadcastPeerStatus | daemon/websocket_handler.py:211-224 | the outbox grows by one `peer_<status>` message per connected user other than the subject, in connection order |
| Signaling.WebSocketHandler.BroadcastToAll | daemon/websocket_handler.py:226-234 | the outbox grows by one copy per connected user, skipping `exclude` only when it is a non-empty name |
| Signaling.WebSocketHandler.Attach | daemon/websocket_handler.py:24-56 | a missing or empty username gets one error and changes no table; otherwise the socket becomes the user's connection, replacing an earlier one, the client is told it is registered, and the others get `peer_online` |
| Signaling.WebSocketHandler.Detach | daemon/websocket_handler.py:70-74 | a connected user is removed from the table and the remaining users get `peer_offline`; otherwise nothing changes |
| Signaling.WebSocketHandler.HandleConnectionRequest | daemon/websocket_handler.py:107-140 | the outbox grows by exactly the replies described by `RequestToOnlineTarget` and `RequestRejected` |
| Signaling.WebSocketHandler.HandleConnectionAnswer | daemon/websocket_handler.py:142-167 | the outbox grows by exactly the replies described by `AnswerToOnlineTarget` and `AnswerRejected` |
| Signaling.WebSocketHandler.HandleIceCandidate | daemon/websocket_handler.py:169-185 | the outbox grows by exactly the deliveries described by `IceOnlyToTarget` |
| Signaling.WebSocketHandler.SendPeerList | daemon/websocket_handler.py:187-201 | the requester gets the live endpoints of everyone else, with their count |
| Signaling.WebSocketHandler.HandleMessage | daemon/websocket_handler.py:76-105 | dispatch on `type`: heartbeat ack, request, answer, candidate or peer list; an undecodable message or an unknown type sends nothing; the connection table never changes |
| Channels.JoinNeverAddsJoiner | daemon/channel.py:69-70 | as written, a join leaves the joiner out of `members`, and a second join grows the list again |
| Channels.JoinTwiceExample | daemon/channel.py:69-70 | "bob" joining "room" (members ["alice"]) twice leaves ["alice", "room", "room"] |
| Channels.AddMember | daemon/channel.py:69-70 | corrected update: the joiner is a member afterwards, nobody else is added, and the list grows only for a newcomer |
| Channels.AddMemberIdempotent | daemon/channel.py:69-70 | with the corrected update a second join changes nothing |
| Channels.CreateKeepsRegistry | daemon/channel.py:26-35 | a new channel under a free name keeps the invariant: each channel's members start with its creator, and each channel is among its creator's channels |
| Channels.JoinKeepsRegistry | daemon/channel.py:64-74 | appending to a known channel's members and to a user's channels keeps that invariant |
| Channels.ChannelManager.constructor | daemon/channel.py:10-13 | the registry starts with no channels and no user channel lists, and its invariant holds |
| Channels.ChannelManager.CreateChannel | daemon/channel.py:16-37 | false and no change for a taken name; otherwise a channel whose only member is its creator, appended to the creator's channels |
| Channels.ChannelManager.ListAllChannels | daemon/channel.py:39-54 | one summary per channel in creation order, with its member count (at least 1) and no name twice |
| Channels.ChannelManager.JoinChannel | daemon/channel.py:56-79 | false for an unknown channel; true otherwise; a newcomer causes the channel name to be appended to `members` and to the user's channels; an existing member changes nothing |
| Channels.ChannelManager.GetChannelMembers | daemon/channel.py:82-93 | an unknown channel has no members; a known one returns its list, which starts with the creator |
| Users.Last | daemon/userdb.py:135-141 | the keyword a call supplies for a field is the last of the call's keywords naming that field; when there is none, no keyword names the field |
| Users.ApplyFieldsUpdates | daemon/userdb.py:133-141 | the keyword loop, then the password step, give `Updated`: each allowed field takes its supplied value, a supplied password replaces the hash, and nothing else changes |
| Users.KeepsHash | daemon/userdb.py:133-137 | the keyword loop never touches the password hash or the creation time |
| Users.UserDatabase.constructor | daemon/userdb.py:11-15 | the store keeps the given hash and starts with no users; loading `users.json` or creating the default users is left out (see "## Left out") |
| Users.UserDatabase.RegisterUser | daemon/userdb.py:62-87 | false and no change for a taken name; otherwise an active record with the password's hash is added, after which the user authenticates with that password and its info is the given email and name |
| Users.UserDatabase.Authenticate | daemon/userdb.py:89-116 | an unknown or inactive user is refused; an active user is accepted exactly when the password hashes to the stored hash |
| Users.UserDatabase.GetUserInfo | daemon/userdb.py:118-125 | None exactly for an unknown user; otherwise the stored email, name, creation time and active flag |
| Users.UserDatabase.UpdateUser | daemon/userdb.py:127-144 | false and no change for an unknown user; otherwise the record becomes `Updated(old record, keywords)`, no user is added or reordered, and an active user authenticates with a newly supplied password |
| Users.UserDatabase.DeleteUser | daemon/userdb.py:146-154 | true exactly when the user existed; afterwards the user is gone and nobody else changes |
| Users.UserDatabase.ListUsers | daemon/userdb.py:156-168 | one password-free listing per user in registration order, each user exactly once |

## Left out

- Locks and `asyncio` are left out. Each method is one atomic step, and interleavings are not modelled. This includes the `user_channels` update in `create_channel`, which runs outside the lock.
- The websocket itself is left out: reading the URL query (the username arrives as `requested`), the `async for` message loop, `close()`, and exceptions raised by a send. Each send is an `outbox` append.
- JSON encoding and decoding are left out. An inbound message arrives as a decoded `Request`, and one that is not valid JSON arrives as `None`. Field values of other JSON types (a numeric `to_username`, a non-boolean `is_active`) are not modelled.
- Wall-clock time is a `now: nat` parameter in place of `time.time()` floats.
- `uuid4` is a `token` parameter that must be unused.
- SHA-256 is the store's `hash` function parameter.
- Loading and saving `users.json`, the default users, and all logging are left out.
- Users.UserDatabase.constructor: the store starts empty. `__init__` instead loads `users.json` or registers three default users (daemon/userdb.py:15, 17-29, 40-56), which needs file I/O.
- `connection_requests` and `ice_candidates` in websocket_handler.py are never read or written after `__init__`. `user_peer_lists` in session.py is only ever set to empty lists. Only the latter is kept.
- Aliasing is left out: `get_session` and `get_channel_members` return the live dict or list, which a caller could mutate. The model returns values.
- `Users.Kwarg`: keyword arguments are a sequence, and a later keyword for a field wins, like a dict built from them. A keyword other than the four named ones is `Other`, which `update_user` ignores.
- `Users.UserDatabase.GetUserInfo`: a stored record has exactly the five fields `register_user` writes. Extra keys that a hand-edited `users.json` could carry are not modelled.
- The rest of the repository is not part of this model: the HTTP apps, the database layer, the browser agent and the static files.

## Findings

| source | as written | input that shows it | evidently intended | confidence | as-written member | corrected member |
|---|---|---|---|---|---|---|
| daemon/channel.py:70 | `join_channel` appends the channel's name to `members` instead of the joining user's name | create "room" by "alice", then "bob" joins "room" twice: members become ["alice", "room", "room"], and "bob" never appears | append the joiner, so a second join is a no-op | not executed; high | Channels.JoinNeverAddsJoiner | Channels.AddMemberIdempotent |
| daemon/session.py:112-125 | `get_peer_list` skips the caller's `peer_info['peer_id']`, but no code ever sets `peer_info`, so nothing is skipped | alice logs in (token t), submits 10.0.0.1:5000, calls `get_peer_list(t)`: the list contains her own endpoint | leave out the caller's own endpoint, which is registered under its session token | not executed; medium | Sessions.SessionManager.GetPeerList | Sessions.OwnEndpointExcluded |

The manager methods keep the code's behaviour, so `ChannelManager.JoinChannel` and `SessionManager.GetPeerList` are the as-written halves.
The corrected definitions are `Channels.AddMember` and `Sessions.PeerListExcept`. The intended properties are proved about them.
