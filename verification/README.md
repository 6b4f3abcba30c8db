# Presence registry of the chat backend, in Dafny

The chat backend keeps `userSocketMap`, a process-wide map from a user id
to the set of Socket.IO socket ids that user has open (one per device or
tab). The `connection` handler reads the `userId` query parameter of the
handshake. If that value is truthy, the handler adds the socket to the
user's set, creating the set if needed, and broadcasts `getOnlineUsers`
with `Object.keys(userSocketMap)`. The `disconnect` closure reuses the
captured user id. It removes the socket, deletes the user's key once the
set is empty, and broadcasts again.

The project models this as pure functions over immutable values:

- `registry.dfy` (module `Registry`): the map as `map<UserId, set<SocketId>>`;
  `Connect`, `Disconnect` and `Online`. Each handler returns the new map and
  what it emitted: `Silent`, or `GetOnlineUsers(users)`. It also holds the
  lemmas about single calls and batches of calls.
- `lifecycle.dfy` (module `Lifecycle`): the server state. It pairs the
  registry with the user id each open socket captured at connect, which is
  what the disconnect closure sees. It also defines the connection and
  disconnect handlers, runs of transport events, and the invariant tying
  the registry to the sockets that are really open.
- `scenario.dfy` (module `Scenario`): a concrete two-user run and an
  anonymous socket.

A missing `userId` is `None`. JavaScript truthiness of a query string is
modelled as "present and not the empty string" (`Registry.Truthy`).

## Model

| member | source | states |
|---|---|---|
| Registry.Online | backend/index.js:127 | The broadcast list only names keys of the map; on a registry with no empty set it contains a user exactly when that user has at least one socket |
| Registry.Connect | backend/index.js:116-128 | With a falsy user id nothing changes and nothing is emitted. With a truthy one the user is present, its set gains exactly the socket id (created if absent), every other user is untouched, and the emitted list is the new online list. The no-empty-set invariant is kept |
| Registry.Disconnect | backend/index.js:130-142 | With a falsy user id or an unknown user nothing changes and nothing is emitted. Otherwise only that socket leaves the user's set, the user stays exactly when sockets remain, other users are untouched, and the new online list is emitted. The no-empty-set invariant is kept |
| Registry.ConnectIdempotent | backend/index.js:124 | Connecting the same socket for the same user twice leaves the registry as the first call left it, and the second broadcast repeats the first |
| Registry.DisconnectIdempotent | backend/index.js:133-138 | A second disconnect of the same socket never changes the registry again |
| Registry.ConnectThenDisconnect | backend/index.js:120-138 | On a registry with no empty set, connecting a socket the user did not hold and then disconnecting it restores the registry exactly |
| Registry.ConnectAll | backend/index.js:120-124 | Any number of connects keeps the no-empty-set invariant |
| Registry.DisconnectAll | backend/index.js:133-138 | Any number of disconnects keeps the no-empty-set invariant |
| Registry.ConnectAllEffect | backend/index.js:120-124 | After a batch of connects, the user's set is the old set plus every socket of the batch, the user is present if it was or the batch is non-empty, and nobody else changes |
| Registry.DisconnectAllEffect | backend/index.js:133-138 | After a batch of disconnects, the user's set is the old set minus the batch, the user is present exactly when that is non-empty, nobody else changes, and the invariant holds |
| Registry.AllSocketsClosedMeansOffline | backend/index.js:133-140 | After N sockets of an offline user connect and all of them disconnect, in any order, the user is not in the online list and the registry is what it was before |
| Lifecycle.OnConnection | backend/index.js:116-128 | The connection handler records the captured user id for the new socket and broadcasts exactly when that id is truthy |
| Lifecycle.OnDisconnect | backend/index.js:130-142 | The disconnect closure forgets the socket. A socket whose captured id was falsy leaves the registry unchanged and emits nothing. For a truthy id whose user is a key, only this socket leaves the user's set and the new online list is emitted |
| Lifecycle.OnlineIsLiveUsers | backend/index.js:127 | When the registry agrees with the open sockets, the online list is exactly the set of users owning an open socket |
| Lifecycle.OnConnectionKeepsConsistent | backend/index.js:116-128 | The connection handler keeps the registry in agreement with the open sockets. It broadcasts the new set of users with an open socket when the captured id is truthy, and emits nothing otherwise |
| Lifecycle.OnDisconnectKeepsConsistent | backend/index.js:130-142 | The disconnect closure keeps the registry in agreement with the open sockets. Closing a socket with a truthy captured id always broadcasts the new set of users with an open socket; any other close emits nothing |
| Lifecycle.RunKeepsConsistent | backend/index.js:116-142 | Every sequence of connects and disconnects the transport can deliver keeps that agreement |
| Lifecycle.OnlineMatchesOpenSockets | backend/index.js:113-143 | From process start, after any deliverable event sequence, no user maps to an empty set and the online list holds exactly the users with at least one open socket |
| Scenario.AliceOpensFirst | backend/index.js:120-127 | A first socket of alice creates her entry and broadcasts {alice} |
| Scenario.BobOpens | backend/index.js:120-127 | bob's socket adds his entry and broadcasts {alice, bob} |
| Scenario.AliceOpensSecond | backend/index.js:120-127 | A second socket of alice joins her set and the online list is unchanged |
| Scenario.AliceClosesFirst | backend/index.js:133-140 | Closing one of alice's two sockets keeps her online |
| Scenario.AliceClosesLast | backend/index.js:133-140 | Closing alice's last socket deletes her entry and broadcasts {bob} |
| Scenario.TwoSocketsScenario | backend/index.js:116-142 | The whole five-event run ends with only bob's socket registered |
| Scenario.AnonymousSocketScenario | backend/index.js:117-133 | A socket with an empty user id is never registered and its connect and disconnect emit nothing |

## Left out

- The Express app, CORS and body-size middleware, HTTP routes, the database connection and `server.listen` (backend/index.js:92-111 and 145-162). They are framework plumbing and I/O.
- Lines 1-90 of backend/index.js are a commented-out older copy of the same handler. They are not live code.
- The Socket.IO transport itself: handshake parsing, `io.emit` delivery, ordering and concurrency between sockets. A broadcast is modelled only as the `Emitted` value a handler returns. The handlers run one at a time, as on Node's single event loop.
- The order of the broadcast array. `Object.keys` lists integer-like keys (such as "7") first, in ascending numeric order, and then the other keys in insertion order. The model carries only the set of keys.
- Console logging (backend/index.js:118 and 131).
- Query values that are not strings (an array from a repeated parameter), and object-key quirks such as a `__proto__` user id.
- The message fan-out dispatcher. The route and controller files that push new messages to a recipient's sockets are not part of this model.
- backend/lib/db.js, backend/lib/utils.js and frontend/src/App.jsx: a database connection call, a token-signing wrapper and UI routing.
- Lifecycle.OnConnection and Lifecycle.OnDisconnect require a fresh socket id and an open socket, respectively. These are guarantees of the transport, which issues unique ids and calls each disconnect closure once for a connected socket. `Lifecycle.Run` returns `None` for an event sequence that breaks them.
- Registry.DisconnectIdempotent states only that the registry does not change again. The code keeps no "already closed" flag: a repeated disconnect for a user who still has other sockets broadcasts again. A close-once discipline is left to the transport.
