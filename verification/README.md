# Signalling server for a single broadcaster: a verified model

The server relays WebRTC signalling between browser clients over WebSockets. It
keeps two pieces of module-level state:

- `clients`, a JavaScript `Map` from connection id (a random UUID) to socket.
  It iterates in insertion order.
- `broadcasterId`, a single slot that is `null` or the id of the one client
  currently broadcasting.

Five kinds of event drive it:

- **connection**: register the client and send it its id. If a broadcaster
  exists, also tell the new client who it is.
- **`start_broadcast`**: claim the free slot and announce it to everyone else,
  or answer the sender with an error when the slot is taken.
- **`stop_broadcast`**: only the holder of the slot may send it. It frees the
  slot and tells everyone.
- **`offer` / `answer` / `candidate`**: forwarded to the `targetId` when that
  client is registered, dropped otherwise. Any other message type is ignored.
- **close**: delete the client. If it was the broadcaster, free the slot and
  tell the remaining clients.

The model has five modules:

- `Messages` (messages.dfy) holds the wire vocabulary. `Data` holds the fields
  of a parsed inbound message, `Msg` the outbound messages and `Envelope` a send
  to one connection. `Inbox(out, id)` is what connection `id` receives from an
  outbox.
- `Registry` (registry.dfy) treats the `clients` map as the sequence of its keys
  in insertion order. `Without` is `Map.delete`. `FanOut` is the outbox of a
  `clients.forEach` that sends one message to every id except possibly one.
- `Signaling` (signaling.dfy) defines the state machine as pure functions, one
  per handler (`Connect`, `Receive` with `StartBroadcast`, `StopBroadcast` and
  `Forward`, and `Close`). Each returns the new state and the outbox. Beside them
  are the lemmas that state, recipient by recipient, what each handler does, and
  the invariant every handler keeps.
- `Traces` (traces.dfy) runs sequences of events, as Node's event loop runs one
  handler at a time, and proves the invariant holds in every reachable state.
- `Server` (server.dfy) is the imperative form. `SignalingServer` has the two
  mutable fields, one method per event that updates them, and the `SendEach`
  loop that builds the fan-out outbox. Each method is proved to leave exactly
  the state, and return exactly the outbox, that the corresponding `Signaling`
  function gives.

The invariant is that every id is registered once and that the broadcaster slot
is empty or holds a connected client.

The server has one broadcaster slot. Its `broadcaster_started` carries only the
broadcaster's id and goes to every client except the new broadcaster; its
`broadcaster_ended` carries no id. Relayed messages carry the sender's id and
nothing else about the sender.

## Model

| member | source | states |
|---|---|---|
| Registry.Without | server.js:94 | Deleting an id keeps every other id and removes that one. Over unique ids, the result is the registry with that one entry cut out, so the others keep their insertion order. It keeps ids unique. Deleting an id that is absent changes nothing. |
| Registry.FanOut | server.js:46-54 | A `forEach` send loop sends only `m`, only to registered ids, and never to the skipped id. Over unique ids, no id is written to twice. |
| Registry.FanOutInbox | server.js:46-54 | Over a registry of unique ids, a fan-out gives every id other than the skipped one exactly one copy of the message. Nobody else receives anything. |
| Registry.FanOutOrder | server.js:69-71 | A fan-out writes in the map's insertion order. Its sequence of addressees is the registry with the skipped id deleted. |
| Signaling.ConnectSpec | server.js:28-36 | Connecting appends the new id to `clients` and leaves the slot unchanged. The new client receives `id{id}` first. Then, only if a broadcaster exists, it receives `broadcaster_started{broadcasterId}`. No other client receives anything. |
| Signaling.StartBroadcastSpec | server.js:42-63 | With the slot empty, the sender becomes the broadcaster. Every other registered client receives exactly one `broadcaster_started` naming it, in registry order. The sender receives nothing. With the slot taken, even by the sender, the state is unchanged and the sender alone receives one `error` with the fixed text. |
| Signaling.StopBroadcastSpec | server.js:65-73 | From the broadcaster, `stop_broadcast` empties the slot. Every registered client, the sender included, receives exactly one `broadcaster_ended`, in registry order. From anyone else it changes nothing and sends nothing. |
| Signaling.ForwardSpec | server.js:75-89 | A relay never changes the state. A registered target receives exactly one message with the same type, the `sdp` and `candidate` unchanged and `senderId` set to the sender. Nobody else receives anything. With an unknown or missing target nothing is sent. |
| Signaling.ReceiveSpec | server.js:38-91 | No message changes `clients`. A message whose type is none of the five handled ones changes nothing and sends nothing, because the switch has no default branch. |
| Signaling.CloseSpec | server.js:93-103 | Close always deletes the id. If the closing client was the broadcaster, the slot empties and each remaining client receives exactly one `broadcaster_ended`, in registry order. The closed client receives nothing. Otherwise the slot is kept and nothing is sent. |
| Signaling.CloseIdempotent | server.js:93-103 | Closing an id that is not connected is a no-op, so a second close of the same connection changes nothing and sends nothing. |
| Signaling.StepPreservesInvariant | server.js:25-103 | Every handler keeps ids unique and keeps the broadcaster slot either null or pointing at a connected client. |
| Signaling.StepSendsOnlyToConnected | server.js:28-103 | Every message a handler sends is addressed to a client that is still registered when the handler finishes. In particular, nothing is sent to a client that has just closed. |
| Signaling.SlotTransitions | server.js:42-103 | The slot changes only in two ways. A connected sender of `start_broadcast` can take an empty slot. Its holder can empty it, by `stop_broadcast` or by closing. |
| Traces.RunPreservesInvariant | server.js:25-103 | Any sequence of admissible events, handled one at a time from a state that meets the invariant, ends in a state that meets it. |
| Traces.ReachableInvariant | server.js:25-26 | Every state reachable from start-up (empty map, null slot) has unique ids, and its broadcaster, if any, is a connected client. |
| Server.SendEach | server.js:46-54 | The send loop's outbox is exactly `FanOut`: one send per registered id other than the skipped one, in insertion order. |
| Server.SignalingServer.constructor | server.js:25-26 | The server starts with no clients and no broadcaster, which meets the invariant. |
| Server.SignalingServer.OnConnection | server.js:28-36 | Updates the fields in place and returns the outbox exactly as `Connect` specifies, and keeps the invariant. |
| Server.SignalingServer.OnMessage | server.js:38-91 | Updates the fields in place and returns the outbox exactly as `Receive` specifies, and keeps the invariant. |
| Server.SignalingServer.OnClose | server.js:93-103 | Updates the fields in place and returns the outbox exactly as `Close` specifies, and keeps the invariant. |

## Left out

- The Express static-file server and its `/` route (server.js:2-19) are HTTP I/O.
- `server.listen` and the console log (server.js:106-108) are process bootstrap.
- The WebSocket transport, `ws.send` and `JSON.stringify` are not modelled. A send is an `Envelope` value in the returned outbox. A send that throws is not modelled; the code does not catch it.
- The socket objects stored as the map's values are not modelled. Only the keys and their order matter to the handlers.
- `JSON.parse` (server.js:39) is not modelled. The handlers take the already-parsed fields as `Data`. A malformed message makes the real handler throw; the model does not claim it is handled gracefully.
- `Data.kind` is a string. A non-string `type` matches no `case`, exactly as an unhandled string does.
- `crypto.randomUUID` (server.js:29) is replaced by an id the caller supplies. `OnConnection` and `Connect` require that the id is not already registered. The model does not record that ids are never reused after a close.
- The test `if (broadcasterId)` is modelled as "the slot is `Some`". This matches because the slot only ever holds a UUID string, which is never empty.
- `Server.SignalingServer.OnMessage` requires the sender to be registered: the model does not cover messages delivered after a socket's close event, which the WebSocket library does not emit. `Traces` makes the same assumption through `Admissible`.
- Concurrency is not modelled. Node's event loop runs one handler to completion at a time, so runs are sequential traces of events.
