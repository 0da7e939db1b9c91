# Websocket client registry of rust-chat-server

This project models, in Dafny, the per-connection logic of a small topic-based
publish/subscribe server written in Rust. A registered client opens a
websocket. The server attaches an outbound sender to the client and stores it
in a shared `id -> Client` map. Each text frame the client sends may replace
its topic list, and when the stream ends or fails the client is removed from
the map.

- `structs.dfy` (module `Structs`): the client record (topics, a two-state
  sender `Absent | Attached(channel)`, and one opaque value for its other
  fields) and the inbound stream items (`Received(Text(s) | NonText)` or
  `RecvError`).
- `ws.dfy` (module `Ws`): frame classification (`Classify`), the effect of one
  message (`Apply`) and of the receive loop (`Pump`), connection setup and
  removal (`Setup`, `Disconnect`, `Connection`), and the `Registry` class.
  The class holds the map as a field. `ClientMsg` and `ClientConnection`
  update that field in place and are proved against `Apply` and `Connection`.
  The lemmas after the class prove what those functions promise.
- `wrappers.dfy` (module `Wrappers`): the `Option` datatype.

The JSON decoding of a topics request is a library call. The model takes it
as a parameter `parse: string -> Option<seq<Topic>>`, so every result holds
for any decoder. The outbound channel created for a connection is given as a
number, `channel`.

Two facts about the code are worth stating plainly:
- Setup does not check that `id` is registered: `insert` overwrites any entry under it (src/ws.rs:21).
- Topics are a sequence. A request replaces it as given, keeping its order and any duplicates (src/ws.rs:62).

## Model

`Pump` (the receive loop, src/ws.rs:25-34) and `Connection` (a whole connection, src/ws.rs:20-36) are the specification functions that the methods are proved against and that the lemmas below describe.

| member | source | states |
|---|---|---|
| `Ws.Classify` | src/ws.rs:42-57 | a message leads to a topic update exactly when it is text, is neither `"ping"` nor `"ping\n"`, and parses; the update carries the parsed list |
| `Ws.Apply` | src/ws.rs:40-66 | handling one message adds and removes no key and leaves every other client unchanged; client `id` keeps its sender and other fields; on a valid request its topics become exactly the parsed list; a dropped message or an absent `id` leaves the map unchanged |
| `Ws.Consumed` | src/ws.rs:25-34 | the loop handles exactly the frames before the first receive error (all frames when there is none) |
| `Ws.Inbound` | src/ws.rs:25-33 | the messages handed to `client_msg` are, in order, those of the frames before the first receive error |
| `Ws.Setup` | src/ws.rs:20-21 | after setup, `id` maps to the given client with its sender attached to the new channel, overwriting any earlier entry; no other key changes |
| `Ws.Disconnect` | src/ws.rs:36 | the removal deletes only `id`, keeps every other entry, and is a no-op when `id` is already gone |
| `Ws.Registry.constructor` | src/main.rs:12 | the registry starts as an empty map |
| `Ws.Registry.ClientMsg` | src/ws.rs:40-66 | the map after handling a message is `Apply` of the map before |
| `Ws.Registry.ClientConnection` | src/ws.rs:9-38 | the number of frames handled is `Consumed(frames)`, and the final map is `Connection` of the map before |
| `Ws.PumpFrame` | src/ws.rs:25-34 | over the whole receive loop the keys stay the same, every other client is unchanged, and client `id` keeps its sender and other fields |
| `Ws.PumpAbsent` | src/ws.rs:59-64 | when `id` is not in the map, no frame creates an entry for it and the map stays unchanged |
| `Ws.LastRequestSpec` | src/ws.rs:59-63 | `LastRequest` is empty exactly when no handled message is a valid request; otherwise it is the topics of the last valid request |
| `Ws.PumpTopics` | src/ws.rs:25-34 | after the loop, client `id`'s topics are those of the last valid request before the first receive error, or its original topics when there is none (replacement, not merge) |
| `Ws.PumpStopsAtError` | src/ws.rs:26-31 | frames after the first receive error have no effect, whatever they are |
| `Ws.IgnoredMessageIsNoop` | src/ws.rs:42-57 | a non-text message, a keep-alive or an unparsable text changes nothing and does not end the loop: the rest of the stream acts as if it had not been sent |
| `Ws.ConnectionNetEffect` | src/ws.rs:20-36 | a whole connection leaves the map as it was before, minus `id` |
| `Ws.ConnectionOpenState` | src/ws.rs:20-34 | just before removal, client `id` is the given client with its sender attached and the topics of the last valid request |

## Left out

- The spawned task that forwards the outbound channel onto the websocket sink (src/ws.rs:11-18) is asynchronous I/O. The sender is modelled only as a handle that becomes `Attached`.
- The `tokio::sync::Mutex` around the map (src/ws.rs:21, 36, 59) is left out. The map is owned sequentially, and interleavings with other connections, publishes or unregistrations are not modelled. So in the model `id` is always still present at the final removal, and `Disconnect`'s no-op case is stated but never reached by `ClientConnection`.
- serde JSON decoding (src/ws.rs:51) is a library call. It is the parameter `parse`.
- Logging with `println!` and `eprintln!` is left out.
- src/main.rs route wiring, CORS and server startup are transport glue. Only the empty initial registry is modelled.
- Registration, unregistration and publish dispatch live in src/handler.rs, which is not part of this model. `Client` and `TopicsRequest` come from src/structs.rs, which is not part of this model either. Client fields that src/ws.rs does not touch are one opaque value.
