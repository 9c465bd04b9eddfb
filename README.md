# Chat relay server: client registry and broadcast fan-out

This project models the server side of a minimal line-based chat relay
(`src/ChatServer.java`). Clients connect over TCP; each connection is served by
a `ClientHandler` thread. The handler takes a random UUID as its identity,
registers itself in the server's map of clients, reads lines until the stream
ends and re-broadcasts each one to every *other* registered client as
`"Client <id>: <line>"`. When the stream ends, it deregisters itself.

The model has three modules:

- `Messages` (`messages.dfy`): the relayed message text `Format(id, line)`.
  `Parse` is its inverse. `IsUuidText` is the shape of generated identities.
  The lemmas prove that the prefix attributes every relayed line to exactly one
  sender and one line.
- `Delivery` (`delivery.dfy`): the effect of one broadcast, stated on values.
  The registered clients' outboxes form a map from identity to the lines sent
  so far, and `Fanout` gives that map after one broadcast. `ApplyTrace` folds
  `Fanout` over a trace of broadcasts from several senders, interleaved in any
  order, while the registry stays fixed. Its lemmas state who receives what,
  how many copies, and in what order.
- `Chat` (`chat_server.dfy`): the server and the connection handler, modelled
  as classes with state that is updated in place. `ChatServer.clients` is the
  registry (`map<string, ClientHandler>`). `AddClient` and `RemoveClient`
  update it. `BroadcastMessage` walks the registered handlers and calls
  `SendMessage` on each one whose `GetClientId()` differs from the sender.
  A handler's socket output is its `outbox`, a `seq<string>`, so that sending
  a line is an append. `ClientHandler.Run` is the session. It is given the
  identity (in place of `UUID.randomUUID()`) and the sequence of lines its
  socket yields before end of stream. Its `while` loop, `ReceiveLoop`, relays
  each line with `BroadcastMessage`.

The object invariant `ChatServer.Valid()` says that every registered handler
carries the identity it is registered under. This holds because `run()` sets
`clientId` before it calls `addClient(clientId, this)`. It means that a
broadcast's exclusion test on the handler's own id (line 30) is the same as
excluding the registry key of the sender.

Three behaviours of the code differ from what a reader might expect of a
chat relay. The model follows the code in each case:

- A relayed line carries the fixed word `Client` before the identity:
  `"Client " + id + ": " + line`, not only `"<id>: <line>"`.
- `addClient` uses `put`. A duplicate identity therefore replaces the existing
  entry instead of being rejected with a `DuplicateIdentity` failure.
  `AddClient` models the replacement.
- `broadcastMessage` iterates the live map, not a snapshot taken first. In the
  model, calls run one at a time, so the two give the same result.

## Model

| member | source | states |
|---|---|---|
| `Chat.ChatServer.constructor` | src/ChatServer.java:9 | the registry starts empty, and the empty registry satisfies the invariant |
| `Chat.ChatServer.RegisteredOnce` | src/ChatServer.java:9 | while the invariant holds, no handler is registered under two identities |
| `Chat.ChatServer.BroadcastMessage` | src/ChatServer.java:28-34 | the registry is unchanged (same keys, same handlers); the sender's outbox is unchanged; every other registered client's outbox gets the message appended exactly once; the outboxes equal `Fanout` of the old outboxes; unregistered handlers are sent nothing |
| `Chat.ChatServer.AddClient` | src/ChatServer.java:37-40 | afterwards `clientId` maps to the handler; an existing entry for it is overwritten, not rejected; every other entry is unchanged; the invariant is kept |
| `Chat.ChatServer.RemoveClient` | src/ChatServer.java:43-46 | afterwards `clientId` is absent and every other entry is unchanged; removing an absent id changes nothing, so a second removal has no effect |
| `Chat.ClientHandler.constructor` | src/ChatServer.java:64-67 | a new handler belongs to the given server, has no identity yet and has been sent nothing |
| `Chat.ClientHandler.SendMessage` | src/ChatServer.java:100-102 | sending appends exactly the message to this client's outbox and changes nothing else |
| `Chat.ClientHandler.Run` | src/ChatServer.java:70-97 | the session registers under `id`, relays, then deregisters; afterwards `id` and this handler are no longer registered and the registry is as before; each client registered at the start has been sent `Formatted(id, lines)`, i.e. `"Client " + id + ": " + line` for each line in read order; the session's own client is sent nothing |
| `Chat.ClientHandler.ReceiveLoop` | src/ChatServer.java:79-84 | while registered, relaying the lines leaves the registry unchanged; every other registered client gets exactly the formatted lines in read order; the sender's own outbox is unchanged |
| `Messages.Parse` | src/ChatServer.java:83 | whatever `Parse` accepts is a relayed message `"Client " + id + ": " + line` whose id has no ':', so any sender it reports did send that line |
| `Messages.ParseFormat` | src/ChatServer.java:83 | a relayed message parses back to its sender id and its line when the id contains no ':' |
| `Messages.FormatInjective` | src/ChatServer.java:83 | two relayed messages are equal only when sender and line both match, so the prefix attributes each message to its sender unambiguously |
| `Messages.UuidTextAttributable` | src/ChatServer.java:76 | a UUID-shaped identity is non-empty and contains no ':' |
| `Delivery.UuidSendersAttributable` | src/ChatServer.java:76 | a trace whose senders all have UUID-shaped identities meets the premise (`AttributableSenders`) of `PerSenderOrder` and `RecipientSeesSenderInOrder` |
| `Delivery.UuidSessionAttributable` | src/ChatServer.java:76-84 | the broadcasts of one session with a UUID-shaped identity meet that premise |
| `Delivery.Fanout` | src/ChatServer.java:28-34 | one broadcast keeps the set of registered clients; the sender's outbox is unchanged; every other outbox keeps its old contents as a prefix and grows by exactly one line |
| `Delivery.FanoutCopies` | src/ChatServer.java:29-31 | a broadcast adds exactly one copy of the message to each non-sender outbox and none to the sender's |
| `Delivery.ApplyTrace` | src/ChatServer.java:28-34 | any sequence of broadcasts leaves the set of registered clients unchanged |
| `Delivery.TraceDelivery` | src/ChatServer.java:28-34 | after a sequence of broadcasts, each client holds its old outbox followed by exactly the other senders' messages, in broadcast order |
| `Delivery.PerSenderOrder` | src/ChatServer.java:81-84 | in any interleaving of senders, the messages a client receives that are attributed to sender `s` carry exactly the lines `s` said, in `s`'s read order; a client receives none of its own lines |
| `Delivery.RecipientSeesSenderInOrder` | src/ChatServer.java:81-84 | a recipient's whole outbox, filtered by sender `s`, is its old filtered contents followed by `s`'s lines in order (nothing when the recipient is `s`) |
| `Delivery.SessionReceived` | src/ChatServer.java:81-84 | a single session's broadcasts deliver to every other client exactly `Formatted(id, lines)`, and nothing to the session's own client |

`ClientHandler.GetClientId` (src/ChatServer.java:105-107) is modelled as the
function `Chat.ClientHandler.GetClientId`. `BroadcastMessage` uses it for the
exclusion test. It has no contract of its own.

## Left out

- The accept loop, server socket, `main` and the port constant 12345
  (src/ChatServer.java:12-25, 49-52): network I/O and process startup.
- Stream plumbing: building the `PrintWriter`/`BufferedReader` and closing the
  streams and socket (src/ChatServer.java:72-73, 90-92). Output is the outbox
  and input is the `lines` parameter. A read error (`IOException`) ends the
  loop just as end of stream does, so both are covered by "the lines read
  before the loop ended".
- Threads and `ConcurrentHashMap` behaviour under concurrent mutation
  (src/ChatServer.java:9, 56). All operations run sequentially and each call
  completes before the next begins. Interleavings of different senders'
  broadcasts are modelled only at the level of `Delivery` traces over a fixed
  registry, not as interleaved `Run` calls.
- `UUID.randomUUID()` (src/ChatServer.java:76) is a foreign call. The
  identity is a parameter of `Run`.
- Console logging and `printStackTrace` (src/ChatServer.java:14, 22, 39, 45,
  82, 86, 94).
- The null dereference in the `finally` block when stream setup fails
  before the identity is set (src/ChatServer.java:89-90). This is a Java
  runtime failure, not part of the design.
- Write failures. `PrintWriter` swallows I/O errors, so a send always
  "succeeds"; in the model it always appends.
- `src/ChatClient.java` is not part of this model. It is a terminal
  pass-through with no relay logic.
- Chat.ChatServer.AddClient: requires the handler's own `clientId` to equal the
  key. `run()`, the only caller, guarantees this. Registering a handler under
  a foreign key would break the invariant behind the exclusion test and is not
  modelled.
- Chat.ClientHandler.Run: requires `id` not to be registered yet (the
  freshness of a random UUID). On a collision the code replaces the other
  client's entry and later removes it. That case is modelled by `AddClient`
  and `RemoveClient` but not stated for the whole session.
