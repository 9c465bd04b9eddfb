/**
  The chat server's shared state and the per-connection session.

  `ChatServer` holds the registry, a map from client identity to the
  handler of that client's connection, updated in place by `AddClient`
  and `RemoveClient`; `BroadcastMessage` walks the registered handlers and
  writes the message to every one whose identity differs from the sender's.

  `ClientHandler` is one accepted connection. What it writes to its socket
  is modelled as its `outbox`, so that a write is an append; the lines it
  reads from its socket are passed to `Run` as a sequence, and the random
  UUID it takes as its identity is passed in as `id`. Everything runs
  sequentially: one call completes before the next starts.
 */
module Chat {

  import opened Messages
  import opened Delivery

  class ChatServer {
    var clients: map<string, ClientHandler>

    /** Every registered handler carries the identity it is registered under. */
    ghost predicate Valid()
      reads this, clients.Values
    {
      forall k :: k in clients ==> clients[k].clientId == Some(k)
    }

    /** Hence no handler is registered under two identities. */
    lemma RegisteredOnce(k1: string, k2: string)
      requires Valid()
      requires k1 in clients && k2 in clients && k1 != k2
      ensures clients[k1] != clients[k2]
    {
    }

    /** What the registered clients have been sent, by identity. */
    ghost function Outboxes(): Outboxes
      reads this, clients.Values
    {
      map k | k in clients :: clients[k].outbox
    }

    /** The server starts with no client registered. */
    constructor ()
      ensures Valid() && clients == map[]
    {
      clients := map[];
    }

    /**
      Sends `message` to every registered client except the one whose
      identity is `sender`; the registry itself is not changed, and a
      client that is not registered (one whose session has ended) is
      sent nothing.
     */
    method BroadcastMessage(message: string, sender: string)
      requires Valid()
      modifies clients.Values`outbox
      ensures Valid() && clients == old(clients)
      ensures Outboxes() == Fanout(old(Outboxes()), sender, message)
      ensures forall h: ClientHandler :: old(allocated(h)) && h !in clients.Values ==> h.outbox == old(h.outbox)
      ensures forall k :: k in clients ==>
                clients[k].outbox == if k == sender then old(clients[k].outbox) else old(clients[k].outbox) + [message]
    {
      var pending := clients.Values;
      while pending != {}
        invariant pending <= clients.Values
        invariant forall client :: client in clients.Values ==>
                    client.outbox == if client in pending || client.clientId == Some(sender) then old(client.outbox)
                                     else old(client.outbox) + [message]
        decreases pending
      {
        var client :| client in pending;
        if client.GetClientId() != Some(sender) {
          client.SendMessage(message);
        }
        pending := pending - {client};
      }
      ghost var before, after := old(Outboxes()), Outboxes();
      forall k | k in clients
        ensures after[k] == if k == sender then before[k] else before[k] + [message]
      {
        assert clients[k].clientId == Some(k);
      }
      FanoutDetermined(before, after, sender, message);
    }

    /**
      Registers `clientHandler` under `clientId`. An entry already present
      for `clientId` is replaced, not rejected; every other entry stays.
     */
    method AddClient(clientId: string, clientHandler: ClientHandler)
      requires Valid()
      requires clientHandler.clientId == Some(clientId)
      modifies this
      ensures Valid()
      ensures clients == old(clients)[clientId := clientHandler]
      ensures clientId in clients && clients[clientId] == clientHandler
      ensures clients.Keys == old(clients.Keys) + {clientId}
      ensures forall k :: k in old(clients) && k != clientId ==> clients[k] == old(clients[k])
    {
      clients := clients[clientId := clientHandler];
    }

    /**
      Deregisters `clientId`; every other entry stays. Removing an identity
      that is not registered changes nothing, so removing twice is the
      same as removing once.
     */
    method RemoveClient(clientId: string)
      requires Valid()
      modifies this
      ensures Valid()
      ensures clients == old(clients) - {clientId}
      ensures clientId !in clients
      ensures clients.Keys == old(clients.Keys) - {clientId}
      ensures forall k :: k in clients ==> clients[k] == old(clients[k])
      ensures clientId !in old(clients) ==> clients == old(clients)
    {
      clients := clients - {clientId};
    }
  }

  class ClientHandler {
    const server: ChatServer
    /** None until the session has taken its identity. */
    var clientId: Option<string>
    /** Everything written to this client's socket, oldest first. */
    var outbox: seq<string>

    constructor (server: ChatServer)
      ensures this.server == server && clientId == None && outbox == []
    {
      this.server := server;
      clientId := None;
      outbox := [];
    }

    function GetClientId(): Option<string>
      reads this
    {
      clientId
    }

    /** Writes one line to this client. */
    method SendMessage(msg: string)
      modifies this`outbox
      ensures outbox == old(outbox) + [msg]
    {
      outbox := outbox + [msg];
    }

    /**
      One connection's session: take the identity `id` and register under
      it, relay each line read (`lines`, up to end of stream or a read
      error) to the other clients as "Client <id>: <line>", then
      deregister. Every client registered when the session started has
      been sent exactly the session's lines, in read order; this client is
      sent none of them; afterwards the registry is as it was, so `id` is
      no longer registered.
     */
    method Run(id: string, lines: seq<string>)
      requires server.Valid()
      requires clientId == None
      requires id !in server.clients
      modifies this, server, server.clients.Values`outbox
      ensures server.Valid()
      ensures clientId == Some(id) && outbox == old(outbox)
      ensures server.clients == old(server.clients)
      ensures id !in server.clients && this !in server.clients.Values
      ensures forall k :: k in server.clients ==>
                server.clients[k].outbox == old(server.clients[k].outbox) + Formatted(id, lines)
    {
      clientId := Some(id);
      server.AddClient(id, this);
      ReceiveLoop(lines);
      server.RemoveClient(id);
    }

    /**
      The receive loop of a registered session: each line read is relayed,
      in read order, as "Client <id>: <line>" with this client's identity
      as the sender. The registry does not change; every other registered
      client is sent exactly the formatted lines, this client none.
     */
    method ReceiveLoop(lines: seq<string>)
      requires server.Valid()
      requires clientId.Some? && clientId.value in server.clients && server.clients[clientId.value] == this
      modifies server.clients.Values`outbox
      ensures server.Valid() && server.clients == old(server.clients)
      ensures forall k :: k in server.clients ==>
                server.clients[k].outbox == old(server.clients[k].outbox)
                                            + (if k == clientId.value then [] else Formatted(clientId.value, lines))
    {
      var id := clientId.value;
      var i := 0;
      while i < |lines|
        invariant i <= |lines|
        invariant server.Valid() && server.clients == old(server.clients)
        invariant forall k :: k in server.clients ==>
                    server.clients[k].outbox == old(server.clients[k].outbox)
                                                + (if k == id then [] else Formatted(id, lines[..i]))
      {
        assert lines[..i + 1][..i] == lines[..i];
        assert Formatted(id, lines[..i + 1]) == Formatted(id, lines[..i]) + [Format(id, lines[i])];
        server.BroadcastMessage(Format(id, lines[i]), id);
        i := i + 1;
      }
      assert lines[..i] == lines;
    }
  }
}
