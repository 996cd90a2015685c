/** The two sides of the port handshake as a chat peer executes them, with its table of clients
    (client_socket.c, server_socket.c, and the table of chat.c). */
module ChatPeer {
  import opened Common
  import opened PortMessage

  const MAX_CLIENTS := 10

  datatype ClientInfo = ClientInfo(socketFd: int, ipAddr: string, listeningPort: int)

  /** handle_error ends the process; a full table only refuses this connection. */
  datatype Outcome = ProcessExits | Refused | Joined

  class Clients {
    const clients: array<ClientInfo>
    var clientCount: nat

    ghost predicate Valid()
      reads this
    {
      clients.Length == MAX_CLIENTS && clientCount <= MAX_CLIENTS
    }

    ghost function Table(): seq<ClientInfo>
      requires Valid()
      reads this, clients
    {
      clients[..clientCount]
    }

    constructor ()
      ensures Valid() && fresh(clients) && Table() == []
    {
      clients := new ClientInfo[MAX_CLIENTS](_ => ClientInfo(0, "", 0));
      clientCount := 0;
    }

    /** The critical section under client_mutex. */
    method Insert(info: ClientInfo) returns (inserted: bool)
      requires Valid()
      modifies this, clients
      ensures Valid() && (inserted <==> |old(Table())| < MAX_CLIENTS)
      ensures Table() == old(Table()) + (if inserted then [info] else [])
    {
      if clientCount < MAX_CLIENTS {
        clients[clientCount] := info;
        clientCount := clientCount + 1;
        return true;
      }
      return false;
    }

    /** client_socketStart after connect: receive first, then send. `received` is None when the
        receive fails or the peer hung up. */
    method ClientSocketStart(received: Option<string>, ownPort: nat, sendOk: bool, fd: int, ip: string)
      returns (sent: Option<string>, outcome: Outcome)
      requires Valid()
      modifies this, clients
      ensures Valid()
      ensures sent == if received.Some? && Scan(received.value).Some? then Some(Print(ownPort)) else None
      ensures outcome == ProcessExits <==> sent.None? || !sendOk
      ensures outcome == Refused <==> sent.Some? && sendOk && |old(Table())| >= MAX_CLIENTS
      ensures outcome == Joined ==> Table() == old(Table()) + [ClientInfo(fd, ip, Scan(received.value).value)]
      ensures outcome != Joined ==> Table() == old(Table())
    {
      sent := None;
      if received.None? {
        return sent, ProcessExits;
      }
      var port := Scan(received.value);
      if port.None? {
        return sent, ProcessExits;
      }
      sent := Some(Print(ownPort));
      if !sendOk {
        return sent, ProcessExits;
      }
      var inserted := Insert(ClientInfo(fd, ip, port.value));
      outcome := if inserted then Joined else Refused;
    }

    /** server_startClientThread: send first, without waiting for the other side, then receive. */
    method ServerStartClientThread(received: Option<string>, ownPort: nat, sendOk: bool, fd: int, ip: string)
      returns (sent: Option<string>, outcome: Outcome)
      requires Valid()
      modifies this, clients
      ensures Valid() && sent == Some(Print(ownPort))
      ensures outcome == ProcessExits <==> !sendOk || received.None? || Scan(received.value).None?
      ensures outcome == Refused ==> |old(Table())| >= MAX_CLIENTS
      ensures outcome == Joined ==> Table() == old(Table()) + [ClientInfo(fd, ip, Scan(received.value).value)]
      ensures outcome != Joined ==> Table() == old(Table())
    {
      sent := Some(Print(ownPort));
      if !sendOk || received.None? {
        return sent, ProcessExits;
      }
      var port := Scan(received.value);
      if port.None? {
        return sent, ProcessExits;
      }
      var inserted := Insert(ClientInfo(fd, ip, port.value));
      outcome := if inserted then Joined else Refused;
    }
  }

  /** The two sides run against each other: each ends with the other's listening port in its table,
      unless its own table was full. */
  method Exchange(client: Clients, server: Clients, clientPort: nat, serverPort: nat, clientFd: int, serverFd: int, ip: string)
    requires client.Valid() && server.Valid() && client != server && client.clients != server.clients
    modifies client, client.clients, server, server.clients
    ensures client.Valid() && server.Valid()
    ensures client.Table() == old(client.Table()) +
      (if |old(client.Table())| < MAX_CLIENTS then [ClientInfo(clientFd, ip, serverPort)] else [])
    ensures server.Table() == old(server.Table()) +
      (if |old(server.Table())| < MAX_CLIENTS then [ClientInfo(serverFd, ip, clientPort)] else [])
  {
    ScanUndoesPrint(clientPort, []);
    ScanUndoesPrint(serverPort, []);
    assert Print(clientPort) + [] == Print(clientPort) && Print(serverPort) + [] == Print(serverPort);
    var sent, outcome := client.ClientSocketStart(Some(Print(serverPort)), clientPort, true, clientFd, ip);
    var reply, result := server.ServerStartClientThread(sent, serverPort, true, serverFd, ip);
    assert reply == Some(Print(serverPort));
  }
}
