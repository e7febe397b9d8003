/**
 The proxy as the program runs it: lists updated in place by loops. Each method is
 proved to do what the step functions of `QmiProxySpec` say, on the whole state.
 */
module QmiProxyServer {
  import opened QmiProxySpec
  import opened QmiCtlQueue

  /** Striking off the first occurrence, by its position. */
  lemma {:induction false} DropAt(clients: seq<Client>, client: Client, j: nat)
    requires j <= |clients| && client !in clients[..j] && (j < |clients| ==> clients[j] == client)
    ensures DropClient(clients, client) == if j == |clients| then clients else clients[..j] + clients[j + 1..]
    decreases j
  {
    if j > 0 {
      assert clients[0] == clients[..j][0] && clients[0] != client;
      assert clients[1..][..j - 1] == clients[..j][1..];
      assert DropClient(clients, client) == [clients[0]] + DropClient(clients[1..], client);
      DropAt(clients[1..], client, j - 1);
      hide DropClient;
      Shifted(clients, j);
    }
  }

  lemma {:induction false} Shifted(clients: seq<Client>, j: nat)
    requires 0 < j <= |clients|
    ensures [clients[0]] + clients[1..] == clients
    ensures j < |clients| ==>
      [clients[0]] + (clients[1..][..j - 1] + clients[1..][j..]) == clients[..j] + clients[j + 1..]
  {
    if j < |clients| {
      assert clients[1..][..j - 1] == clients[1..j] && clients[1..][j..] == clients[j + 1..];
      assert clients[..j] == [clients[0]] + clients[1..j];
    }
  }

  class Server {
    var serverFd: int
    var syncDone: bool
    var connections: seq<Connection>
    const ctlMsg: CtlQueue
    var count: nat
    ghost var live: seq<Pending>
    ghost var sent: seq<Pending>
    ghost var replies: seq<Message>
    ghost var forwarded: seq<Message>
    ghost var ctlOut: seq<Delivery>
    ghost var serviceOut: seq<Delivery>

    ghost predicate Valid()
      reads this, ctlMsg, ctlMsg.Repr()
    {
      ctlMsg.Valid()
    }

    ghost function Ctl(): Channel
      reads this, ctlMsg
    {
      Channel(ctlMsg.contents, live, sent, replies, count)
    }

    ghost function State(): Proxy
      reads this, ctlMsg
    {
      Proxy(serverFd, syncDone, connections, Ctl(), forwarded, ctlOut, serviceOut)
    }

    constructor ()
      ensures Valid() && fresh(ctlMsg) && fresh(ctlMsg.Repr()) && State() == Initial()
    {
      ctlMsg := new CtlQueue();
      serverFd, syncDone, connections, count := -1, false, [], 0;
      live, sent, replies, forwarded, ctlOut, serviceOut := [], [], [], [], [], [];
    }

    /** accept_qmi_connection, given the descriptor accept returned. */
    method AcceptConnection(clientFd: int)
      modifies this
      ensures State() == Accept(old(State()), clientFd)
    {
      connections := connections + [Connection(clientFd, [])];
    }

    /** Queues a CTL request; it goes out at once when the queue was empty. */
    method Enqueue(fd: int, msg: Message)
      requires Valid()
      modifies this`count, this`live, this`sent, ctlMsg, ctlMsg.Repr()
      ensures Valid() && fresh(ctlMsg.Repr() - old(ctlMsg.Repr()))
      ensures Ctl() == Push(old(Ctl()), fd, msg)
    {
      hide CtlQueue.Valid;
      var entry := Pending(fd, msg, count);
      var empty := ctlMsg.IsEmpty();
      if empty {
        sent := sent + [entry];
      }
      ctlMsg.AddLast(entry);
      live := live + [entry];
      count := count + 1;
    }

    /** recv_qmi_from_client. */
    method ReceiveFromClient(msg: Message, fd: int) returns (ret: int)
      requires Valid()
      modifies this, ctlMsg, ctlMsg.Repr()
      ensures Valid() && fresh(ctlMsg.Repr() - old(ctlMsg.Repr()))
      ensures State() == Request(old(State()), fd, msg)
      ensures ret == if old(serverFd) == -1 then -1 else 0
    {
      if serverFd == -1 {
        return -1;
      }
      if msg.Ctl? {
        if msg.ctlType == SYNC {
          return 0;
        }
        Enqueue(fd, msg);
      } else {
        forwarded := forwarded + [msg];
      }
      return 0;
    }

    /** get_client_id, for the connection at position i. */
    method GetClientId(i: nat, reply: Message)
      requires i < |connections| && reply.Ctl? && reply.ctlType == GET_CLIENT_ID
      modifies this`connections
      ensures connections == old(connections)[i := Connection(old(connections)[i].fd,
        Booked(old(connections)[i].clients, reply))]
    {
      if reply.result == 0 && reply.error == 0 {
        connections := connections[i := connections[i].(clients := connections[i].clients + [reply.client])];
      }
    }

    /** release_client_id: the first matching record goes. */
    method ReleaseClientId(i: nat, reply: Message)
      requires i < |connections| && reply.Ctl? && reply.ctlType == RELEASE_CLIENT_ID
      modifies this`connections
      ensures connections == old(connections)[i := Connection(old(connections)[i].fd,
        Booked(old(connections)[i].clients, reply))]
    {
      if reply.result == 0 && reply.error == 0 {
        var clients := connections[i].clients;
        var j := 0;
        while j < |clients| && clients[j] != reply.client
          invariant 0 <= j <= |clients|
          invariant reply.client !in clients[..j]
        {
          j := j + 1;
        }
        DropAt(clients, reply.client, j);
        hide DropClient;
        if j < |clients| {
          connections := connections[i := connections[i].(clients := clients[..j] + clients[j + 1..])];
        }
      }
    }

    /** Passes a CTL response to the connection at position i and books the id it grants or frees. */
    method ReplyTo(i: nat, reply: Message)
      requires i < |connections| && reply.Ctl?
      modifies this`connections, this`ctlOut
      ensures connections == old(connections)[i := Connection(old(connections)[i].fd,
        Booked(old(connections)[i].clients, reply))]
      ensures ctlOut == old(ctlOut) + [Delivery(old(connections)[i].fd, reply)]
    {
      ctlOut := ctlOut + [Delivery(connections[i].fd, reply)];
      if reply.ctlType == GET_CLIENT_ID {
        GetClientId(i, reply);
      } else if reply.ctlType == RELEASE_CLIENT_ID {
        ReleaseClientId(i, reply);
      }
    }

    /** The client part of a CTL response. */
    method RouteReply(fd: int, reply: Message)
      requires reply.Ctl?
      modifies this`connections, this`ctlOut
      ensures connections == BookReply(old(connections), fd, reply)
      ensures ctlOut == old(ctlOut) + DeliverTo(old(connections), fd, reply)
    {
      ghost var before := connections;
      ghost var booked := BookReply(before, fd, reply);
      var i := 0;
      while i < |connections|
        invariant 0 <= i <= |connections| == |before|
        invariant forall j :: 0 <= j < |before| ==> connections[j] == if j < i then booked[j] else before[j]
        invariant ctlOut + DeliverTo(before[i..], fd, reply) == old(ctlOut) + DeliverTo(before, fd, reply)
      {
        ghost var later := DeliverTo(before[i + 1..], fd, reply);
        assert before[i..][1..] == before[i + 1..];
        if connections[i].fd == fd {
          assert ctlOut + ([Delivery(fd, reply)] + later) == ctlOut + [Delivery(fd, reply)] + later;
          ReplyTo(i, reply);
        }
        i := i + 1;
      }
    }

    /** The queue head is done with; the next request goes out. */
    method Advance(reply: Message)
      requires Valid() && ctlMsg.contents != []
      modifies this`sent, this`replies, ctlMsg, ctlMsg.Repr()
      ensures Valid() && fresh(ctlMsg.Repr() - old(ctlMsg.Repr()))
      ensures Ctl() == Pop(old(Ctl()), reply)
    {
      hide CtlQueue.Valid;
      ctlMsg.RemoveFirst();
      replies := replies + [reply];
      var empty := ctlMsg.IsEmpty();
      if !empty {
        var next := ctlMsg.First();
        sent := sent + [next];
      }
    }

    /** Sends a service message to every connection, once per client record it is for. */
    method ForwardToHolders(msg: Message)
      requires msg.Service?
      modifies this`serviceOut
      ensures serviceOut == old(serviceOut) + Fanout(connections, msg)
    {
      hide Copies;
      ghost var all := old(serviceOut) + Fanout(connections, msg);
      var i := 0;
      assert connections[0..] == connections;
      while i < |connections|
        invariant 0 <= i <= |connections|
        invariant serviceOut + Fanout(connections[i..], msg) == all
      {
        assert connections[i..][1..] == connections[i + 1..];
        ghost var before, copies := serviceOut, Copies(connections[i].fd, connections[i].clients, msg);
        ForwardToHolder(connections[i], msg);
        assert before + (copies + Fanout(connections[i + 1..], msg)) == serviceOut + Fanout(connections[i + 1..], msg);
        i := i + 1;
      }
      assert serviceOut + [] == serviceOut;
    }

    /** One copy per client record that the message is for. */
    method ForwardToHolder(c: Connection, msg: Message)
      requires msg.Service?
      modifies this`serviceOut
      ensures serviceOut == old(serviceOut) + Copies(c.fd, c.clients, msg)
    {
      ghost var all := serviceOut + Copies(c.fd, c.clients, msg);
      var j := 0;
      assert c.clients[0..] == c.clients;
      while j < |c.clients|
        invariant 0 <= j <= |c.clients|
        invariant serviceOut + Copies(c.fd, c.clients[j..], msg) == all
      {
        assert c.clients[j..][1..] == c.clients[j + 1..];
        ghost var rest := Copies(c.fd, c.clients[j + 1..], msg);
        if msg.qmiType == c.clients[j].qmiType && (msg.clientId == 0 || msg.clientId == c.clients[j].clientId) {
          assert serviceOut + ([Delivery(c.fd, msg)] + rest) == serviceOut + [Delivery(c.fd, msg)] + rest;
          serviceOut := serviceOut + [Delivery(c.fd, msg)];
        } else {
          assert [] + rest == rest;
        }
        j := j + 1;
      }
      assert serviceOut + [] == serviceOut;
    }

    /** recv_qmi_from_dev. */
    method ReceiveFromDevice(msg: Message)
      requires Valid()
      modifies this, ctlMsg, ctlMsg.Repr()
      ensures Valid() && fresh(ctlMsg.Repr() - old(ctlMsg.Repr()))
      ensures State() == Device(old(State()), msg)
    {
      hide CtlQueue.Valid, Pop, BookReply, DeliverTo, Fanout;
      if serverFd == -1 {
        syncDone := true;
      } else if msg.Ctl? {
        if msg.flags == CTL_FLAG_RSP {
          var empty := ctlMsg.IsEmpty();
          if !empty {
            var head := ctlMsg.First();
            if !Matches(head.msg, msg) {
            } else if head.fd == serverFd {
            } else {
              RouteReply(head.fd, msg);
            }
            Advance(msg);
          }
        }
      } else {
        ForwardToHolders(msg);
      }
    }

    /** Queues a release for each client record of the connection, and drops the records. */
    method ReleaseAll(i: nat, disconnect: bool)
      requires Valid() && i < |connections|
      modifies this`connections, this`count, this`live, this`sent, ctlMsg, ctlMsg.Repr()
      ensures Valid() && fresh(ctlMsg.Repr() - old(ctlMsg.Repr()))
      ensures connections == old(connections)[i := Connection(old(connections)[i].fd, [])]
      ensures Ctl() == if disconnect then PushReleases(old(Ctl()), serverFd, old(connections)[i].clients)
        else old(Ctl())
    {
      ghost var target := if disconnect then PushReleases(Ctl(), serverFd, connections[i].clients) else Ctl();
      while connections[i].clients != []
        invariant i < |connections| && connections
          == old(connections)[i := Connection(old(connections)[i].fd, connections[i].clients)]
        invariant Valid() && fresh(ctlMsg.Repr() - old(ctlMsg.Repr()))
        invariant disconnect ==> PushReleases(Ctl(), serverFd, connections[i].clients) == target
        invariant !disconnect ==> Ctl() == target
        decreases |connections[i].clients|
      {
        var client := connections[i].clients[0];
        if disconnect {
          Enqueue(serverFd, ReleaseRequest(client));
        }
        connections := connections[i := connections[i].(clients := connections[i].clients[1..])];
      }
    }

    /** The first queued request of the connection is taken out. */
    method DropFirstQueued(fd: int)
      requires Valid()
      modifies this`live, ctlMsg, ctlMsg.Repr()
      ensures Valid() && fresh(ctlMsg.Repr() - old(ctlMsg.Repr()))
      ensures Ctl() == Withdraw(old(Ctl()), fd)
    {
      hide CtlQueue.Valid;
      var removed := ctlMsg.RemoveOf(fd);
      if removed.Some? {
        live := Delete(live, removed.value);
      }
    }

    /** cleanup_qmi_connection. */
    method CleanupConnection(fd: int, disconnect: bool)
      requires Valid()
      modifies this, ctlMsg, ctlMsg.Repr()
      ensures Valid() && fresh(ctlMsg.Repr() - old(ctlMsg.Repr()))
      ensures State() == Cleanup(old(State()), fd, disconnect)
    {
      hide CtlQueue.Valid, PushReleases, Withdraw;
      var i := 0;
      while i < |connections|
        invariant 0 <= i <= |connections| && State() == old(State())
        invariant Valid() && ctlMsg.Repr() == old(ctlMsg.Repr())
        invariant forall j :: 0 <= j < i ==> connections[j].fd != fd
      {
        if connections[i].fd == fd {
          assert IndexOf(connections, fd) == i;
          ReleaseAll(i, disconnect);
          DropFirstQueued(fd);
          connections := connections[..i] + connections[i + 1..];
          assert connections == old(connections)[..i] + old(connections)[i + 1..];
          return;
        }
        i := i + 1;
      }
    }

    /** The end of the proxy loop: every connection is closed, nothing is released. */
    method CloseAll()
      requires Valid()
      modifies this, ctlMsg, ctlMsg.Repr()
      ensures Valid() && fresh(ctlMsg.Repr() - old(ctlMsg.Repr()))
      ensures connections == []
      ensures sent == old(sent) && count == old(count)
    {
      while connections != []
        invariant Valid() && fresh(ctlMsg.Repr() - old(ctlMsg.Repr()))
        invariant sent == old(sent) && count == old(count)
        decreases |connections|
      {
        assert IndexOf(connections, connections[0].fd) == 0;
        CleanupConnection(connections[0].fd, false);
      }
    }

    /** What the poll loop does with one ready descriptor. */
    method Dispatch(e: Event)
      requires Valid() && Enabled(State(), e)
      modifies this, ctlMsg, ctlMsg.Repr()
      ensures Valid() && fresh(ctlMsg.Repr() - old(ctlMsg.Repr()))
      ensures State() == Step(old(State()), e)
    {
      hide Accept, Request, Device, Cleanup;
      match e {
        case Listening(fd) => Open(fd);
        case Accepted(fd) => AcceptConnection(fd);
        case Requested(fd, m) => var _ := ReceiveFromClient(m, fd);
        case FromDevice(m) => ReceiveFromDevice(m);
        case Closed(fd) => CleanupConnection(fd, true);
      }
    }

    /** The local server socket is made once the modem has synchronised. */
    method Open(fd: int)
      modifies this
      ensures State() == Listen(old(State()), fd)
    {
      serverFd := fd;
    }
  }
}

/** The poll loop, and what the run theorems say of the server after it. */
module QmiProxyLoop {
  import opened QmiProxySpec
  import opened QmiProxyOrder
  import opened QmiProxyClients
  import opened QmiProxyTraffic
  import opened QmiProxyServer

  /**
   The loop over whatever the poll reports. The server goes through the run of the model;
   if connections close safely it ends with at most one request outstanding, in order and
   routed, and with an honest modem, and clients that release only what they hold, every
   granted client id is in one place and every message for one goes to its holder, once.
   Whatever the closes, all it wrote is accounted for, and so is every request it took up.
   */
  method ProxyLoop(server: Server, events: seq<Event>)
    requires server.Valid() && server.State() == Initial() && EnabledRun(server.State(), events)
    modifies server, server.ctlMsg, server.ctlMsg.Repr()
    ensures server.Valid() && server.State() == Run(Initial(), events)
    ensures SafeRun(Initial(), events) ==>
      && 0 <= |server.sent| - |server.replies| <= 1 && server.sent <= server.live && |server.replies| <= |server.live|
      && server.ctlOut == Routed(server.serverFd, server.live, server.replies)
    ensures SafeRun(Initial(), events) && HonestRun(Initial(), {}, events) && OwnReleases(Initial(), events) ==>
      Held(server.connections) + Releasing(server.serverFd, server.ctlMsg.contents)
        == multiset(AllocatedAfter(Initial(), {}, events))
    ensures AllTold(Initial(), events, Writes(server.serviceOut, server.ctlOut, server.forwarded))
    ensures SafeRun(Initial(), events) && HonestRun(Initial(), {}, events) && OwnReleases(Initial(), events) ==>
      AllOnce(Initial(), events, Writes(server.serviceOut, server.ctlOut, server.forwarded))
    ensures Asks(server.live) + TakenBackIn(Initial(), events) == Asked(Initial(), events)
  {
    hide AllTold, AllOnce, Asks;
    var i := 0;
    assert events[0..] == events;
    while i < |events|
      invariant 0 <= i <= |events| && server.Valid() && fresh(server.ctlMsg.Repr() - old(server.ctlMsg.Repr()))
      invariant EnabledRun(server.State(), events[i..]) && Run(server.State(), events[i..]) == Run(Initial(), events)
    {
      assert events[i..][0] == events[i] && events[i..][1..] == events[i + 1..];
      server.Dispatch(events[i]);
      i := i + 1;
    }
    assert events[i..] == [];
    FromTheStart(events);
    if SafeRun(Initial(), events) {
      FifoAndRouting(events);
      if HonestRun(Initial(), {}, events) {
        InitialOrderly();
        RunConserves(Initial(), {}, events);
      }
    }
  }
}
