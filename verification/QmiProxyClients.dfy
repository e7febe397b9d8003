/**
 Client-id conservation: for a modem that hands out each id once and honours releases,
 every id it has granted is held by exactly one connection or has exactly one release
 request on its way, at every point of a run whose connections close safely, if and only
 if every release a client gets accepted names an id that client holds. Then a message for
 one client id is delivered once, to its owner; the proxy does not see to the condition.
 */
module QmiProxyClients {
  import opened QmiProxySpec
  import opened QmiProxyOrder

  /** The ids connections hold, with multiplicity. */
  ghost function Held(conns: seq<Connection>): multiset<Client> {
    if conns == [] then multiset{} else multiset(conns[0].clients) + Held(conns[1..])
  }

  ghost function ReleaseOf(serverFd: int, p: Pending): multiset<Client> {
    if p.fd == serverFd && p.msg.Ctl? then multiset{p.msg.client} else multiset{}
  }

  /** The ids the proxy itself is releasing, with multiplicity. */
  ghost function Releasing(serverFd: int, queue: seq<Pending>): multiset<Client> {
    if queue == [] then multiset{} else ReleaseOf(serverFd, queue[0]) + Releasing(serverFd, queue[1..])
  }

  ghost predicate Conserved(s: Proxy, granted: set<Client>) {
    Held(s.connections) + Releasing(s.serverFd, s.ctl.queue) == multiset(granted)
  }

  ghost predicate HeldBy(conns: seq<Connection>, fd: int, client: Client) {
    exists i :: 0 <= i < |conns| && conns[i].fd == fd && client in conns[i].clients
  }

  /** A response on the control service, while clients are served. */
  ghost predicate Response(s: Proxy, m: Message) {
    s.serverFd != -1 && m.Ctl? && m.flags == CTL_FLAG_RSP
  }

  /**
   The modem answers the request it was given: a granted id is a free one, and a release
   names the requested id and is accepted exactly if that id is granted.
   */
  ghost predicate Honest(s: Proxy, granted: set<Client>, m: Message) {
    Response(s, m) ==>
      && s.ctl.queue != []
      && var head := s.ctl.queue[0];
      && Matches(head.msg, m)
      && (m.ctlType == GET_CLIENT_ID && Ok(m) ==> m.client !in granted)
      && (m.ctlType == RELEASE_CLIENT_ID ==> m.client == head.msg.client && (Ok(m) <==> m.client in granted))
  }

  /** If the response accepts a release that a client asked for, that client holds the id. */
  ghost predicate OwnRelease(s: Proxy, m: Message) {
    Response(s, m) && s.ctl.queue != [] && m.ctlType == RELEASE_CLIENT_ID && Ok(m) ==>
      s.ctl.queue[0].fd == s.serverFd || HeldBy(s.connections, s.ctl.queue[0].fd, m.client)
  }

  ghost function Allocated(s: Proxy, granted: set<Client>, m: Message): set<Client> {
    if s.serverFd == -1 || !m.Ctl? || m.flags != CTL_FLAG_RSP || !Ok(m) then granted
    else if m.ctlType == GET_CLIENT_ID then granted + {m.client}
    else if m.ctlType == RELEASE_CLIENT_ID then granted - {m.client}
    else granted
  }

  // ---- Bags ----

  lemma {:induction false} HeldSplit(conns: seq<Connection>, i: nat)
    requires i < |conns|
    ensures Held(conns) == Held(conns[..i] + conns[i + 1..]) + multiset(conns[i].clients)
  {
    if i == 0 {
      assert conns[..0] + conns[1..] == conns[1..];
    } else {
      HeldSplit(conns[1..], i - 1);
      var rest := conns[..i] + conns[i + 1..];
      assert rest[1..] == conns[1..][..i - 1] + conns[1..][i..];
    }
  }

  lemma {:induction false} ReleasingSplit(serverFd: int, queue: seq<Pending>, i: nat)
    requires i < |queue|
    ensures Releasing(serverFd, queue) == Releasing(serverFd, queue[..i] + queue[i + 1..])
      + ReleaseOf(serverFd, queue[i])
  {
    hide ReleaseOf;
    if i == 0 {
      assert queue[..0] + queue[1..] == queue[1..];
    } else {
      ReleasingSplit(serverFd, queue[1..], i - 1);
      var rest := queue[..i] + queue[i + 1..];
      assert rest[1..] == queue[1..][..i - 1] + queue[1..][i..];
    }
  }

  lemma {:induction false} ReleasingAppend(serverFd: int, queue: seq<Pending>, p: Pending)
    ensures Releasing(serverFd, queue + [p]) == Releasing(serverFd, queue) + ReleaseOf(serverFd, p)
  {
    if queue == [] {
      assert queue + [p] == [p];
    } else {
      ReleasingAppend(serverFd, queue[1..], p);
      assert (queue + [p])[1..] == queue[1..] + [p];
    }
  }

  lemma {:induction false} ReleasingPushed(ch: Channel, serverFd: int, clients: seq<Client>)
    ensures Releasing(serverFd, PushReleases(ch, serverFd, clients).queue)
      == Releasing(serverFd, ch.queue) + multiset(clients)
    decreases |clients|
  {
    if clients == [] {
      assert Releasing(serverFd, ch.queue) + multiset{} == Releasing(serverFd, ch.queue);
    } else {
      var p := Pending(serverFd, ReleaseRequest(clients[0]), ch.count);
      var next := Push(ch, serverFd, p.msg);
      assert next.queue == ch.queue + [p] && ReleaseOf(serverFd, p) == multiset{clients[0]};
      hide Push, ReleaseRequest, ReleaseOf, Releasing;
      ReleasingPushed(next, serverFd, clients[1..]);
      ReleasingAppend(serverFd, ch.queue, p);
      ConsBag(clients);
      BagAssoc(Releasing(serverFd, ch.queue), multiset{clients[0]}, multiset(clients[1..]));
    }
  }

  lemma {:induction false} ConsBag(clients: seq<Client>)
    requires clients != []
    ensures multiset(clients) == multiset{clients[0]} + multiset(clients[1..])
  {
    assert clients == [clients[0]] + clients[1..];
  }

  lemma {:induction false} BagAssoc(a: multiset<Client>, b: multiset<Client>, c: multiset<Client>)
    ensures a + b + c == a + (b + c)
  {
  }

  lemma {:induction false} DropClientBag(clients: seq<Client>, client: Client)
    requires client in clients
    ensures multiset(DropClient(clients, client)) + multiset{client} == multiset(clients)
  {
    assert clients == [clients[0]] + clients[1..];
    if clients[0] != client {
      DropClientBag(clients[1..], client);
    }
  }

  lemma {:induction false} HeldUpdated(conns: seq<Connection>, i: nat, c: Connection)
    requires i < |conns|
    ensures Held(conns[i := c]) + multiset(conns[i].clients) == Held(conns) + multiset(c.clients)
  {
    HeldSplit(conns, i);
    HeldSplit(conns[i := c], i);
    assert conns[i := c][..i] + conns[i := c][i + 1..] == conns[..i] + conns[i + 1..];
  }

  lemma {:induction false} BookedOne(serverFd: int, conns: seq<Connection>, i: nat, reply: Message)
    requires FdsOk(serverFd, conns) && i < |conns| && conns[i].fd != -1 && reply.Ctl?
    ensures BookReply(conns, conns[i].fd, reply) == conns[i := Connection(conns[i].fd, Booked(conns[i].clients, reply))]
  {
  }

  lemma {:induction false} BagCancel(a: multiset<Client>, b: multiset<Client>, c: multiset<Client>)
    requires a + c == b + c
    ensures a == b
  {
    forall x ensures a[x] == b[x] {
      assert (a + c)[x] == (b + c)[x];
    }
  }

  lemma {:induction false} AppendBag(clients: seq<Client>, client: Client)
    ensures multiset(clients + [client]) == multiset(clients) + multiset{client}
  {
  }

  /** How one answered request changes what connections hold. */
  lemma {:induction false} BookedBag(serverFd: int, conns: seq<Connection>, i: nat, m: Message)
    requires FdsOk(serverFd, conns) && i < |conns| && conns[i].fd != -1 && m.Ctl?
    requires Ok(m) && m.ctlType == RELEASE_CLIENT_ID ==> m.client in conns[i].clients
    ensures var after := Held(BookReply(conns, conns[i].fd, m));
      if Ok(m) && m.ctlType == GET_CLIENT_ID then after == Held(conns) + multiset{m.client}
      else if Ok(m) && m.ctlType == RELEASE_CLIENT_ID then after + multiset{m.client} == Held(conns)
      else after == Held(conns)
  {
    var clients := conns[i].clients;
    var after := Held(BookReply(conns, conns[i].fd, m));
    BookedOne(serverFd, conns, i, m);
    HeldUpdated(conns, i, Connection(conns[i].fd, Booked(clients, m)));
    if Ok(m) && m.ctlType == GET_CLIENT_ID {
      AppendBag(clients, m.client);
      BagCancel(after, Held(conns) + multiset{m.client}, multiset(clients));
    } else if Ok(m) && m.ctlType == RELEASE_CLIENT_ID {
      DropClientBag(clients, m.client);
      BagCancel(after + multiset{m.client}, Held(conns), multiset(DropClient(clients, m.client)));
    } else {
      BagCancel(after, Held(conns), multiset(clients));
    }
  }

  lemma {:induction false} BagOfSet(granted: set<Client>, client: Client)
    ensures client !in granted ==> multiset(granted + {client}) == multiset(granted) + multiset{client}
    ensures client in granted ==> multiset(granted - {client}) + multiset{client} == multiset(granted)
  {
  }

  lemma {:induction false} HolderIndex(serverFd: int, conns: seq<Connection>, fd: int, client: Client) returns (i: nat)
    requires FdsOk(serverFd, conns) && fd != -1 && Connected(conns, fd)
    ensures i < |conns| && conns[i].fd == fd
    ensures HeldBy(conns, fd, client) ==> client in conns[i].clients
  {
    i :| 0 <= i < |conns| && conns[i].fd == fd;
  }

  // ---- Steps ----

  /** A client's own request is answered. */
  lemma {:induction false} ClientAnswered(s: Proxy, granted: set<Client>, m: Message)
    requires Orderly(s) && Conserved(s, granted) && Response(s, m)
    requires Honest(s, granted, m) && OwnRelease(s, m) && s.ctl.queue[0].fd != s.serverFd
    ensures Held(Answer(s, m).connections) + Releasing(s.serverFd, s.ctl.queue) == multiset(Allocated(s, granted, m))
  {
    var head := s.ctl.queue[0];
    var i := HolderIndex(s.serverFd, s.connections, head.fd, m.client);
    BookedBag(s.serverFd, s.connections, i, m);
    BagOfSet(granted, m.client);
    var after := BookReply(s.connections, head.fd, m);
    assert Answer(s, m).connections == after;
    hide Orderly, Held, Releasing, BookReply, HeldBy, Answer, Honest, OwnRelease;
    var releasing := Releasing(s.serverFd, s.ctl.queue);
    if Ok(m) && m.ctlType == RELEASE_CLIENT_ID {
      BagShuffle(Held(after), multiset{m.client}, releasing);
      BagCancel(Held(after) + releasing, multiset(granted - {m.client}), multiset{m.client});
    } else if Ok(m) && m.ctlType == GET_CLIENT_ID {
      BagShuffle(Held(s.connections), multiset{m.client}, releasing);
    }
  }

  lemma {:induction false} BagShuffle(a: multiset<Client>, b: multiset<Client>, c: multiset<Client>)
    ensures a + b + c == a + c + b
  {
  }

  lemma {:induction false} AnswerConserves(s: Proxy, granted: set<Client>, m: Message)
    requires Orderly(s) && Conserved(s, granted) && Response(s, m)
    requires Honest(s, granted, m) && OwnRelease(s, m)
    ensures Conserved(Answer(s, m), Allocated(s, granted, m))
  {
    var head := s.ctl.queue[0];
    assert Releasing(s.serverFd, s.ctl.queue) == ReleaseOf(s.serverFd, head) + Releasing(s.serverFd, s.ctl.queue[1..]);
    if head.fd == s.serverFd {
      assert m.client in multiset(granted);
      assert multiset(granted - {m.client}) == multiset(granted) - multiset{m.client};
    } else {
      ClientAnswered(s, granted, m);
    }
  }

  lemma {:induction false} DropAbsent(clients: seq<Client>, client: Client)
    requires client !in clients
    ensures DropClient(clients, client) == clients
  {
    if clients != [] {
      DropAbsent(clients[1..], client);
      assert clients == [clients[0]] + clients[1..];
    }
  }

  /** Striking off an id that the requester does not hold changes no list. */
  lemma {:induction false} ForeignBooked(conns: seq<Connection>, fd: int, m: Message)
    requires m.Ctl? && m.ctlType == RELEASE_CLIENT_ID && !HeldBy(conns, fd, m.client)
    ensures BookReply(conns, fd, m) == conns
  {
    var after := BookReply(conns, fd, m);
    forall i | 0 <= i < |conns| ensures after[i] == conns[i] {
      if conns[i].fd == fd { DropAbsent(conns[i].clients, m.client); }
    }
  }

  /** An accepted release of somebody else's id leaves that id booked although the modem took it back. */
  lemma {:induction false} ForeignRelease(s: Proxy, granted: set<Client>, m: Message)
    requires Orderly(s) && Conserved(s, granted) && Honest(s, granted, m) && !OwnRelease(s, m)
    ensures !Conserved(Answer(s, m), Allocated(s, granted, m))
  {
    var head := s.ctl.queue[0];
    ForeignBooked(s.connections, head.fd, m);
    assert Releasing(s.serverFd, s.ctl.queue) == ReleaseOf(s.serverFd, head) + Releasing(s.serverFd, s.ctl.queue[1..]);
    assert multiset(granted)[m.client] == 1 && multiset(granted - {m.client})[m.client] == 0;
  }

  lemma {:induction false} HeldAccepted(conns: seq<Connection>, fd: int)
    ensures Held(conns + [Connection(fd, [])]) == Held(conns)
  {
    var after := conns + [Connection(fd, [])];
    HeldSplit(after, |conns|);
    assert after[..|conns|] + after[|conns| + 1..] == conns;
  }

  /** Closing moves every id the connection held to exactly one release on its way. */
  lemma {:induction false} CloseConserves(s: Proxy, granted: set<Client>, fd: int)
    requires Orderly(s) && Conserved(s, granted) && Enabled(s, Closed(fd)) && SafeClose(s, fd)
    ensures Conserved(Step(s, Closed(fd)), granted)
  {
    hide Orderly, Held, Releasing, Step, Closing, PushReleases, Withdraw;
    ClosingView(s, fd);
    CleanupView(s, fd);
    var i := IndexOf(s.connections, fd);
    var queue := Closing(s, fd).queue;
    var after := Step(s, Closed(fd));
    HeldSplit(s.connections, i);
    ClosingReleases(s, fd);
    UnqueuedReleases(s.serverFd, queue, fd);
    BagShuffle(Held(after.connections), Releasing(s.serverFd, s.ctl.queue), multiset(s.connections[i].clients));
    BagAssoc(Held(after.connections), Releasing(s.serverFd, s.ctl.queue), multiset(s.connections[i].clients));
  }

  lemma {:induction false} ClosingReleases(s: Proxy, fd: int)
    requires IndexOf(s.connections, fd) < |s.connections|
    ensures Releasing(s.serverFd, Closing(s, fd).queue)
      == Releasing(s.serverFd, s.ctl.queue) + multiset(s.connections[IndexOf(s.connections, fd)].clients)
  {
    ReleasingPushed(s.ctl, s.serverFd, s.connections[IndexOf(s.connections, fd)].clients);
  }

  /** Withdrawing a client's request withdraws no release of the proxy's own. */
  lemma {:induction false} UnqueuedReleases(serverFd: int, queue: seq<Pending>, fd: int)
    requires fd != serverFd
    ensures Releasing(serverFd, Unqueued(queue, fd)) == Releasing(serverFd, queue)
  {
    hide Releasing, FirstOf;
    var w := FirstOf(queue, fd);
    if w < |queue| {
      ReleasingSplit(serverFd, queue, w);
    }
  }

  lemma {:induction false} RequestConserves(s: Proxy, granted: set<Client>, fd: int, m: Message)
    requires Orderly(s) && Conserved(s, granted) && Enabled(s, Requested(fd, m))
    ensures Conserved(Request(s, fd, m), granted)
  {
    var p := Pending(fd, m, s.ctl.count);
    ReleasingAppend(s.serverFd, s.ctl.queue, p);
    assert ReleaseOf(s.serverFd, p) == multiset{};
  }

  lemma {:induction false} DeviceConserves(s: Proxy, granted: set<Client>, m: Message)
    requires Orderly(s) && Conserved(s, granted) && Honest(s, granted, m)
    ensures Conserved(Device(s, m), Allocated(s, granted, m)) <==> OwnRelease(s, m)
  {
    hide Orderly, Answer, Held, Releasing;
    if Response(s, m) {
      if OwnRelease(s, m) { AnswerConserves(s, granted, m); } else { ForeignRelease(s, granted, m); }
    }
  }

  lemma {:induction false} ListenConserves(s: Proxy, granted: set<Client>, fd: int)
    requires Orderly(s) && Conserved(s, granted) && Enabled(s, Listening(fd))
    ensures Conserved(Listen(s, fd), granted)
  {
  }

  /** What the modem has granted after an event. */
  ghost function AllocatedBy(s: Proxy, granted: set<Client>, e: Event): set<Client> {
    if e.FromDevice? then Allocated(s, granted, e.msg) else granted
  }

  /**
   With safe closes and an honest modem, an event keeps the ids iff it accepts no release of
   an id its client does not hold.
   */
  lemma {:induction false} StepConserves(s: Proxy, granted: set<Client>, e: Event)
    requires Orderly(s) && Conserved(s, granted) && Enabled(s, e)
    requires e.Closed? ==> SafeClose(s, e.fd)
    requires e.FromDevice? ==> Honest(s, granted, e.msg)
    ensures Conserved(Step(s, e), AllocatedBy(s, granted, e)) <==> (e.FromDevice? ==> OwnRelease(s, e.msg))
  {
    match e
    case Listening(fd) => ListenConserves(s, granted, fd);
    case Accepted(fd) => HeldAccepted(s.connections, fd);
    case Requested(fd, m) => RequestConserves(s, granted, fd, m);
    case FromDevice(m) => DeviceConserves(s, granted, m);
    case Closed(fd) => CloseConserves(s, granted, fd);
  }

  // ---- Runs ----

  /** The modem is honest throughout, its allocations moving with the run. */
  ghost predicate HonestRun(s: Proxy, granted: set<Client>, events: seq<Event>)
    decreases |events|
  {
    events == [] ||
    (&& (events[0].FromDevice? ==> Honest(s, granted, events[0].msg))
     && HonestRun(Step(s, events[0]), AllocatedBy(s, granted, events[0]), events[1..]))
  }

  /** Every release a client got accepted in the run was of an id it held. */
  ghost predicate OwnReleases(s: Proxy, events: seq<Event>)
    decreases |events|
  {
    events == [] ||
    ((events[0].FromDevice? ==> OwnRelease(s, events[0].msg)) && OwnReleases(Step(s, events[0]), events[1..]))
  }

  /** Ids are conserved at every point of the run. */
  ghost predicate AlwaysConserved(s: Proxy, granted: set<Client>, events: seq<Event>)
    decreases |events|
  {
    Conserved(s, granted) &&
    (events == [] || AlwaysConserved(Step(s, events[0]), AllocatedBy(s, granted, events[0]), events[1..]))
  }

  ghost function AllocatedAfter(s: Proxy, granted: set<Client>, events: seq<Event>): set<Client>
    decreases |events|
  {
    if events == [] then granted
    else AllocatedAfter(Step(s, events[0]), AllocatedBy(s, granted, events[0]), events[1..])
  }

  /**
   Over every run with safe closes and an honest modem: the granted ids are held or being
   released, each exactly once, at every point, if and only if every release a client got
   accepted was of an id that client held.
   */
  lemma {:induction false} RunConserves(s: Proxy, granted: set<Client>, events: seq<Event>)
    requires Orderly(s) && Conserved(s, granted)
    requires EnabledRun(s, events) && SafeRun(s, events) && HonestRun(s, granted, events)
    ensures AlwaysConserved(s, granted, events) <==> OwnReleases(s, events)
    ensures OwnReleases(s, events) ==> Conserved(Run(s, events), AllocatedAfter(s, granted, events))
    decreases |events|
  {
    hide Orderly, Conserved, Step, Enabled, SafeClose, Honest, OwnRelease, AllocatedBy;
    if events != [] {
      var e := events[0];
      StepOrderly(s, e);
      StepConserves(s, granted, e);
      if Conserved(Step(s, e), AllocatedBy(s, granted, e)) {
        RunConserves(Step(s, e), AllocatedBy(s, granted, e), events[1..]);
      } else {
        NotConserved(Step(s, e), AllocatedBy(s, granted, e), events[1..]);
      }
    }
  }

  lemma {:induction false} NotConserved(s: Proxy, granted: set<Client>, events: seq<Event>)
    requires !Conserved(s, granted)
    ensures !AlwaysConserved(s, granted, events)
  {
  }

  // ---- Delivery ----

  lemma {:induction false} CopiesOfOne(fd: int, clients: seq<Client>, m: Message)
    requires m.Service? && m.clientId != 0
    ensures forall d :: d in Copies(fd, clients, m) ==> d == Delivery(fd, m)
    ensures |Copies(fd, clients, m)| == multiset(clients)[Client(m.qmiType, m.clientId)]
  {
    if clients != [] {
      CopiesOfOne(fd, clients[1..], m);
      assert clients == [clients[0]] + clients[1..];
    }
  }

  lemma {:induction false} FanoutCount(conns: seq<Connection>, m: Message)
    requires m.Service? && m.clientId != 0
    ensures |Fanout(conns, m)| == Held(conns)[Client(m.qmiType, m.clientId)]
    ensures forall d :: d in Fanout(conns, m) ==> d.msg == m && HeldBy(conns, d.fd, Client(m.qmiType, m.clientId))
  {
    if conns != [] {
      var client := Client(m.qmiType, m.clientId);
      CopiesOfOne(conns[0].fd, conns[0].clients, m);
      FanoutCount(conns[1..], m);
      forall d | d in Fanout(conns, m) ensures d.msg == m && HeldBy(conns, d.fd, client) {
        if d in Copies(conns[0].fd, conns[0].clients, m) {
          assert client in multiset(conns[0].clients);
          assert conns[0].fd == d.fd && client in conns[0].clients;
        } else {
          var j :| 0 <= j < |conns[1..]| && conns[1..][j].fd == d.fd && client in conns[1..][j].clients;
          assert conns[j + 1] == conns[1..][j];
        }
      }
    }
  }

  lemma {:induction false} HeldMember(conns: seq<Connection>, client: Client) returns (fd: int)
    requires client in Held(conns)
    ensures HeldBy(conns, fd, client)
  {
    if client in conns[0].clients {
      fd := conns[0].fd;
    } else {
      fd := HeldMember(conns[1..], client);
      var j :| 0 <= j < |conns[1..]| && conns[1..][j].fd == fd && client in conns[1..][j].clients;
      assert conns[j + 1] == conns[1..][j];
    }
  }

  lemma {:induction false} HeldByCounts(conns: seq<Connection>, i: nat, client: Client)
    requires i < |conns| && client in conns[i].clients
    ensures client in Held(conns)
  {
    HeldSplit(conns, i);
    assert client in multiset(conns[i].clients);
  }

  /** With ids conserved, a message for one client id goes out once, to the only holder, or not at all. */
  lemma {:induction false} HolderReceives(s: Proxy, granted: set<Client>, m: Message)
    requires Orderly(s) && Conserved(s, granted) && m.Service? && m.clientId != 0
    ensures var client := Client(m.qmiType, m.clientId); var t := Step(s, FromDevice(m));
      && (forall fd :: HeldBy(s.connections, fd, client) <==> t.serviceOut == s.serviceOut + [Delivery(fd, m)])
      && ((forall fd :: !HeldBy(s.connections, fd, client)) ==> t.serviceOut == s.serviceOut)
    ensures |Fanout(s.connections, m)| <= 1
  {
    var client := Client(m.qmiType, m.clientId);
    var conns := s.connections;
    if s.serverFd == -1 {
      assert conns == [];
    } else {
      assert Held(conns)[client] <= 1 by { assert multiset(granted)[client] <= 1; }
      var out := Fanout(conns, m);
      assert Step(s, FromDevice(m)).serviceOut == s.serviceOut + out;
      hide Orderly, Conserved, Step, Fanout, Held;
      forall fd ensures HeldBy(conns, fd, client) <==> s.serviceOut + out == s.serviceOut + [Delivery(fd, m)] {
        assert (s.serviceOut + out)[|s.serviceOut|..] == out;
        assert (s.serviceOut + [Delivery(fd, m)])[|s.serviceOut|..] == [Delivery(fd, m)];
        HolderIff(conns, fd, m);
      }
      FanoutCount(conns, m);
      assert out != [] ==> out[0] in out && HeldBy(conns, out[0].fd, client);
      assert s.serviceOut + [] == s.serviceOut;
    }
  }

  lemma {:induction false} HolderIff(conns: seq<Connection>, fd: int, m: Message)
    requires m.Service? && m.clientId != 0 && Held(conns)[Client(m.qmiType, m.clientId)] <= 1
    ensures HeldBy(conns, fd, Client(m.qmiType, m.clientId)) <==> Fanout(conns, m) == [Delivery(fd, m)]
  {
    if HeldBy(conns, fd, Client(m.qmiType, m.clientId)) { OwnerReceives(conns, fd, m); }
    if Fanout(conns, m) == [Delivery(fd, m)] {
      FanoutCount(conns, m);
      assert Delivery(fd, m) in Fanout(conns, m);
    }
  }

  /**
   Over every safe run with an honest modem in which clients release only what they hold: a
   message for one client id goes out once, to the only connection holding that id, and to
   nobody when no connection holds it.
   */
  lemma {:induction false} DeliveredOnce(events: seq<Event>, m: Message)
    requires EnabledRun(Initial(), events) && SafeRun(Initial(), events)
    requires HonestRun(Initial(), {}, events) && OwnReleases(Initial(), events)
    requires m.Service? && m.clientId != 0
    ensures var s := Run(Initial(), events);
      var t := Step(s, FromDevice(m)); var client := Client(m.qmiType, m.clientId);
      && (forall fd :: HeldBy(s.connections, fd, client) <==> t.serviceOut == s.serviceOut + [Delivery(fd, m)])
      && ((forall fd :: !HeldBy(s.connections, fd, client)) ==> t.serviceOut == s.serviceOut)
      && |Fanout(s.connections, m)| <= 1
  {
    hide Orderly, Conserved, Step, Run;
    InitialOrderly();
    InitialConserved();
    OrderlyIffSafe(Initial(), events);
    RunConserves(Initial(), {}, events);
    HolderReceives(Run(Initial(), events), AllocatedAfter(Initial(), {}, events), m);
  }

  lemma {:induction false} InitialConserved()
    ensures Conserved(Initial(), {})
  {
  }

  lemma {:induction false} OwnerReceives(conns: seq<Connection>, fd: int, m: Message)
    requires m.Service? && m.clientId != 0
    requires Held(conns)[Client(m.qmiType, m.clientId)] <= 1
    requires HeldBy(conns, fd, Client(m.qmiType, m.clientId))
    ensures Fanout(conns, m) == [Delivery(fd, m)]
  {
    var client := Client(m.qmiType, m.clientId);
    FanoutCount(conns, m);
    var i :| 0 <= i < |conns| && conns[i].fd == fd && client in conns[i].clients;
    HeldByCounts(conns, i, client);
    var d := Fanout(conns, m)[0];
    assert d in Fanout(conns, m);
    var j :| 0 <= j < |conns| && conns[j].fd == d.fd && client in conns[j].clients;
    if i != j {
      OneHolder(conns, i, j, client);
    }
  }

  lemma {:induction false} OneHolder(conns: seq<Connection>, i: nat, j: nat, client: Client)
    requires i < |conns| && j < |conns| && i != j
    requires client in conns[i].clients && client in conns[j].clients
    ensures Held(conns)[client] >= 2
  {
    HeldSplit(conns, i);
    var rest := conns[..i] + conns[i + 1..];
    var k := if j < i then j else j - 1;
    assert rest[k] == conns[j];
    HeldByCounts(rest, k, client);
    assert client in multiset(conns[i].clients);
  }

  // ---- The failure ----

  /** The requests of the two clients and the modem's answers, all for one id. */
  ghost function AskId(): Message { Ctl(0, 1, GET_CLIENT_ID, 0, 0, Client(1, 0), []) }

  ghost function AskRelease(x: Client): Message { Ctl(0, 2, RELEASE_CLIENT_ID, 0, 0, x, []) }

  ghost function GrantId(x: Client): Message { Ctl(CTL_FLAG_RSP, 1, GET_CLIENT_ID, 0, 0, x, []) }

  ghost function AcceptRelease(x: Client): Message { Ctl(CTL_FLAG_RSP, 2, RELEASE_CLIENT_ID, 0, 0, x, []) }

  /** Clients 5 and 6 are connected, nothing is queued, `a` and `b` are their ids. */
  ghost predicate Served(s: Proxy, a: seq<Client>, b: seq<Client>) {
    s.serverFd == 3 && s.connections == [Connection(5, a), Connection(6, b)] && s.ctl.queue == []
  }

  /** One request of a client and its answer. */
  ghost function Exchange(fd: int, ask: Message, reply: Message): seq<Event> {
    [Requested(fd, ask), FromDevice(reply)]
  }

  /** The run is enabled, safe and the modem honest in it. */
  ghost predicate Fair(s: Proxy, granted: set<Client>, events: seq<Event>) {
    EnabledRun(s, events) && SafeRun(s, events) && HonestRun(s, granted, events)
  }

  lemma {:induction false} FairAppend(s: Proxy, granted: set<Client>, a: seq<Event>, b: seq<Event>)
    requires Fair(s, granted, a) && Fair(Run(s, a), AllocatedAfter(s, granted, a), b)
    ensures Fair(s, granted, a + b) && Run(s, a + b) == Run(Run(s, a), b)
    ensures AllocatedAfter(s, granted, a + b) == AllocatedAfter(Run(s, a), AllocatedAfter(s, granted, a), b)
    decreases |a|
  {
    hide Step, Enabled, SafeClose, Honest, AllocatedBy;
    if a == [] {
      assert a + b == b;
    } else {
      assert (a + b)[0] == a[0] && (a + b)[1..] == a[1..] + b;
      FairAppend(Step(s, a[0]), AllocatedBy(s, granted, a[0]), a[1..], b);
    }
  }

  /** One exchange of client 5 (`first`) or 6 with the modem, and what it leaves. */
  lemma {:induction false} Exchanged(s: Proxy, granted: set<Client>, a: seq<Client>, b: seq<Client>, first: bool,
      ask: Message,
      reply: Message)
    requires Served(s, a, b) && ask.Ctl? && ask.ctlType != SYNC && reply.Ctl? && reply.flags == CTL_FLAG_RSP
      && Ok(reply)
    requires Matches(ask, reply)
    requires reply.ctlType == GET_CLIENT_ID ==> reply.client !in granted
    requires reply.ctlType == RELEASE_CLIENT_ID ==> reply.client == ask.client && reply.client in granted
    ensures var events := Exchange(if first then 5 else 6, ask, reply);
      && Fair(s, granted, events)
      && AllocatedAfter(s, granted, events) == Allocated(s, granted, reply)
      && Served(Run(s, events), if first then Booked(a, reply) else a, if first then b else Booked(b, reply))
  {
    var fd := if first then 5 else 6;
    assert s.connections[0].fd == 5 && s.connections[1].fd == 6;
    var s1 := Step(s, Requested(fd, ask));
    assert s1.ctl.queue == [Pending(fd, ask, s.ctl.count)];
    var s2 := Step(s1, FromDevice(reply));
    assert s2.connections == BookReply(s.connections, fd, reply);
    assert s2.connections[0] == Connection(5, if first then Booked(a, reply) else a);
    assert s2.connections[1] == Connection(6, if first then b else Booked(b, reply));
    assert s2.connections == [s2.connections[0], s2.connections[1]];
    hide Run, EnabledRun, SafeRun, HonestRun, AllocatedAfter;
    FairNothing(s2, Allocated(s, granted, reply));
    FairCons(s1, granted, FromDevice(reply), []);
    assert [FromDevice(reply)] + [] == [FromDevice(reply)];
    FairCons(s, granted, Requested(fd, ask), [FromDevice(reply)]);
  }

  lemma {:induction false} FairNothing(s: Proxy, granted: set<Client>)
    ensures Fair(s, granted, []) && Run(s, []) == s && AllocatedAfter(s, granted, []) == granted
  {
  }

  lemma {:induction false} FairCons(s: Proxy, granted: set<Client>, e: Event, rest: seq<Event>)
    requires Enabled(s, e) && !e.Closed? && (e.FromDevice? ==> Honest(s, granted, e.msg))
    requires Fair(Step(s, e), AllocatedBy(s, granted, e), rest)
    ensures Fair(s, granted, [e] + rest) && Run(s, [e] + rest) == Run(Step(s, e), rest)
    ensures AllocatedAfter(s, granted, [e] + rest) == AllocatedAfter(Step(s, e), AllocatedBy(s, granted, e), rest)
  {
    hide Step, Enabled, Honest;
    assert ([e] + rest)[1..] == rest;
  }

  /**
   The proxy does not see to the condition: client 5 is granted an id, client 6 releases
   it, the modem takes it back and grants it to 6. No connection closed and every grant was
   of a free id, yet both clients have it booked and get every message for it.
   */
  lemma {:induction false} SharedId(x: Client, rest: seq<nat>)
    requires x.clientId != 0
    ensures var start := [Listening(3), Accepted(5), Accepted(6)];
      var one, two := Exchange(5, AskId(), GrantId(x)), Exchange(6, AskRelease(x), AcceptRelease(x));
      var events := start + one + two + Exchange(6, AskId(), GrantId(x));
      var m := Service(x.qmiType, x.clientId, rest);
      && Fair(Initial(), {}, events)
      && !OwnReleases(Initial(), events)
      && Fanout(Run(Initial(), events).connections, m) == [Delivery(5, m), Delivery(6, m)]
  {
    var start := [Listening(3), Accepted(5), Accepted(6)];
    var one, two := Exchange(5, AskId(), GrantId(x)), Exchange(6, AskRelease(x), AcceptRelease(x));
    var three := Exchange(6, AskId(), GrantId(x));
    TwoServed();
    var s0 := Run(Initial(), start);
    var s1 := Run(s0, one);
    var s2 := Run(s1, two);
    var s3 := Run(s2, three);
    Exchanged(s0, {}, [], [], true, AskId(), GrantId(x));
    assert Booked([], GrantId(x)) == [x] && Allocated(s0, {}, GrantId(x)) == {x};
    Exchanged(s1, {x}, [x], [], false, AskRelease(x), AcceptRelease(x));
    assert Booked([], AcceptRelease(x)) == [] && Allocated(s1, {x}, AcceptRelease(x)) == {};
    Exchanged(s2, {}, [x], [], false, AskId(), GrantId(x));
    hide Fair, Run, AllocatedAfter, Exchange, Booked;
    FairAppend(Initial(), {}, start, one);
    FairAppend(Initial(), {}, start + one, two);
    FairAppend(Initial(), {}, start + one + two, three);
    var events := start + one + two + three;
    var m := Service(x.qmiType, x.clientId, rest);
    TwiceForwarded(s3.connections, x, m);
    if OwnReleases(Initial(), events) {
      OnceOnly(events, m);
    }
  }

  lemma {:induction false} TwoServed()
    ensures var start := [Listening(3), Accepted(5), Accepted(6)];
      && Fair(Initial(), {}, start) && AllocatedAfter(Initial(), {}, start) == {}
      && Served(Run(Initial(), start), [], [])
  {
    var s1 := Step(Initial(), Listening(3));
    var s2 := Step(s1, Accepted(5));
    var s3 := Step(s2, Accepted(6));
    assert s2.connections == [Connection(5, [])] && s3.connections == [Connection(5, []), Connection(6, [])];
    hide Run, EnabledRun, SafeRun, HonestRun, AllocatedAfter;
    FairNothing(s3, {});
    FairCons(s2, {}, Accepted(6), []);
    assert [Accepted(6)] + [] == [Accepted(6)];
    FairCons(s1, {}, Accepted(5), [Accepted(6)]);
    FairCons(Initial(), {}, Listening(3), [Accepted(5), Accepted(6)]);
  }

  lemma {:induction false} TwiceForwarded(conns: seq<Connection>, x: Client, m: Message)
    requires conns == [Connection(5, [x]), Connection(6, [x])] && m.Service? && x == Client(m.qmiType, m.clientId)
    ensures Fanout(conns, m) == [Delivery(5, m), Delivery(6, m)]
  {
    assert conns[1..] == [Connection(6, [x])] && conns[1..][1..] == [];
    assert [x][1..] == [];
    assert Copies(5, [x], m) == [Delivery(5, m)] && Copies(6, [x], m) == [Delivery(6, m)];
    assert Fanout(conns[1..], m) == Copies(6, [x], m) + [];
    assert Fanout(conns, m) == Copies(5, [x], m) + Fanout(conns[1..], m);
  }

  lemma {:induction false} OnceOnly(events: seq<Event>, m: Message)
    requires Fair(Initial(), {}, events) && OwnReleases(Initial(), events) && m.Service? && m.clientId != 0
    ensures |Fanout(Run(Initial(), events).connections, m)| <= 1
  {
    DeliveredOnce(events, m);
  }
}
