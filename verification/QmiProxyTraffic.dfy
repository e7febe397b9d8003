/**
 Everything the QMI proxy writes, over every run: service messages to the clients that have
 a record for them, CTL responses to the requester, the clients' service messages to the
 modem, and the CTL requests taken up, none made up and none lost but those withdrawn.
 */
module QmiProxyTraffic {
  import opened QmiProxySpec
  import opened QmiProxyOrder
  import opened QmiProxyClients

  /** To clients: service messages and CTL responses. To the modem: service messages. */
  datatype Writes = Writes(service: seq<Delivery>, replies: seq<Delivery>, modem: seq<Message>)

  const NOTHING := Writes([], [], [])

  function Plus(a: Writes, b: Writes): Writes {
    Writes(a.service + b.service, a.replies + b.replies, a.modem + b.modem)
  }

  function Written(s: Proxy): Writes {
    Writes(s.serviceOut, s.ctlOut, s.forwarded)
  }

  // ---- What one event should write ----

  /** The records of one service in a client list. */
  ghost function OfService(clients: seq<Client>, qmiType: nat): nat {
    if clients == [] then 0 else (if clients[0].qmiType == qmiType then 1 else 0) + OfService(clients[1..], qmiType)
  }

  /** The records a service message is for: those with its client id, or all of its service when it has none. */
  ghost function RecordsFor(clients: seq<Client>, m: Message): nat
    requires m.Service?
  {
    if m.clientId == 0 then OfService(clients, m.qmiType) else multiset(clients)[Client(m.qmiType, m.clientId)]
  }

  ghost function RecordsAt(conns: seq<Connection>, fd: int, m: Message): nat
    requires m.Service?
  {
    if conns == [] then 0
    else (if conns[0].fd == fd then RecordsFor(conns[0].clients, m) else 0) + RecordsAt(conns[1..], fd, m)
  }

  /** Each descriptor is given the message once per record it is for, and nothing else is given. */
  ghost predicate PerRecord(conns: seq<Connection>, m: Message, now: seq<Delivery>)
    requires m.Service?
  {
    && (forall fd :: multiset(now)[Delivery(fd, m)] == RecordsAt(conns, fd, m))
    && forall d :: d in now ==> d.msg == m
  }

  /** A response goes to the client that asked the request at the head, if it has its id and type. */
  ghost predicate ToRequester(s: Proxy, m: Message, now: seq<Delivery>)
    requires m.Ctl?
  {
    now ==
      if s.ctl.queue != [] && m.flags == CTL_FLAG_RSP
        && s.ctl.queue[0].msg.Ctl? && s.ctl.queue[0].msg.tid == m.tid && s.ctl.queue[0].msg.ctlType == m.ctlType
        && s.ctl.queue[0].fd != s.serverFd && Connected(s.connections, s.ctl.queue[0].fd)
      then [Delivery(s.ctl.queue[0].fd, m)] else []
  }

  ghost predicate Told(s: Proxy, e: Event, w: Writes) {
    if e.FromDevice? && s.serverFd != -1 then
      && w.modem == []
      && if e.msg.Service? then PerRecord(s.connections, e.msg, w.service) && w.replies == []
         else ToRequester(s, e.msg, w.replies) && w.service == []
    else if e.Requested? && e.msg.Service? then w == Writes([], [], [e.msg])
    else w == NOTHING
  }

  ghost predicate AllTold(s: Proxy, events: seq<Event>, w: Writes)
    decreases |events|
  {
    if events == [] then w == NOTHING
    else exists now, later ::
      w == Plus(now, later) && Told(s, events[0], now) && AllTold(Step(s, events[0]), events[1..], later)
  }

  // ---- What every run keeps, safe or not ----

  ghost predicate Sound(s: Proxy) {
    && FdsOk(s.serverFd, s.connections)
    && (s.serverFd == -1 ==> s.connections == [] && s.ctl.queue == [])
    && forall i :: 0 <= i < |s.ctl.queue| ==> s.ctl.queue[i].fd != -1
  }

  lemma {:induction false} StepSound(s: Proxy, e: Event)
    requires Sound(s) && Enabled(s, e)
    ensures Sound(Step(s, e))
  {
    match e
    case Listening(fd) =>
    case Accepted(fd) => AcceptSound(s, fd);
    case Requested(fd, m) =>
    case FromDevice(m) =>
      if s.serverFd != -1 && m.Ctl? && m.flags == CTL_FLAG_RSP && s.ctl.queue != [] {
        FdsBooked(s.serverFd, s.connections, s.ctl.queue[0].fd, m);
      }
    case Closed(fd) => CloseSound(s, fd);
  }

  lemma {:induction false} AcceptSound(s: Proxy, fd: int)
    requires Sound(s) && Enabled(s, Accepted(fd))
    ensures Sound(Step(s, Accepted(fd)))
  {
    var after := s.connections + [Connection(fd, [])];
    if fd != -1 { assert forall i :: 0 <= i < |s.connections| ==> s.connections[i].fd != fd; }
  }

  lemma {:induction false} CloseSound(s: Proxy, fd: int)
    requires Sound(s) && Enabled(s, Closed(fd))
    ensures Sound(Step(s, Closed(fd)))
  {
    hide FdsOk, PushReleases, Withdraw;
    var i := IndexOf(s.connections, fd);
    FdsWithout(s.serverFd, s.connections, i);
    var ch := Closing(s, fd);
    PushReleasesAppends(s.ctl, s.serverFd, s.connections[i].clients);
    WithdrawPart(ch, fd);
  }

  lemma {:induction false} WithdrawPart(ch: Channel, fd: int)
    ensures forall i :: 0 <= i < |Withdraw(ch, fd).queue| ==> Withdraw(ch, fd).queue[i] in ch.queue
  {
    hide FirstOf, Delete;
  }

  lemma {:induction false} RunSound(s: Proxy, events: seq<Event>)
    requires Sound(s) && EnabledRun(s, events)
    ensures Sound(Run(s, events))
    decreases |events|
  {
    hide Sound, Step, Enabled;
    if events != [] {
      StepSound(s, events[0]);
      RunSound(Step(s, events[0]), events[1..]);
    }
  }

  // ---- Copies ----

  lemma {:induction false} CopiesPerRecord(fd: int, clients: seq<Client>, m: Message)
    requires m.Service?
    ensures |Copies(fd, clients, m)| == RecordsFor(clients, m)
    ensures forall d :: d in Copies(fd, clients, m) ==> d == Delivery(fd, m)
  {
    if clients != [] {
      CopiesPerRecord(fd, clients[1..], m);
      assert clients == [clients[0]] + clients[1..];
    }
  }

  lemma {:induction false} AllAlike(s: seq<Delivery>, d: Delivery, x: Delivery)
    requires forall y :: y in s ==> y == d
    ensures multiset(s)[x] == if x == d then |s| else 0
  {
    if s != [] {
      assert s == [s[0]] + s[1..] && s[0] in s;
      assert forall y :: y in s[1..] ==> y in s;
      AllAlike(s[1..], d, x);
    }
  }

  lemma {:induction false} FanoutPerRecord(conns: seq<Connection>, m: Message, fd: int)
    requires m.Service?
    ensures multiset(Fanout(conns, m))[Delivery(fd, m)] == RecordsAt(conns, fd, m)
    ensures forall d :: d in Fanout(conns, m) ==> d.msg == m
  {
    if conns != [] {
      var here := Copies(conns[0].fd, conns[0].clients, m);
      CopiesPerRecord(conns[0].fd, conns[0].clients, m);
      AllAlike(here, Delivery(conns[0].fd, m), Delivery(fd, m));
      FanoutPerRecord(conns[1..], m, fd);
      assert Fanout(conns, m) == here + Fanout(conns[1..], m);
      hide Copies, RecordsFor, Fanout;
    }
  }

  // ---- Events ----

  lemma {:induction false} ServiceTold(s: Proxy, m: Message)
    requires m.Service? && s.serverFd != -1
    ensures exists now :: Written(Step(s, FromDevice(m))) == Plus(Written(s), now) && Told(s, FromDevice(m), now)
  {
    hide Fanout, RecordsAt;
    var now := Writes(Fanout(s.connections, m), [], []);
    forall fd ensures multiset(now.service)[Delivery(fd, m)] == RecordsAt(s.connections, fd, m) {
      FanoutPerRecord(s.connections, m, fd);
    }
    FanoutPerRecord(s.connections, m, 0);
    assert Written(Step(s, FromDevice(m))) == Plus(Written(s), now);
    assert Told(s, FromDevice(m), now);
  }

  lemma {:induction false} DeliverToRequester(serverFd: int, conns: seq<Connection>, fd: int, reply: Message)
    requires FdsOk(serverFd, conns) && fd != -1
    ensures DeliverTo(conns, fd, reply) == if Connected(conns, fd) then [Delivery(fd, reply)] else []
  {
    if Connected(conns, fd) {
      DeliverToOnce(serverFd, conns, fd, reply);
    } else {
      DeliverToAbsent(conns, fd, reply);
    }
  }

  lemma {:induction false} ReplyTold(s: Proxy, m: Message)
    requires Sound(s) && m.Ctl? && s.serverFd != -1
    ensures exists now :: Written(Step(s, FromDevice(m))) == Plus(Written(s), now) && Told(s, FromDevice(m), now)
  {
    hide FdsOk, DeliverTo, BookReply, Connected, Pop;
    var t := Step(s, FromDevice(m));
    var out := if m.flags == CTL_FLAG_RSP && s.ctl.queue != [] && Matches(s.ctl.queue[0].msg, m)
        && s.ctl.queue[0].fd != s.serverFd then DeliverTo(s.connections, s.ctl.queue[0].fd, m) else [];
    if s.ctl.queue != [] { DeliverToRequester(s.serverFd, s.connections, s.ctl.queue[0].fd, m); }
    var now := Writes([], out, []);
    assert Written(t) == Plus(Written(s), now);
    assert Told(s, FromDevice(m), now);
  }

  lemma {:induction false} StepTells(s: Proxy, e: Event)
    requires Sound(s) && Enabled(s, e)
    ensures exists now :: Written(Step(s, e)) == Plus(Written(s), now) && Told(s, e, now)
  {
    if e.FromDevice? && s.serverFd != -1 {
      hide Told, Step;
      if e.msg.Service? { ServiceTold(s, e.msg); } else { ReplyTold(s, e.msg); }
    } else {
      hide Withdraw, PushReleases;
      var now := if e.Requested? && e.msg.Service? then Writes([], [], [e.msg]) else NOTHING;
      assert Written(Step(s, e)) == Plus(Written(s), now);
      assert Told(s, e, now);
    }
  }

  /**
   Over every run, safe or not: a service message of the modem goes to each connection once
   for every record it is for, a CTL response to the client whose request is at the head, a
   client's service message to the modem, all in order, and nothing else is ever written.
   */
  lemma {:induction false} EveryWrite(s: Proxy, events: seq<Event>) returns (w: Writes)
    requires Sound(s) && EnabledRun(s, events)
    ensures Written(Run(s, events)) == Plus(Written(s), w) && AllTold(s, events, w)
    decreases |events|
  {
    hide Sound, Step, Enabled, Told, Written;
    if events == [] {
      w := NOTHING;
      assert Plus(Written(s), NOTHING) == Written(s);
    } else {
      StepSound(s, events[0]);
      StepTells(s, events[0]);
      var s1 := Step(s, events[0]);
      var now :| Written(s1) == Plus(Written(s), now) && Told(s, events[0], now);
      var later := EveryWrite(s1, events[1..]);
      w := Plus(now, later);
      PlusAssoc(Written(s), now, later);
    }
  }

  lemma {:induction false} PlusAssoc(a: Writes, b: Writes, c: Writes)
    ensures Plus(Plus(a, b), c) == Plus(a, Plus(b, c))
  {
    assert a.service + b.service + c.service == a.service + (b.service + c.service);
    assert a.replies + b.replies + c.replies == a.replies + (b.replies + c.replies);
    assert a.modem + b.modem + c.modem == a.modem + (b.modem + c.modem);
  }

  // ---- Once, to the holder ----

  /** A message for one client id goes to the connection that holds the id, once, or to nobody if none does. */
  ghost predicate OnceToHolder(s: Proxy, e: Event, w: Writes) {
    e.FromDevice? && e.msg.Service? && e.msg.clientId != 0 ==>
      var client := Client(e.msg.qmiType, e.msg.clientId);
      && (forall fd :: HeldBy(s.connections, fd, client) <==> w.service == [Delivery(fd, e.msg)])
      && ((forall fd :: !HeldBy(s.connections, fd, client)) ==> w.service == [])
  }

  ghost predicate AllOnce(s: Proxy, events: seq<Event>, w: Writes)
    decreases |events|
  {
    if events == [] then w == NOTHING
    else exists now, later ::
      w == Plus(now, later) && OnceToHolder(s, events[0], now) && AllOnce(Step(s, events[0]), events[1..], later)
  }

  lemma {:induction false} StepOnce(s: Proxy, granted: set<Client>, e: Event, now: Writes)
    requires Orderly(s) && Conserved(s, granted) && Written(Step(s, e)) == Plus(Written(s), now)
    ensures OnceToHolder(s, e, now)
  {
    if e.FromDevice? && e.msg.Service? && e.msg.clientId != 0 {
      hide Orderly, Conserved;
      HolderReceives(s, granted, e.msg);
      assert now.service == (s.serviceOut + now.service)[|s.serviceOut|..];
      assert forall fd :: (s.serviceOut + [Delivery(fd, e.msg)])[|s.serviceOut|..] == [Delivery(fd, e.msg)];
    }
  }

  lemma {:induction false} RunOnce(s: Proxy, granted: set<Client>, events: seq<Event>) returns (w: Writes)
    requires Orderly(s) && Conserved(s, granted) && Sound(s)
    requires EnabledRun(s, events) && SafeRun(s, events) && HonestRun(s, granted, events) && OwnReleases(s, events)
    ensures Written(Run(s, events)) == Plus(Written(s), w) && AllOnce(s, events, w)
    decreases |events|
  {
    hide Orderly, Conserved, Sound, Step, Enabled, SafeClose, Honest, OwnRelease, AllocatedBy, Told, Written;
    hide OnceToHolder;
    if events == [] {
      w := NOTHING;
      assert Plus(Written(s), NOTHING) == Written(s) by { PlusNothing(Written(s)); }
    } else {
      var e := events[0];
      StepOrderly(s, e);
      StepConserves(s, granted, e);
      StepSound(s, e);
      StepTells(s, e);
      var s1 := Step(s, e);
      var now :| Written(s1) == Plus(Written(s), now) && Told(s, e, now);
      StepOnce(s, granted, e, now);
      var later := RunOnce(s1, AllocatedBy(s, granted, e), events[1..]);
      w := Plus(now, later);
      PlusAssoc(Written(s), now, later);
    }
  }

  lemma {:induction false} PlusNothing(w: Writes)
    ensures Plus(w, NOTHING) == w
  {
  }

  // ---- What is booked ----

  /**
   A response that fits the request at the head changes the records of the client that asked:
   a granted id is added, a released one struck off, and only if the response reports
   neither a failure nor an error. No other response changes a record.
   */
  lemma {:induction false} BookedIff(s: Proxy, m: Message, i: nat)
    requires Sound(s) && s.serverFd != -1 && i < |s.connections|
    ensures var t := Step(s, FromDevice(m)); var c := s.connections[i];
      && |t.connections| == |s.connections| && t.connections[i].fd == c.fd
      && t.connections[i].clients ==
           if m.Ctl? && ToRequester(s, m, [Delivery(c.fd, m)]) && m.result == 0 && m.error == 0
           then if m.ctlType == 0x22 then c.clients + [m.client]
                else if m.ctlType == 0x23 then DropClient(c.clients, m.client) else c.clients
           else c.clients
  {
    hide DropClient, Pop, Fanout, DeliverTo;
    if s.ctl.queue != [] && s.ctl.queue[0].fd == s.connections[i].fd {
      assert Connected(s.connections, s.ctl.queue[0].fd);
    }
  }

  /** The modem counts as synchronised exactly once it sent something before clients were served. */
  lemma {:induction false} SyncedIff(s: Proxy, events: seq<Event>)
    ensures Run(s, events).syncDone <==> s.syncDone || AnsweredEarly(s, events)
    decreases |events|
  {
    if events != [] {
      SyncedStep(s, events[0]);
      SyncedIff(Step(s, events[0]), events[1..]);
    }
  }

  ghost predicate AnsweredEarly(s: Proxy, events: seq<Event>)
    decreases |events|
  {
    events != [] && ((events[0].FromDevice? && s.serverFd == -1) || AnsweredEarly(Step(s, events[0]), events[1..]))
  }

  lemma {:induction false} SyncedStep(s: Proxy, e: Event)
    ensures Step(s, e).syncDone <==> s.syncDone || (e.FromDevice? && s.serverFd == -1)
  {
    hide Withdraw, PushReleases, Fanout, BookReply, DeliverTo, Pop;
  }

  // ---- The requests taken up ----

  /** A request, without the serial number it was given. */
  type Ask = (int, Message)

  ghost function Asks(ps: seq<Pending>): multiset<Ask> {
    if ps == [] then multiset{} else multiset{(ps[0].fd, ps[0].msg)} + Asks(ps[1..])
  }

  ghost function ReleaseAsks(serverFd: int, clients: seq<Client>): multiset<Ask> {
    if clients == [] then multiset{}
    else multiset{(serverFd, ReleaseRequest(clients[0]))} + ReleaseAsks(serverFd, clients[1..])
  }

  /** What an event asks the modem for: a client's CTL request other than SYNC, or the ids of a closing connection. */
  ghost function AskedBy(s: Proxy, e: Event): multiset<Ask> {
    match e
    case Requested(fd, m) => if m.Ctl? && m.ctlType != SYNC then multiset{(fd, m)} else multiset{}
    case Closed(fd) =>
      var i := IndexOf(s.connections, fd);
      if i < |s.connections| then ReleaseAsks(s.serverFd, s.connections[i].clients) else multiset{}
    case _ => multiset{}
  }

  /** What a close takes back: the connection's first request in the queue. */
  ghost function TakenBack(s: Proxy, e: Event): multiset<Ask> {
    if e.Closed? && FirstOf(s.ctl.queue, e.fd) < |s.ctl.queue|
    then multiset{(e.fd, s.ctl.queue[FirstOf(s.ctl.queue, e.fd)].msg)} else multiset{}
  }

  ghost function Asked(s: Proxy, events: seq<Event>): multiset<Ask>
    decreases |events|
  {
    if events == [] then multiset{} else AskedBy(s, events[0]) + Asked(Step(s, events[0]), events[1..])
  }

  ghost function TakenBackIn(s: Proxy, events: seq<Event>): multiset<Ask>
    decreases |events|
  {
    if events == [] then multiset{} else TakenBack(s, events[0]) + TakenBackIn(Step(s, events[0]), events[1..])
  }

  /** What is queued is in the history, in order. */
  ghost predicate Backed(ch: Channel) {
    Increasing(ch.queue, ch.count) && forall i :: 0 <= i < |ch.queue| ==> ch.queue[i] in ch.live
  }

  lemma {:induction false} AsksAppend(a: seq<Pending>, b: seq<Pending>)
    ensures Asks(a + b) == Asks(a) + Asks(b)
  {
    hide Asks;
    if a == [] {
      AskNone();
      assert a + b == b && multiset{} + Asks(b) == Asks(b);
    } else {
      AsksAppend(a[1..], b);
      assert (a + b)[1..] == a[1..] + b && (a + b)[0] == a[0];
      AskFirst(a);
      AskFirst(a + b);
      AsksAssoc(multiset{(a[0].fd, a[0].msg)}, Asks(a[1..]), Asks(b));
    }
  }

  lemma {:induction false} AskNone()
    ensures Asks([]) == multiset{}
  {
  }

  lemma {:induction false} AskFirst(ps: seq<Pending>)
    requires ps != []
    ensures Asks(ps) == multiset{(ps[0].fd, ps[0].msg)} + Asks(ps[1..])
  {
  }

  lemma {:induction false} AsksAssoc(a: multiset<Ask>, b: multiset<Ask>, c: multiset<Ask>)
    ensures a + b + c == a + (b + c)
  {
  }

  lemma {:induction false} AsksDelete(s: seq<Pending>, p: Pending)
    requires p in s
    ensures Asks(Delete(s, p)) + multiset{(p.fd, p.msg)} == Asks(s)
  {
    if s[0] != p {
      AsksDelete(s[1..], p);
      assert ([s[0]] + Delete(s[1..], p))[1..] == Delete(s[1..], p);
    }
  }

  lemma {:induction false} PushBacked(ch: Channel, fd: int, msg: Message)
    requires Backed(ch)
    ensures Backed(Push(ch, fd, msg)) && Push(ch, fd, msg).count == ch.count + 1
    ensures Asks(Push(ch, fd, msg).live) == Asks(ch.live) + multiset{(fd, msg)}
  {
    var p := Pending(fd, msg, ch.count);
    AsksAppend(ch.live, [p]);
    AskFirst([p]);
    AskNone();
    assert [p][1..] == [];
    hide Asks;
    var next := Push(ch, fd, msg);
    assert next.live == ch.live + [p] && next.queue == ch.queue + [p];
    forall i | 0 <= i < |next.queue| ensures next.queue[i] in next.live {
      if i < |ch.queue| { assert ch.queue[i] in ch.live; } else { assert p in [p]; }
    }
  }

  lemma {:induction false} PushReleasesBacked(ch: Channel, serverFd: int, clients: seq<Client>)
    requires Backed(ch)
    ensures Backed(PushReleases(ch, serverFd, clients))
    ensures Asks(PushReleases(ch, serverFd, clients).live) == Asks(ch.live) + ReleaseAsks(serverFd, clients)
    decreases |clients|
  {
    if clients == [] {
      assert Asks(ch.live) + multiset{} == Asks(ch.live);
    } else {
      var ask := ReleaseRequest(clients[0]);
      var next := Push(ch, serverFd, ask);
      PushBacked(ch, serverFd, ask);
      hide Asks, Push, Backed, ReleaseRequest;
      PushReleasesBacked(next, serverFd, clients[1..]);
      AsksAssoc(Asks(ch.live), multiset{(serverFd, ask)}, ReleaseAsks(serverFd, clients[1..]));
    }
  }

  lemma {:induction false} WithdrawBacked(ch: Channel, fd: int)
    requires Backed(ch)
    ensures Backed(Withdraw(ch, fd))
    ensures var i := FirstOf(ch.queue, fd);
      Asks(Withdraw(ch, fd).live) + (if i < |ch.queue| then multiset{(fd, ch.queue[i].msg)} else multiset{})
        == Asks(ch.live)
  {
    hide FirstOf, Asks;
    var i := FirstOf(ch.queue, fd);
    if i < |ch.queue| {
      var p := ch.queue[i];
      AsksDelete(ch.live, p);
      hide Delete;
      RestBacked(ch, i);
    }
  }

  lemma {:induction false} RestBacked(ch: Channel, i: nat)
    requires Backed(ch) && i < |ch.queue|
    ensures var rest := ch.queue[..i] + ch.queue[i + 1..];
      Increasing(rest, ch.count) && forall j :: 0 <= j < |rest| ==> rest[j] in Delete(ch.live, ch.queue[i])
  {
    hide Delete;
    var p := ch.queue[i];
    var rest := ch.queue[..i] + ch.queue[i + 1..];
    IncreasingWithout(ch.queue, i, ch.count);
    forall j | 0 <= j < |rest| ensures rest[j] in Delete(ch.live, p) {
      var k := if j < i then j else j + 1;
      assert rest[j] == ch.queue[k] && ch.queue[k].serial != p.serial;
      DeleteOthers(ch.live, p, rest[j]);
    }
  }

  lemma {:induction false} DeleteOthers(s: seq<Pending>, p: Pending, q: Pending)
    requires q in s && q != p
    ensures q in Delete(s, p)
  {
    if s[0] != p && s[0] != q { DeleteOthers(s[1..], p, q); }
  }

  /** One event: what it asks for is taken up, and only a close takes a request back. */
  lemma {:induction false} StepAsks(s: Proxy, e: Event)
    requires Sound(s) && Backed(s.ctl) && Enabled(s, e)
    ensures Backed(Step(s, e).ctl)
    ensures Asks(Step(s, e).ctl.live) + TakenBack(s, e) == Asks(s.ctl.live) + AskedBy(s, e)
  {
    hide Asks, Backed, FdsOk;
    match e
    case Requested(fd, m) => if m.Ctl? && m.ctlType != SYNC { PushBacked(s.ctl, fd, m); }
    case Closed(fd) => CloseAsks(s, fd);
    case FromDevice(m) => PopBacked(s, m);
    case _ =>
  }

  lemma {:induction false} PopBacked(s: Proxy, m: Message)
    requires Backed(s.ctl)
    ensures Backed(Step(s, FromDevice(m)).ctl) && Step(s, FromDevice(m)).ctl.live == s.ctl.live
  {
    hide BookReply, DeliverTo, Fanout;
  }

  lemma {:induction false} CloseAsks(s: Proxy, fd: int)
    requires Sound(s) && Backed(s.ctl) && Enabled(s, Closed(fd))
    ensures Backed(Step(s, Closed(fd)).ctl)
    ensures Asks(Step(s, Closed(fd)).ctl.live) + TakenBack(s, Closed(fd)) == Asks(s.ctl.live) + AskedBy(s, Closed(fd))
  {
    var i := IndexOf(s.connections, fd);
    assert i < |s.connections| && fd != s.serverFd;
    hide Asks, Backed, Sound, Push, PushReleases, Withdraw, FirstOf;
    var ch := PushReleases(s.ctl, s.serverFd, s.connections[i].clients);
    assert Step(s, Closed(fd)).ctl == Withdraw(ch, fd);
    PushReleasesBacked(s.ctl, s.serverFd, s.connections[i].clients);
    PushReleasesAppends(s.ctl, s.serverFd, s.connections[i].clients);
    WithdrawBacked(ch, fd);
    FirstBefore(s.ctl.queue, Releases(s.serverFd, s.connections[i].clients, s.ctl.count), fd);
  }

  lemma {:induction false} FirstBefore(queue: seq<Pending>, more: seq<Pending>, fd: int)
    requires forall i :: 0 <= i < |more| ==> more[i].fd != fd
    ensures FirstOf(queue, fd) < |queue| ==> FirstOf(queue + more, fd) == FirstOf(queue, fd)
    ensures FirstOf(queue, fd) == |queue| ==> FirstOf(queue + more, fd) == |queue + more|
  {
    hide FirstOf;
    var all := queue + more;
    assert forall k :: 0 <= k < |all| ==> all[k] == if k < |queue| then queue[k] else more[k - |queue|];
  }

  /**
   Over every run, safe or not: the requests in the history and those taken back by closes
   are together exactly what the clients and the closing connections asked for.
   */
  lemma {:induction false} RunAsks(s: Proxy, events: seq<Event>)
    requires Sound(s) && Backed(s.ctl) && EnabledRun(s, events)
    ensures Asks(Run(s, events).ctl.live) + TakenBackIn(s, events) == Asks(s.ctl.live) + Asked(s, events)
    decreases |events|
  {
    hide Asks, Backed, Sound, Step, Enabled, AskedBy, TakenBack;
    if events == [] {
      assert Asks(s.ctl.live) + multiset{} == Asks(s.ctl.live);
    } else {
      var s1 := Step(s, events[0]);
      StepSound(s, events[0]);
      StepAsks(s, events[0]);
      RunAsks(s1, events[1..]);
      AsksAssoc(Asks(s.ctl.live), AskedBy(s, events[0]), Asked(s1, events[1..]));
      Balance(Asks(Run(s1, events[1..]).ctl.live), TakenBackIn(s1, events[1..]), TakenBack(s, events[0]),
              Asks(s1.ctl.live), Asks(s.ctl.live), AskedBy(s, events[0]), Asked(s1, events[1..]));
    }
  }

  lemma {:induction false} Balance(end: multiset<Ask>, takenLater: multiset<Ask>, taken: multiset<Ask>,
      mid: multiset<Ask>, start: multiset<Ask>, asked: multiset<Ask>, askedLater: multiset<Ask>)
    requires end + takenLater == mid + askedLater && mid + taken == start + asked
    ensures end + (taken + takenLater) == start + asked + askedLater
  {
    forall x ensures (end + (taken + takenLater))[x] == (start + asked + askedLater)[x] {
      assert (end + takenLater)[x] == (mid + askedLater)[x] && (mid + taken)[x] == (start + asked)[x];
    }
  }

  /** From the start, all of it together. */
  lemma {:induction false} FromTheStart(events: seq<Event>)
    requires EnabledRun(Initial(), events)
    ensures AllTold(Initial(), events, Written(Run(Initial(), events)))
    ensures Asks(Run(Initial(), events).ctl.live) + TakenBackIn(Initial(), events) == Asked(Initial(), events)
    ensures SafeRun(Initial(), events) && HonestRun(Initial(), {}, events) && OwnReleases(Initial(), events) ==>
      AllOnce(Initial(), events, Written(Run(Initial(), events)))
  {
    StartSound();
    hide AllTold, AllOnce, Sound, Backed, Conserved, Orderly, Written, Asks, Run, EnabledRun;
    var w := EveryWrite(Initial(), events);
    NothingPlus(w);
    RunAsks(Initial(), events);
    AskNone();
    assert multiset{} + Asked(Initial(), events) == Asked(Initial(), events);
    if SafeRun(Initial(), events) && HonestRun(Initial(), {}, events) && OwnReleases(Initial(), events) {
      InitialOrderly();
      InitialConserved();
      var o := RunOnce(Initial(), {}, events);
      NothingPlus(o);
    }
  }

  lemma {:induction false} StartSound()
    ensures Sound(Initial()) && Backed(Initial().ctl) && Written(Initial()) == NOTHING && Initial().ctl.live == []
  {
  }

  lemma {:induction false} NothingPlus(w: Writes)
    ensures Plus(NOTHING, w) == w
  {
    assert [] + w.service == w.service && [] + w.replies == w.replies && [] + w.modem == w.modem;
  }
}
