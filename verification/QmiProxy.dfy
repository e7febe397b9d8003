/**
 The QMI proxy of `quectel-qmi-proxy.c`: many local clients share one modem
 control channel. CTL requests go through one queue; the request at its head is
 the one the modem is working on. Client ids the modem grants are recorded per
 connection and released when the connection closes.

 This module states what each step does to the whole proxy, as functions on values.
 */
module QmiProxySpec {

  const CTL_FLAG_RSP: nat := 0x01
  const GET_CLIENT_ID: nat := 0x0022
  const RELEASE_CLIENT_ID: nat := 0x0023
  const SYNC: nat := 0x0027
  const RELEASE_TID: nat := 255

  /** A client id of one modem service. */
  datatype Client = Client(qmiType: nat, clientId: nat)

  /** A QMI message: on the control service, or for one of the other services. */
  datatype Message =
    | Ctl(flags: nat, tid: nat, ctlType: nat, result: nat, error: nat, client: Client, rest: seq<nat>)
    | Service(qmiType: nat, clientId: nat, rest: seq<nat>)

  datatype Connection = Connection(fd: int, clients: seq<Client>)

  /** A queued CTL request and who asked. `serial` counts the requests queued before it. */
  datatype Pending = Pending(fd: int, msg: Message, serial: nat)

  datatype Delivery = Delivery(fd: int, msg: Message)

  /**
   The control channel. `queue` is the proxy's list; the rest is its history:
   `live` every request ever queued except those a closing connection withdrew,
   `sent` what was written to the modem, `replies` the responses consumed.
   */
  datatype Channel = Channel(
    queue: seq<Pending>,
    live: seq<Pending>,
    sent: seq<Pending>,
    replies: seq<Message>,
    count: nat)

  datatype Proxy = Proxy(
    serverFd: int,
    syncDone: bool,
    connections: seq<Connection>,
    ctl: Channel,
    forwarded: seq<Message>,
    ctlOut: seq<Delivery>,
    serviceOut: seq<Delivery>)

  const EMPTY_CHANNEL := Channel([], [], [], [], 0)

  function Initial(): Proxy {
    Proxy(-1, false, [], EMPTY_CHANNEL, [], [], [])
  }

  // ---- The control channel ----

  function Push(ch: Channel, fd: int, msg: Message): Channel {
    var p := Pending(fd, msg, ch.count);
    Channel(ch.queue + [p], ch.live + [p], if ch.queue == [] then ch.sent + [p] else ch.sent, ch.replies, ch.count + 1)
  }

  function Pop(ch: Channel, reply: Message): Channel
    requires ch.queue != []
  {
    var rest := ch.queue[1..];
    Channel(rest, ch.live, if rest == [] then ch.sent else ch.sent + [rest[0]], ch.replies + [reply], ch.count)
  }

  function FirstOf(queue: seq<Pending>, fd: int): (i: nat)
    ensures i <= |queue|
    ensures i < |queue| ==> queue[i].fd == fd
    ensures forall j :: 0 <= j < i ==> queue[j].fd != fd
  {
    if queue == [] || queue[0].fd == fd then 0 else 1 + FirstOf(queue[1..], fd)
  }

  function Delete(s: seq<Pending>, p: Pending): seq<Pending> {
    if s == [] then [] else if s[0] == p then s[1..] else [s[0]] + Delete(s[1..], p)
  }

  /** A closing connection takes its first queued request out, wherever it stands. */
  function Withdraw(ch: Channel, fd: int): Channel {
    var i := FirstOf(ch.queue, fd);
    if i == |ch.queue| then ch
    else ch.(queue := ch.queue[..i] + ch.queue[i + 1..], live := Delete(ch.live, ch.queue[i]))
  }

  // ---- Steps ----

  function Matches(request: Message, reply: Message): bool {
    request.Ctl? && reply.Ctl? && request.tid == reply.tid && request.ctlType == reply.ctlType
  }

  predicate Ok(reply: Message) {
    reply.Ctl? && reply.result == 0 && reply.error == 0
  }

  function ReleaseRequest(client: Client): Message {
    Ctl(0x00, RELEASE_TID, RELEASE_CLIENT_ID, 0, 0, client, [])
  }

  function IndexOf(conns: seq<Connection>, fd: int): (i: nat)
    ensures i <= |conns|
    ensures i < |conns| ==> conns[i].fd == fd
    ensures forall j :: 0 <= j < i ==> conns[j].fd != fd
  {
    if conns == [] || conns[0].fd == fd then 0 else 1 + IndexOf(conns[1..], fd)
  }

  predicate Connected(conns: seq<Connection>, fd: int) {
    exists i :: 0 <= i < |conns| && conns[i].fd == fd
  }

  function DropClient(clients: seq<Client>, client: Client): seq<Client> {
    if clients == [] then []
    else if clients[0] == client then clients[1..]
    else [clients[0]] + DropClient(clients[1..], client)
  }

  /** What a connection's client list becomes when its request is answered. */
  function Booked(clients: seq<Client>, reply: Message): seq<Client>
    requires reply.Ctl?
  {
    if !Ok(reply) then clients
    else if reply.ctlType == GET_CLIENT_ID then clients + [reply.client]
    else if reply.ctlType == RELEASE_CLIENT_ID then DropClient(clients, reply.client)
    else clients
  }

  function BookReply(conns: seq<Connection>, fd: int, reply: Message): seq<Connection>
    requires reply.Ctl?
  {
    seq(|conns|, i requires 0 <= i < |conns| =>
      if conns[i].fd == fd then Connection(fd, Booked(conns[i].clients, reply)) else conns[i])
  }

  function DeliverTo(conns: seq<Connection>, fd: int, reply: Message): seq<Delivery> {
    if conns == [] then []
    else (if conns[0].fd == fd then [Delivery(fd, reply)] else []) + DeliverTo(conns[1..], fd, reply)
  }

  predicate Wanted(client: Client, m: Message) {
    m.Service? && m.qmiType == client.qmiType && (m.clientId == 0 || m.clientId == client.clientId)
  }

  function Copies(fd: int, clients: seq<Client>, m: Message): seq<Delivery> {
    if clients == [] then []
    else (if Wanted(clients[0], m) then [Delivery(fd, m)] else []) + Copies(fd, clients[1..], m)
  }

  function Fanout(conns: seq<Connection>, m: Message): seq<Delivery> {
    if conns == [] then [] else Copies(conns[0].fd, conns[0].clients, m) + Fanout(conns[1..], m)
  }

  function Listen(s: Proxy, fd: int): Proxy {
    s.(serverFd := fd)
  }

  function Accept(s: Proxy, fd: int): Proxy {
    s.(connections := s.connections + [Connection(fd, [])])
  }

  function Request(s: Proxy, fd: int, m: Message): Proxy {
    if s.serverFd == -1 then s
    else if m.Service? then s.(forwarded := s.forwarded + [m])
    else if m.ctlType == SYNC then s
    else s.(ctl := Push(s.ctl, fd, m))
  }

  /** A CTL response: booked and passed on when it fits the head request; the head goes either way. */
  function Answer(s: Proxy, reply: Message): Proxy
    requires s.ctl.queue != [] && reply.Ctl?
  {
    var head := s.ctl.queue[0];
    var routed :=
      if Matches(head.msg, reply) && head.fd != s.serverFd
      then s.(connections := BookReply(s.connections, head.fd, reply),
              ctlOut := s.ctlOut + DeliverTo(s.connections, head.fd, reply))
      else s;
    routed.(ctl := Pop(s.ctl, reply))
  }

  function Device(s: Proxy, m: Message): Proxy {
    if s.serverFd == -1 then s.(syncDone := true)
    else if m.Service? then s.(serviceOut := s.serviceOut + Fanout(s.connections, m))
    else if m.flags == CTL_FLAG_RSP && s.ctl.queue != [] then Answer(s, m)
    else s
  }

  function PushReleases(ch: Channel, serverFd: int, clients: seq<Client>): Channel
    decreases |clients|
  {
    if clients == [] then ch
    else PushReleases(Push(ch, serverFd, ReleaseRequest(clients[0])), serverFd, clients[1..])
  }

  /** cleanup_qmi_connection; `disconnect` is false only when the whole proxy loop ends. */
  function Cleanup(s: Proxy, fd: int, disconnect: bool): Proxy {
    var i := IndexOf(s.connections, fd);
    if i == |s.connections| then s
    else
      var ch := if disconnect then PushReleases(s.ctl, s.serverFd, s.connections[i].clients) else s.ctl;
      s.(ctl := Withdraw(ch, fd), connections := s.connections[..i] + s.connections[i + 1..])
  }

  datatype Event =
    | Listening(fd: int)
    | Accepted(fd: int)
    | Requested(fd: int, msg: Message)
    | FromDevice(msg: Message)
    | Closed(fd: int)

  function Step(s: Proxy, e: Event): Proxy {
    match e
    case Listening(fd) => Listen(s, fd)
    case Accepted(fd) => Accept(s, fd)
    case Requested(fd, m) => Request(s, fd, m)
    case FromDevice(m) => Device(s, m)
    case Closed(fd) => Cleanup(s, fd, true)
  }

  /**
   What the kernel promises: a descriptor handed out is not one already open (a failed
   accept hands out -1, and the proxy keeps that connection too), and only open
   connections are read or closed. Nothing is asked of the modem here.
   */
  predicate Enabled(s: Proxy, e: Event) {
    match e
    case Listening(fd) => s.serverFd == -1 && fd >= 0
    case Accepted(fd) => s.serverFd != -1
      && (fd == -1 || (fd >= 0 && fd != s.serverFd && !Connected(s.connections, fd)))
    case Requested(fd, m) => fd != -1 && Connected(s.connections, fd)
    case FromDevice(m) => true
    case Closed(fd) => fd != -1 && Connected(s.connections, fd)
  }

  function Run(s: Proxy, events: seq<Event>): Proxy
    decreases |events|
  {
    if events == [] then s else Run(Step(s, events[0]), events[1..])
  }

  predicate EnabledRun(s: Proxy, events: seq<Event>)
    decreases |events|
  {
    events == [] || (Enabled(s, events[0]) && EnabledRun(Step(s, events[0]), events[1..]))
  }
}
