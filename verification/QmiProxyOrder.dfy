/**
 Order and routing on the proxy's control channel, over every run: at most one CTL
 request is outstanding and it is the queue head, requests are sent in the order they
 were queued, and the k-th response goes to the k-th requester. A closing connection
 can break this; the exact condition under which it does not is proved too.
 */
module QmiProxyOrder {
  import opened QmiProxySpec

  ghost predicate Increasing(s: seq<Pending>, bound: nat) {
    && (forall i, j :: 0 <= i < j < |s| ==> s[i].serial < s[j].serial)
    && (forall i :: 0 <= i < |s| ==> s[i].serial < bound)
  }

  /**
   The queue is what is left of the history after the replies; what was sent is the
   answered part and the queue head, in the same order, and nothing else.
   */
  ghost predicate InOrder(ch: Channel) {
    && |ch.replies| <= |ch.live|
    && ch.queue == ch.live[|ch.replies|..]
    && ch.sent == ch.live[..if ch.queue == [] then |ch.replies| else |ch.replies| + 1]
    && Increasing(ch.live, ch.count)
  }

  /** Every queued request still has somebody to answer to. */
  ghost predicate Owned(serverFd: int, conns: seq<Connection>, queue: seq<Pending>) {
    forall i :: 0 <= i < |queue| ==>
      && queue[i].msg.Ctl?
      && (queue[i].fd == serverFd || (queue[i].fd != -1 && Connected(conns, queue[i].fd)))
      && (queue[i].fd == serverFd ==> queue[i].msg == ReleaseRequest(queue[i].msg.client))
  }

  ghost predicate FdsOk(serverFd: int, conns: seq<Connection>) {
    && (forall i, j :: 0 <= i < j < |conns| && conns[i].fd == conns[j].fd ==> conns[i].fd == -1)
    && (forall i :: 0 <= i < |conns| ==> conns[i].fd != serverFd)
    && (forall i :: 0 <= i < |conns| && conns[i].fd == -1 ==> conns[i].clients == [])
  }

  /** The replies that reach clients: the k-th goes to whoever queued the k-th request, if it fits it. */
  ghost function Routed(serverFd: int, requests: seq<Pending>, replies: seq<Message>): seq<Delivery>
    requires |replies| <= |requests|
  {
    if replies == [] then []
    else
      var k := |replies| - 1;
      Routed(serverFd, requests, replies[..k]) +
      if Matches(requests[k].msg, replies[k]) && requests[k].fd != serverFd
      then [Delivery(requests[k].fd, replies[k])] else []
  }

  ghost predicate Idle(s: Proxy) {
    s.connections == [] && s.ctl == EMPTY_CHANNEL && s.ctlOut == []
  }

  /** What a run keeps as long as connections close safely. */
  ghost predicate Orderly(s: Proxy) {
    && InOrder(s.ctl)
    && Owned(s.serverFd, s.connections, s.ctl.queue)
    && FdsOk(s.serverFd, s.connections)
    && s.ctlOut == Routed(s.serverFd, s.ctl.live, s.ctl.replies)
    && (s.serverFd < 0 ==> s.serverFd == -1 && Idle(s))
  }

  ghost predicate AtMostOne(queue: seq<Pending>, fd: int) {
    forall i, j :: 0 <= i < j < |queue| ==> queue[i].fd != fd || queue[j].fd != fd
  }

  /** The connection has at most one request queued, and it is not the one the modem is working on. */
  ghost predicate SafeClose(s: Proxy, fd: int) {
    && (s.ctl.queue != [] ==> s.ctl.queue[0].fd != fd)
    && AtMostOne(s.ctl.queue, fd)
  }

  // ---- The channel ----

  lemma {:induction false} PushInOrder(ch: Channel, fd: int, msg: Message)
    requires InOrder(ch)
    ensures InOrder(Push(ch, fd, msg))
  {
    var after := Push(ch, fd, msg);
    var n := |ch.replies|;
    assert after.queue == after.live[n..];
    assert ch.queue == [] ==> ch.live[..n] == ch.live;
    assert after.sent == after.live[..n + 1];
  }

  lemma {:induction false} PopInOrder(ch: Channel, reply: Message)
    requires InOrder(ch) && ch.queue != []
    ensures InOrder(Pop(ch, reply))
  {
    var after := Pop(ch, reply);
    var n := |ch.replies|;
    assert after.queue == after.live[n + 1..];
    if after.queue != [] {
      assert after.queue[0] == ch.live[n + 1];
      assert after.sent == after.live[..n + 2];
    }
  }

  lemma {:induction false} DeleteAt(s: seq<Pending>, k: nat, bound: nat)
    requires Increasing(s, bound) && k < |s|
    ensures Delete(s, s[k]) == s[..k] + s[k + 1..]
  {
    if k > 0 {
      assert s[0].serial < s[k].serial;
      DeleteAt(s[1..], k - 1, bound);
      hide Increasing;
      Rejoin(s, k);
    }
  }

  lemma {:induction false} Rejoin(s: seq<Pending>, k: nat)
    requires 0 < k < |s|
    ensures [s[0]] + (s[1..][..k - 1] + s[1..][k..]) == s[..k] + s[k + 1..]
  {
    assert s[1..][..k - 1] == s[1..k] && s[1..][k..] == s[k + 1..];
  }

  lemma {:induction false} IncreasingWithout(s: seq<Pending>, k: nat, bound: nat)
    requires Increasing(s, bound) && k < |s|
    ensures Increasing(s[..k] + s[k + 1..], bound)
  {
    var t := s[..k] + s[k + 1..];
    assert forall i :: 0 <= i < |t| ==> t[i] == s[if i < k then i else i + 1];
  }

  lemma {:induction false} SliceWithout(s: seq<Pending>, n: nat, i: nat)
    requires n + i < |s|
    ensures (s[..n + i] + s[n + i + 1..])[n..] == s[n..][..i] + s[n..][i + 1..]
  {
  }

  lemma {:induction false} WithdrawView(ch: Channel, fd: int)
    requires InOrder(ch) && FirstOf(ch.queue, fd) < |ch.queue|
    ensures var i := FirstOf(ch.queue, fd); var k := |ch.replies| + i; var after := Withdraw(ch, fd);
      && after.live == ch.live[..k] + ch.live[k + 1..]
      && after.queue == after.live[|ch.replies|..]
      && after.sent == ch.sent && after.replies == ch.replies
      && Increasing(after.live, after.count)
  {
    hide Increasing, FirstOf, Delete;
    var i := FirstOf(ch.queue, fd);
    var k := |ch.replies| + i;
    DeleteAt(ch.live, k, ch.count);
    IncreasingWithout(ch.live, k, ch.count);
    SliceWithout(ch.live, |ch.replies|, i);
  }

  lemma {:induction false} WithdrawLater(ch: Channel, fd: int)
    requires InOrder(ch) && (ch.queue != [] ==> ch.queue[0].fd != fd)
    ensures InOrder(Withdraw(ch, fd))
    ensures Withdraw(ch, fd).replies == ch.replies
    ensures Withdraw(ch, fd).live[..|ch.replies|] == ch.live[..|ch.replies|]
  {
    var i := FirstOf(ch.queue, fd);
    if i < |ch.queue| {
      WithdrawView(ch, fd);
      var n := |ch.replies|;
      var after := Withdraw(ch, fd);
      assert after.live[..n + 1] == ch.live[..n + 1];
      assert after.live[..n] == after.live[..n + 1][..n];
    }
  }

  lemma {:induction false} WithdrawHead(ch: Channel, fd: int)
    requires InOrder(ch) && ch.queue != [] && ch.queue[0].fd == fd
    ensures !InOrder(Withdraw(ch, fd))
  {
    assert FirstOf(ch.queue, fd) == 0;
    WithdrawView(ch, fd);
    var n := |ch.replies|;
    var after := Withdraw(ch, fd);
    assert ch.sent[n] == ch.live[n];
    if after.queue != [] {
      assert after.live[n] == ch.live[n + 1];
      assert after.live[..n + 1][n] == after.live[n];
    }
  }

  /** Withdrawing keeps the order exactly when it does not take the head. */
  lemma {:induction false} WithdrawInOrder(ch: Channel, fd: int)
    requires InOrder(ch)
    ensures InOrder(Withdraw(ch, fd)) <==> (ch.queue != [] ==> ch.queue[0].fd != fd)
  {
    if ch.queue != [] && ch.queue[0].fd == fd { WithdrawHead(ch, fd); } else { WithdrawLater(ch, fd); }
  }

  ghost function Releases(serverFd: int, clients: seq<Client>, first: nat): (r: seq<Pending>)
    ensures |r| == |clients|
    ensures forall i :: 0 <= i < |r| ==> r[i].fd == serverFd && r[i].msg == ReleaseRequest(clients[i])
  {
    if clients == [] then []
    else [Pending(serverFd, ReleaseRequest(clients[0]), first)] + Releases(serverFd, clients[1..], first + 1)
  }

  lemma {:induction false} PushReleasesInOrder(ch: Channel, serverFd: int, clients: seq<Client>)
    requires InOrder(ch)
    ensures InOrder(PushReleases(ch, serverFd, clients))
    decreases |clients|
  {
    if clients != [] {
      PushInOrder(ch, serverFd, ReleaseRequest(clients[0]));
      PushReleasesInOrder(Push(ch, serverFd, ReleaseRequest(clients[0])), serverFd, clients[1..]);
    }
  }

  lemma {:induction false} Assoc(a: seq<Pending>, p: Pending, b: seq<Pending>)
    ensures (a + [p]) + b == a + ([p] + b)
  {
  }

  lemma {:induction false} PushReleasesAppends(ch: Channel, serverFd: int, clients: seq<Client>)
    ensures PushReleases(ch, serverFd, clients).replies == ch.replies
    ensures PushReleases(ch, serverFd, clients).queue == ch.queue + Releases(serverFd, clients, ch.count)
    ensures PushReleases(ch, serverFd, clients).live == ch.live + Releases(serverFd, clients, ch.count)
    decreases |clients|
  {
    if clients != [] {
      var p := Pending(serverFd, ReleaseRequest(clients[0]), ch.count);
      var next := Push(ch, serverFd, p.msg);
      assert next.replies == ch.replies && next.queue == ch.queue + [p] && next.live == ch.live + [p]
        && next.count == ch.count + 1;
      hide Push, ReleaseRequest;
      PushReleasesAppends(next, serverFd, clients[1..]);
      var rest := Releases(serverFd, clients[1..], ch.count + 1);
      assert Releases(serverFd, clients, ch.count) == [p] + rest;
      hide Releases;
      Assoc(ch.queue, p, rest);
      Assoc(ch.live, p, rest);
    }
  }

  // ---- Routing ----

  lemma {:induction false} RoutedPrefix(serverFd: int, a: seq<Pending>, b: seq<Pending>, replies: seq<Message>)
    requires |replies| <= |a| && |replies| <= |b|
    requires a[..|replies|] == b[..|replies|]
    ensures Routed(serverFd, a, replies) == Routed(serverFd, b, replies)
  {
    if replies != [] {
      var k := |replies| - 1;
      assert a[..|replies|][k] == a[k] && b[..|replies|][k] == b[k];
      assert a[..k] == a[..|replies|][..k] && b[..k] == b[..|replies|][..k];
      RoutedPrefix(serverFd, a, b, replies[..k]);
    }
  }

  lemma {:induction false} DeliverToAbsent(conns: seq<Connection>, fd: int, reply: Message)
    requires !Connected(conns, fd)
    ensures DeliverTo(conns, fd, reply) == []
  {
    if conns != [] {
      forall i | 0 <= i < |conns[1..]| ensures conns[1..][i].fd != fd {
        assert conns[1..][i] == conns[i + 1];
      }
      DeliverToAbsent(conns[1..], fd, reply);
    }
  }

  /** An open connection gets a reply once. */
  lemma {:induction false} DeliverToOnce(serverFd: int, conns: seq<Connection>, fd: int, reply: Message)
    requires FdsOk(serverFd, conns) && fd != -1 && Connected(conns, fd)
    ensures DeliverTo(conns, fd, reply) == [Delivery(fd, reply)]
  {
    var i :| 0 <= i < |conns| && conns[i].fd == fd;
    if i == 0 {
      forall j | 0 <= j < |conns[1..]| ensures conns[1..][j].fd != fd {
        assert conns[1..][j] == conns[j + 1];
      }
      DeliverToAbsent(conns[1..], fd, reply);
    } else {
      assert conns[1..][i - 1] == conns[i];
      assert FdsOk(serverFd, conns[1..]);
      DeliverToOnce(serverFd, conns[1..], fd, reply);
    }
  }

  lemma {:induction false} BookReplyFds(conns: seq<Connection>, fd: int, reply: Message)
    requires reply.Ctl?
    ensures |BookReply(conns, fd, reply)| == |conns|
    ensures forall i :: 0 <= i < |conns| ==> BookReply(conns, fd, reply)[i].fd == conns[i].fd
    ensures forall f :: Connected(conns, f) ==> Connected(BookReply(conns, fd, reply), f)
  {
    var after := BookReply(conns, fd, reply);
    forall f | Connected(conns, f) ensures Connected(after, f) {
      var i :| 0 <= i < |conns| && conns[i].fd == f;
      assert after[i].fd == f;
    }
  }

  // ---- One step ----

  lemma {:induction false} RequestOrderly(s: Proxy, fd: int, m: Message)
    requires Orderly(s) && Enabled(s, Requested(fd, m))
    ensures Orderly(Request(s, fd, m))
  {
    var after := Request(s, fd, m);
    if m.Ctl? && m.ctlType != SYNC {
      PushInOrder(s.ctl, fd, m);
      assert fd != s.serverFd;
      assert forall i :: 0 <= i < |s.ctl.queue| ==> after.ctl.queue[i] == s.ctl.queue[i];
      var n := |s.ctl.replies|;
      assert after.ctl.live[..n] == s.ctl.live[..n];
      RoutedPrefix(s.serverFd, s.ctl.live, after.ctl.live, s.ctl.replies);
    }
  }

  /** The head leaves the queue; the rest is owned as before. */
  lemma {:induction false} OwnedRest(serverFd: int, conns: seq<Connection>, after: seq<Connection>, queue: seq<Pending>)
    requires queue != [] && Owned(serverFd, conns, queue)
    requires forall f :: Connected(conns, f) ==> Connected(after, f)
    ensures Owned(serverFd, after, queue[1..])
  {
    hide Connected;
  }

  /** One more reply routes to one more requester. */
  lemma {:induction false} RoutedOneMore(serverFd: int, live: seq<Pending>, replies: seq<Message>, reply: Message)
    requires |replies| < |live|
    ensures Routed(serverFd, live, replies + [reply]) == Routed(serverFd, live, replies) +
      if Matches(live[|replies|].msg, reply) && live[|replies|].fd != serverFd
      then [Delivery(live[|replies|].fd, reply)] else []
  {
    assert (replies + [reply])[..|replies|] == replies;
  }

  lemma {:induction false} FdsBooked(serverFd: int, conns: seq<Connection>, fd: int, reply: Message)
    requires FdsOk(serverFd, conns) && reply.Ctl? && fd != -1
    ensures FdsOk(serverFd, BookReply(conns, fd, reply))
  {
    hide Booked;
    BookReplyFds(conns, fd, reply);
  }

  lemma {:induction false} AnswerOrderly(s: Proxy, reply: Message)
    requires Orderly(s) && s.ctl.queue != [] && reply.Ctl?
    ensures Orderly(Answer(s, reply))
  {
    var head := s.ctl.queue[0];
    var n := |s.ctl.replies|;
    assert head == s.ctl.live[n];
    assert Owned(s.serverFd, s.connections, s.ctl.queue) && (head.fd == s.serverFd || head.fd != -1);
    PopInOrder(s.ctl, reply);
    RoutedOneMore(s.serverFd, s.ctl.live, s.ctl.replies, reply);
    hide InOrder, Owned, FdsOk, Routed, Matches;
    if Matches(head.msg, reply) && head.fd != s.serverFd {
      HeadConnected(s, head);
      DeliverToOnce(s.serverFd, s.connections, head.fd, reply);
      BookReplyFds(s.connections, head.fd, reply);
      FdsBooked(s.serverFd, s.connections, head.fd, reply);
      OwnedRest(s.serverFd, s.connections, BookReply(s.connections, head.fd, reply), s.ctl.queue);
    } else {
      OwnedRest(s.serverFd, s.connections, s.connections, s.ctl.queue);
    }
  }

  lemma {:induction false} HeadConnected(s: Proxy, head: Pending)
    requires s.ctl.queue != [] && head == s.ctl.queue[0] && head.fd != s.serverFd
      && Owned(s.serverFd, s.connections, s.ctl.queue)
    ensures head.fd != -1 && Connected(s.connections, head.fd)
  {
  }

  lemma {:induction false} AcceptOrderly(s: Proxy, fd: int)
    requires Orderly(s) && Enabled(s, Accepted(fd))
    ensures Orderly(Accept(s, fd))
  {
    var after := Accept(s, fd);
    forall f | Connected(s.connections, f) ensures Connected(after.connections, f) {
      var i :| 0 <= i < |s.connections| && s.connections[i].fd == f;
      assert after.connections[i].fd == f;
    }
    assert forall i :: 0 <= i < |s.connections| ==> after.connections[i] == s.connections[i];
  }

  lemma {:induction false} DisconnectedElsewhere(serverFd: int, conns: seq<Connection>, fd: int)
    requires FdsOk(serverFd, conns) && fd != -1 && IndexOf(conns, fd) < |conns|
    ensures var i := IndexOf(conns, fd); var rest := conns[..i] + conns[i + 1..];
      && FdsOk(serverFd, rest)
      && (forall f :: Connected(rest, f) <==> f != fd && Connected(conns, f))
  {
    hide IndexOf;
    var i := IndexOf(conns, fd);
    var rest := conns[..i] + conns[i + 1..];
    assert forall j :: 0 <= j < |rest| ==> rest[j] == conns[if j < i then j else j + 1];
    forall f ensures Connected(rest, f) <==> f != fd && Connected(conns, f) {
      ConnectedElsewhere(serverFd, conns, i, f);
    }
    FdsWithout(serverFd, conns, i);
  }

  lemma {:induction false} FdsWithout(serverFd: int, conns: seq<Connection>, i: nat)
    requires FdsOk(serverFd, conns) && i < |conns|
    ensures FdsOk(serverFd, conns[..i] + conns[i + 1..])
  {
    var rest := conns[..i] + conns[i + 1..];
    assert forall j :: 0 <= j < |rest| ==> rest[j] == conns[if j < i then j else j + 1];
  }

  lemma {:induction false} ConnectedElsewhere(serverFd: int, conns: seq<Connection>, i: nat, f: int)
    requires FdsOk(serverFd, conns) && i < |conns| && conns[i].fd != -1
    ensures Connected(conns[..i] + conns[i + 1..], f) <==> f != conns[i].fd && Connected(conns, f)
  {
    var rest := conns[..i] + conns[i + 1..];
    if f != conns[i].fd && Connected(conns, f) {
      var j :| 0 <= j < |conns| && conns[j].fd == f;
      assert rest[if j < i then j else j - 1].fd == f;
    }
    if Connected(rest, f) {
      var j :| 0 <= j < |rest| && rest[j].fd == f;
      assert conns[if j < i then j else j + 1].fd == f;
    }
  }

  /** The queue while a connection closes: what was there, then the releases of its client ids. */
  ghost function Closing(s: Proxy, fd: int): Channel
    requires IndexOf(s.connections, fd) < |s.connections|
  {
    PushReleases(s.ctl, s.serverFd, s.connections[IndexOf(s.connections, fd)].clients)
  }

  lemma {:induction false} ClosingView(s: Proxy, fd: int)
    requires Orderly(s) && Enabled(s, Closed(fd))
    ensures IndexOf(s.connections, fd) < |s.connections|
    ensures var ch := Closing(s, fd);
      && InOrder(ch) && ch.replies == s.ctl.replies
      && s.ctl.queue <= ch.queue
      && (forall i :: |s.ctl.queue| <= i < |ch.queue| ==>
          ch.queue[i].fd == s.serverFd && ch.queue[i].msg.Ctl?
            && ch.queue[i].msg == ReleaseRequest(ch.queue[i].msg.client))
      && ch.live[..|ch.replies|] == s.ctl.live[..|ch.replies|]
      && fd != s.serverFd
  {
    var clients := s.connections[IndexOf(s.connections, fd)].clients;
    PushReleasesInOrder(s.ctl, s.serverFd, clients);
    PushReleasesAppends(s.ctl, s.serverFd, clients);
  }

  /** What closing a connection leaves. */
  lemma {:induction false} CloseShape(s: Proxy, fd: int)
    requires Orderly(s) && Enabled(s, Closed(fd)) && IndexOf(s.connections, fd) < |s.connections|
    ensures var after := Step(s, Closed(fd)); var i := IndexOf(s.connections, fd);
      && after.ctl == Withdraw(Closing(s, fd), fd) && after.connections == s.connections[..i] + s.connections[i + 1..]
      && after.serverFd == s.serverFd && after.ctlOut == s.ctlOut && s.serverFd >= 0
  {
    hide Withdraw, PushReleases, IndexOf, InOrder, Owned, FdsOk, Routed;
  }

  lemma {:induction false} SameRoutes(s: Proxy, ch: Channel)
    requires InOrder(s.ctl) && InOrder(ch) && ch.replies == s.ctl.replies
    requires ch.live[..|s.ctl.replies|] == s.ctl.live[..|s.ctl.replies|]
    ensures Routed(s.serverFd, ch.live, ch.replies) == Routed(s.serverFd, s.ctl.live, s.ctl.replies)
  {
    hide Increasing;
    RoutedPrefix(s.serverFd, s.ctl.live, ch.live, s.ctl.replies);
  }

  lemma {:induction false} SafeCloseOrderly(s: Proxy, fd: int)
    requires Orderly(s) && Enabled(s, Closed(fd)) && SafeClose(s, fd)
    ensures Orderly(Step(s, Closed(fd)))
  {
    ClosingView(s, fd);
    var ch := Closing(s, fd);
    assert ch.queue != [] ==> ch.queue[0].fd != fd by {
      if s.ctl.queue != [] { assert ch.queue[0] == s.ctl.queue[0]; }
    }
    CloseShape(s, fd);
    SafeCloseOwned(s, fd);
    hide Step, Closing, InOrder, Owned, FdsOk, Routed, Withdraw, IndexOf, AtMostOne;
    WithdrawLater(ch, fd);
    DisconnectedElsewhere(s.serverFd, s.connections, fd);
    SameRoutes(s, Withdraw(ch, fd));
  }

  ghost function Unqueued(queue: seq<Pending>, fd: int): seq<Pending> {
    var i := FirstOf(queue, fd);
    if i == |queue| then queue else queue[..i] + queue[i + 1..]
  }

  lemma {:induction false} OwnedUnqueued(serverFd: int, conns: seq<Connection>, rest: seq<Connection>,
      queue: seq<Pending>, fd: int)
    requires Owned(serverFd, conns, queue) && fd != serverFd
    requires forall f :: Connected(rest, f) <==> f != fd && Connected(conns, f)
    ensures Owned(serverFd, rest, Unqueued(queue, fd)) <==> AtMostOne(queue, fd)
  {
    var w := FirstOf(queue, fd);
    var after := Unqueued(queue, fd);
    assert forall i :: 0 <= i < |after| ==> after[i] == queue[if i < w then i else i + 1];
    if !AtMostOne(queue, fd) {
      var i, j :| 0 <= i < j < |queue| && queue[i].fd == fd && queue[j].fd == fd;
      assert w <= i && after[j - 1] == queue[j];
    }
  }

  lemma {:induction false} OwnedExtended(serverFd: int, conns: seq<Connection>, queue: seq<Pending>,
      longer: seq<Pending>, fd: int)
    requires Owned(serverFd, conns, queue) && fd != serverFd && queue <= longer
    requires forall i :: |queue| <= i < |longer| ==>
      longer[i].fd == serverFd && longer[i].msg.Ctl? && longer[i].msg == ReleaseRequest(longer[i].msg.client)
    ensures Owned(serverFd, conns, longer) && (AtMostOne(longer, fd) <==> AtMostOne(queue, fd))
  {
    assert forall i :: 0 <= i < |queue| ==> longer[i] == queue[i];
  }

  lemma {:induction false} CloseOwned(serverFd: int, conns: seq<Connection>, queue: seq<Pending>,
      longer: seq<Pending>, fd: int)
    requires FdsOk(serverFd, conns) && fd != -1 && IndexOf(conns, fd) < |conns|
    requires Owned(serverFd, conns, queue) && fd != serverFd && queue <= longer
    requires forall i :: |queue| <= i < |longer| ==>
      longer[i].fd == serverFd && longer[i].msg.Ctl? && longer[i].msg == ReleaseRequest(longer[i].msg.client)
    ensures var i := IndexOf(conns, fd);
      Owned(serverFd, conns[..i] + conns[i + 1..], Unqueued(longer, fd)) <==> AtMostOne(queue, fd)
  {
    var i := IndexOf(conns, fd);
    OwnedExtended(serverFd, conns, queue, longer, fd);
    DisconnectedElsewhere(serverFd, conns, fd);
    OwnedUnqueued(serverFd, conns, conns[..i] + conns[i + 1..], longer, fd);
  }

  lemma {:induction false} CleanupView(s: Proxy, fd: int)
    requires IndexOf(s.connections, fd) < |s.connections|
    ensures var i := IndexOf(s.connections, fd); var after := Step(s, Closed(fd));
      && after.serverFd == s.serverFd
      && after.connections == s.connections[..i] + s.connections[i + 1..]
      && after.ctl.queue == Unqueued(Closing(s, fd).queue, fd)
  {
  }

  lemma {:induction false} SafeCloseOwned(s: Proxy, fd: int)
    requires Orderly(s) && Enabled(s, Closed(fd))
    ensures var after := Step(s, Closed(fd));
      Owned(after.serverFd, after.connections, after.ctl.queue) <==> AtMostOne(s.ctl.queue, fd)
  {
    ClosingView(s, fd);
    CleanupView(s, fd);
    CloseOwned(s.serverFd, s.connections, s.ctl.queue, Closing(s, fd).queue, fd);
  }

  lemma {:induction false} UnsafeCloseDisorderly(s: Proxy, fd: int)
    requires Orderly(s) && Enabled(s, Closed(fd)) && !SafeClose(s, fd)
    ensures !Orderly(Step(s, Closed(fd)))
  {
    ClosingView(s, fd);
    SafeCloseOwned(s, fd);
    if AtMostOne(s.ctl.queue, fd) {
      assert Closing(s, fd).queue[0] == s.ctl.queue[0];
      WithdrawHead(Closing(s, fd), fd);
    }
  }

  // ---- Whole runs ----

  /** Every close in the run meets the condition at the moment it happens. */
  ghost predicate SafeRun(s: Proxy, events: seq<Event>)
    decreases |events|
  {
    events == [] || ((events[0].Closed? ==> SafeClose(s, events[0].fd)) && SafeRun(Step(s, events[0]), events[1..]))
  }

  ghost predicate AlwaysOrderly(s: Proxy, events: seq<Event>)
    decreases |events|
  {
    Orderly(s) && (events == [] || AlwaysOrderly(Step(s, events[0]), events[1..]))
  }

  lemma {:induction false} StepOrderly(s: Proxy, e: Event)
    requires Orderly(s) && Enabled(s, e)
    ensures Orderly(Step(s, e)) <==> (e.Closed? ==> SafeClose(s, e.fd))
  {
    match e
    case Listening(fd) =>
    case Accepted(fd) => AcceptOrderly(s, fd);
    case Requested(fd, m) => RequestOrderly(s, fd, m);
    case FromDevice(m) => if s.serverFd != -1 && m.Ctl? && s.ctl.queue != [] { AnswerOrderly(s, m); }
    case Closed(fd) => if SafeClose(s, fd) { SafeCloseOrderly(s, fd); } else { UnsafeCloseDisorderly(s, fd); }
  }

  /**
   From any orderly state, whatever the modem answers: order, ownership and routing hold
   at every point of a run if and only if every connection in it closed safely.
   */
  lemma {:induction false} OrderlyIffSafe(s: Proxy, events: seq<Event>)
    requires Orderly(s) && EnabledRun(s, events)
    ensures AlwaysOrderly(s, events) <==> SafeRun(s, events)
    ensures SafeRun(s, events) ==> Orderly(Run(s, events))
    decreases |events|
  {
    if events != [] {
      StepOrderly(s, events[0]);
      if Orderly(Step(s, events[0])) {
        OrderlyIffSafe(Step(s, events[0]), events[1..]);
      }
    }
  }

  /** The proxy as it starts is orderly. */
  lemma {:induction false} InitialOrderly()
    ensures Orderly(Initial())
  {
  }

  /** The main claim, spelled out: for safe runs from the start, at most one request outstanding, FIFO, and routing. */
  lemma {:induction false} FifoAndRouting(events: seq<Event>)
    requires EnabledRun(Initial(), events) && SafeRun(Initial(), events)
    ensures var s := Run(Initial(), events); var ch := s.ctl;
      && 0 <= |ch.sent| - |ch.replies| <= 1
      && (|ch.sent| == |ch.replies| + 1 <==> ch.queue != [])
      && (ch.queue != [] ==> ch.sent[|ch.sent| - 1] == ch.queue[0])
      && ch.sent <= ch.live
      && |ch.replies| <= |ch.live| && s.ctlOut == Routed(s.serverFd, ch.live, ch.replies)
  {
    InitialOrderly();
    OrderlyIffSafe(Initial(), events);
  }

  /** The answered requests that came from clients, each with its reply, in order. */
  ghost function ClientReplies(serverFd: int, requests: seq<Pending>, replies: seq<Message>): seq<Delivery>
    requires |replies| <= |requests|
  {
    if replies == [] then []
    else
      var k := |replies| - 1;
      ClientReplies(serverFd, requests, replies[..k]) +
      if requests[k].fd != serverFd then [Delivery(requests[k].fd, replies[k])] else []
  }

  ghost predicate AllMatch(requests: seq<Pending>, replies: seq<Message>) {
    |replies| <= |requests| && forall k :: 0 <= k < |replies| ==> Matches(requests[k].msg, replies[k])
  }

  lemma {:induction false} MatchedRoutes(serverFd: int, requests: seq<Pending>, replies: seq<Message>)
    requires AllMatch(requests, replies)
    ensures Routed(serverFd, requests, replies) == ClientReplies(serverFd, requests, replies)
  {
    if replies != [] {
      var n := |replies| - 1;
      assert forall k :: 0 <= k < n ==> replies[..n][k] == replies[k];
      MatchedRoutes(serverFd, requests, replies[..n]);
    }
  }

  /**
   Over every safe run in which the modem answered each request in turn: what the clients
   got is, in order, exactly the k-th reply to the k-th requester for every k that a
   client asked, the proxy's own releases left out.
   */
  lemma {:induction false} RoutedWhenAnswered(events: seq<Event>)
    requires EnabledRun(Initial(), events) && SafeRun(Initial(), events)
    requires var ch := Run(Initial(), events).ctl; AllMatch(ch.live, ch.replies)
    ensures var s := Run(Initial(), events);
      s.ctlOut == ClientReplies(s.serverFd, s.ctl.live, s.ctl.replies)
  {
    FifoAndRouting(events);
    var s := Run(Initial(), events);
    MatchedRoutes(s.serverFd, s.ctl.live, s.ctl.replies);
  }

  ghost predicate CtlResponses(events: seq<Event>) {
    forall i :: 0 <= i < |events| ==> events[i].FromDevice? && events[i].msg.Ctl? && events[i].msg.flags == CTL_FLAG_RSP
  }

  /**
   As many CTL responses as there are queued requests empty the queue, and by then everything
   queued has been sent.
   */
  lemma {:induction false} Drains(s: Proxy, events: seq<Event>)
    requires Orderly(s) && CtlResponses(events) && |events| == |s.ctl.queue|
    ensures EnabledRun(s, events)
    ensures var after := Run(s, events);
      Orderly(after) && after.ctl.queue == [] && after.ctl.sent == after.ctl.live == s.ctl.live
    decreases |events|
  {
    if events == [] {
      assert s.ctl.sent == s.ctl.live;
    } else {
      assert CtlResponses(events[1..]) by {
        assert forall i :: 0 <= i < |events[1..]| ==> events[1..][i] == events[i + 1];
      }
      DrainsOne(s, events[0].msg);
      hide Orderly, Device, CtlResponses;
      Drains(Step(s, events[0]), events[1..]);
    }
  }

  lemma {:induction false} DrainsOne(s: Proxy, m: Message)
    requires Orderly(s) && m.Ctl? && m.flags == CTL_FLAG_RSP && s.ctl.queue != []
    ensures var next := Step(s, FromDevice(m));
      Orderly(next) && next.ctl.live == s.ctl.live && |next.ctl.queue| == |s.ctl.queue| - 1
  {
    AnswerOrderly(s, m);
    assert s.serverFd != -1;
    hide Orderly, BookReply, DeliverTo, Matches;
  }

  /**
   The failure: client 5 asks for an id, client 6 asks too, client 5 goes away. The
   modem's answer to 5 then uses up 6's request, which was never sent to the modem.
   */
  lemma {:induction false} LostRequest(get: Message, reply: Message)
    requires get.Ctl? && get.ctlType == GET_CLIENT_ID
    requires reply.Ctl? && reply.flags == CTL_FLAG_RSP
    ensures var events := [Listening(3), Accepted(5), Accepted(6), Requested(5, get), Requested(6, get), Closed(5),
      FromDevice(reply)];
      var s := Run(Initial(), events);
      EnabledRun(Initial(), events) && s.ctl.queue == [] && Pending(6, get, 1) in s.ctl.live
        && Pending(6, get, 1) !in s.ctl.sent
  {
    var s5 := TwoWaiting(get);
    var s6 := Step(s5, Closed(5));
    assert IndexOf(s5.connections, 5) == 0 && FirstOf(s5.ctl.queue, 5) == 0;
    assert s6.ctl.queue == [Pending(6, get, 1)] == s6.ctl.live;
    assert Connected(s5.connections, 5) by { assert s5.connections[0].fd == 5; }
    RunCons(s6, FromDevice(reply), []);
    RunCons(s5, Closed(5), [FromDevice(reply)]);
    var tail := [Closed(5), FromDevice(reply)];
    TwoWaitingReached(get, tail);
    assert [Listening(3), Accepted(5), Accepted(6), Requested(5, get), Requested(6, get)] + tail
        == [Listening(3), Accepted(5), Accepted(6), Requested(5, get), Requested(6, get), Closed(5), FromDevice(reply)];
  }

  /** Clients 5 and 6 both have a request queued, 5's is with the modem. */
  ghost function TwoWaiting(get: Message): Proxy {
    var a := Pending(5, get, 0);
    var b := Pending(6, get, 1);
    Proxy(3, false, [Connection(5, []), Connection(6, [])], Channel([a, b], [a, b], [a], [], 2), [], [], [])
  }

  lemma {:induction false} TwoWaitingReached(get: Message, tail: seq<Event>)
    requires get.Ctl? && get.ctlType == GET_CLIENT_ID
    ensures var events := [Listening(3), Accepted(5), Accepted(6), Requested(5, get), Requested(6, get)] + tail;
      && Run(Initial(), events) == Run(TwoWaiting(get), tail)
      && (EnabledRun(Initial(), events) <==> EnabledRun(TwoWaiting(get), tail))
  {
    var s1 := Step(Initial(), Listening(3));
    var s2 := Step(s1, Accepted(5));
    var s3 := Step(s2, Accepted(6));
    assert s3.connections == [Connection(5, []), Connection(6, [])];
    assert s3.connections[0].fd == 5 && s3.connections[1].fd == 6;
    var s4 := Step(s3, Requested(5, get));
    assert s4.ctl == Channel([Pending(5, get, 0)], [Pending(5, get, 0)], [Pending(5, get, 0)], [], 1);
    assert Step(s4, Requested(6, get)) == TwoWaiting(get);
    var e5 := [Requested(6, get)] + tail;
    var e4 := [Requested(5, get)] + e5;
    var e3 := [Accepted(6)] + e4;
    var e2 := [Accepted(5)] + e3;
    RunCons(s4, Requested(6, get), tail);
    RunCons(s3, Requested(5, get), e5);
    RunCons(s2, Accepted(6), e4);
    RunCons(s1, Accepted(5), e3);
    RunCons(Initial(), Listening(3), e2);
    assert [Listening(3)] + e2 == [Listening(3), Accepted(5), Accepted(6), Requested(5, get), Requested(6, get)] + tail;
  }

  lemma {:induction false} RunCons(s: Proxy, e: Event, rest: seq<Event>)
    ensures Run(s, [e] + rest) == Run(Step(s, e), rest)
    ensures EnabledRun(s, [e] + rest) <==> Enabled(s, e) && EnabledRun(Step(s, e), rest)
  {
    assert ([e] + rest)[1..] == rest;
  }
}
