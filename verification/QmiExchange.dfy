/**
 Requests and responses over the modem control channel (`QMIThread.c`, `QmiWwanCM.c`): one
 sender, one reader thread, a mutex and a condition variable, and a single slot for the
 request that waits and the response it got.
 */
module QmiExchangeSpec {
  import opened Common
  import opened QmiTlv

  const CTL: byte := 0x00
  const WDS: byte := 0x01
  const WDS_IPV6: byte := 0x11

  /** A message: service type, client id, the two bytes where the transaction id lies, the rest. */
  datatype Message = Message(service: byte, client: byte, low: byte, high: byte, body: seq<byte>)

  /** Control messages carry a one-byte transaction id, all others a two-byte one. */
  function Tid(m: Message, service: byte): nat {
    if service == CTL then m.low else Word(m.low, m.high)
  }

  predicate Matches(request: Message, response: Message) {
    && request.service == response.service
    && request.client == response.client
    && Tid(request, request.service) == Tid(response, request.service)
  }

  /** What the device layer knows when asked to send: whether it is open, the client ids, whether the write succeeds. */
  datatype Device = Device(open: bool, clients: map<byte, byte>, written: bool)

  function ClientOf(d: Device, service: byte): byte {
    if service in d.clients then d.clients[service] else 0
  }

  /** The request as the device layer leaves it in the buffer. */
  function Prepared(m: Message, d: Device): Message {
    if !d.open || m.service == CTL then m
    else
      var c := ClientOf(d, m.service);
      if c == 0 then m.(client := 0)
      else m.(client := c, service := if m.service == WDS_IPV6 then WDS else m.service)
  }

  predicate Sends(m: Message, d: Device) {
    d.open && (m.service == CTL || ClientOf(d, m.service) != 0) && d.written
  }

  /**
   A call: its request buffer, the request as sent, how much had been received by then, and
   whether the caller wants the response.
   */
  datatype Call = Call(id: nat, sent: Message, since: nat, wanted: bool)

  datatype Result =
    | Unsent
    | TimedOut
    | Empty
    | Answered(at: nat)
    | Discarded(at: nat)

  datatype Outcome = Outcome(call: Call, until: nat, result: Result)

  /** A request buffer, by number, and what it holds. */
  datatype Waiting = Waiting(id: nat, message: Message)

  /**
   The shared state. `received` is everything the reader was given, None being a hang-up;
   `request` and `response` are the two slots, as a buffer and a position in `received`;
   `freed` and `taken` record the request buffers freed and the responses that
   left the slot, to the caller or to the allocator.
   */
  datatype Exchange = Exchange(
    received: seq<Option<Message>>,
    requests: seq<Message>,
    request: Option<Waiting>,
    response: Option<nat>,
    waiting: Option<Call>,
    freed: seq<nat>,
    taken: seq<nat>,
    outcomes: seq<Outcome>)

  const INITIAL: Exchange := Exchange([], [], None, None, None, [], [], [])

  /** QmiThreadSendQMITimeout up to the wait. */
  function Send(s: Exchange, m: Message, d: Device, wanted: bool): Exchange {
    var sent := Prepared(m, d);
    var id := |s.requests|;
    var call := Call(id, sent, |s.received|, wanted);
    var s1 := s.(requests := s.requests + [sent], request := Some(Waiting(id, sent)), response := None);
    if Sends(m, d) then s1.(waiting := Some(call))
    else s1.(outcomes := s.outcomes + [Outcome(call, |s.received|, Unsent)])
  }

  /** QmiThreadRecvQMI. */
  function Receive(s: Exchange, m: Option<Message>): Exchange {
    var s1 := s.(received := s.received + [m]);
    if s.request.None? then s1
    else if m.None? then s1.(freed := s.freed + [s.request.value.id], request := None, response := None)
    else if Matches(s.request.value.message, m.value)
    then s1.(freed := s.freed + [s.request.value.id], request := None, response := Some(|s.received|))
    else s1
  }

  /** The wait ends, by a signal, spuriously, or because the time ran out. */
  function Wake(s: Exchange, expired: bool): Exchange
    requires s.waiting.Some?
  {
    var call := s.waiting.value;
    var result :=
      if expired then TimedOut
      else if s.response.None? then Empty
      else if call.wanted then Answered(s.response.value) else Discarded(s.response.value);
    var s1 := s.(waiting := None, outcomes := s.outcomes + [Outcome(call, |s.received|, result)]);
    match result
    case Answered(at) => s1.(taken := s.taken + [at])
    case Discarded(at) => s1.(taken := s.taken + [at], response := None)
    case _ => s1
  }

  datatype Event = Begin(m: Message, d: Device, wanted: bool) | Read(message: Option<Message>) | Resume(expired: bool)

  predicate Enabled(s: Exchange, e: Event) {
    match e
    case Begin(_, _, _) => s.waiting.None?
    case Read(_) => true
    case Resume(_) => s.waiting.Some?
  }

  function Step(s: Exchange, e: Event): Exchange
    requires Enabled(s, e)
  {
    match e
    case Begin(m, d, wanted) => Send(s, m, d, wanted)
    case Read(m) => Receive(s, m)
    case Resume(expired) => Wake(s, expired)
  }

  predicate EnabledRun(s: Exchange, events: seq<Event>)
    decreases |events|
  {
    events == [] || (Enabled(s, events[0]) && EnabledRun(Step(s, events[0]), events[1..]))
  }

  function Run(s: Exchange, events: seq<Event>): Exchange
    requires EnabledRun(s, events)
    decreases |events|
  {
    if events == [] then s else Run(Step(s, events[0]), events[1..])
  }
}

/** Who gets which response, over every interleaving. */
module QmiExchangeProofs {
  import opened Common
  import opened QmiExchangeSpec

  /** Nothing received from `from` up to `to` answers the request or hangs up. */
  ghost predicate Silent(sent: Message, received: seq<Option<Message>>, from: nat, to: nat) {
    forall j :: from <= j < to && j < |received| ==> received[j].Some? && !Matches(sent, received[j].value)
  }

  /** The message at `at` is the first to answer the request since `from`, with no hang-up before it. */
  ghost predicate FirstAnswer(sent: Message, received: seq<Option<Message>>, from: nat, at: nat) {
    && from <= at < |received|
    && received[at].Some? && Matches(sent, received[at].value)
    && Silent(sent, received, from, at)
  }

  /** What a call may return, said of what was received while it waited and nothing else. */
  ghost predicate Right(o: Outcome, received: seq<Option<Message>>) {
    && o.call.since <= o.until <= |received|
    && match o.result
       case Answered(at) => o.call.wanted && at < o.until && FirstAnswer(o.call.sent, received, o.call.since, at)
       case Discarded(at) => !o.call.wanted && at < o.until && FirstAnswer(o.call.sent, received, o.call.since, at)
       case Empty => forall at | o.call.since <= at < o.until :: !FirstAnswer(o.call.sent, received, o.call.since, at)
       case _ => true
  }

  ghost predicate Distinct(s: seq<nat>) {
    forall i, j :: 0 <= i < j < |s| ==> s[i] != s[j]
  }

  ghost predicate Below(s: seq<nat>, bound: nat) {
    forall i :: 0 <= i < |s| ==> s[i] < bound
  }

  /** The two slots, while a call waits. */
  ghost predicate SlotsRight(s: Exchange, call: Call) {
    && call.id + 1 == |s.requests| && call.sent == s.requests[call.id] && call.since <= |s.received|
    && Below(s.taken, call.since)
    && (s.request.Some? ==> s.response.None? && Silent(call.sent, s.received, call.since, |s.received|))
    && (s.response.Some? ==> FirstAnswer(call.sent, s.received, call.since, s.response.value))
    && (s.request.None? && s.response.None? ==>
          exists h: nat :: call.since <= h < |s.received| && s.received[h].None?
            && Silent(call.sent, s.received, call.since, h))
  }

  /** Calls do not overlap in what they saw. */
  ghost predicate InTurn(outcomes: seq<Outcome>, now: nat) {
    && (forall i, j :: 0 <= i < j < |outcomes| ==> outcomes[i].until <= outcomes[j].call.since)
    && (forall i :: 0 <= i < |outcomes| ==> outcomes[i].until <= now)
  }

  ghost predicate AllRight(outcomes: seq<Outcome>, received: seq<Option<Message>>) {
    forall i :: 0 <= i < |outcomes| ==> Right(outcomes[i], received)
  }

  ghost predicate Owned(s: Exchange) {
    && (s.request.Some? ==>
          && |s.requests| > 0 && s.request.value == Waiting(|s.requests| - 1, s.requests[|s.requests| - 1])
          && s.request.value.id !in s.freed)
    && Distinct(s.freed) && Below(s.freed, |s.requests|)
    && Distinct(s.taken) && Below(s.taken, |s.received|)
  }

  ghost predicate Inv(s: Exchange) {
    && Owned(s)
    && (s.waiting.Some? ==> SlotsRight(s, s.waiting.value))
    && AllRight(s.outcomes, s.received)
    && InTurn(s.outcomes, if s.waiting.Some? then s.waiting.value.since else |s.received|)
  }

  /**
   Rewriting by the device layer keeps the transaction id, and what is sent never has the
   folded service nor, off the control service, a zero client id.
   */
  lemma {:induction false} SentAs(m: Message, d: Device)
    requires Sends(m, d)
    ensures var sent := Prepared(m, d);
      && Tid(sent, sent.service) == Tid(m, m.service) && sent.body == m.body
      && sent.service != WDS_IPV6 && (sent.service == m.service || (m.service == WDS_IPV6 && sent.service == WDS))
      && (sent.service == CTL || (sent.client != 0 && sent.client == ClientOf(d, m.service)))
  {
  }

  lemma {:induction false} RightGrows(o: Outcome, received: seq<Option<Message>>, m: Option<Message>)
    requires Right(o, received)
    ensures Right(o, received + [m])
  {
    var more := received + [m];
    assert forall j :: 0 <= j < |received| ==> more[j] == received[j];
    if o.result.Empty? {
      forall at | o.call.since <= at < o.until ensures !FirstAnswer(o.call.sent, more, o.call.since, at) {
        if FirstAnswer(o.call.sent, more, o.call.since, at) {
          assert FirstAnswer(o.call.sent, received, o.call.since, at) by {
            forall j | o.call.since <= j < at ensures received[j].Some? && !Matches(o.call.sent, received[j].value) {
              assert more[j] == received[j];
            }
          }
        }
      }
    }
  }

  lemma {:induction false} SendKeeps(s: Exchange, m: Message, d: Device, wanted: bool)
    requires Inv(s) && s.waiting.None?
    ensures Inv(Send(s, m, d, wanted))
  {
  }

  lemma {:induction false} ReceiveKeeps(s: Exchange, m: Option<Message>)
    requires Inv(s)
    ensures Inv(Receive(s, m))
  {
    var t := Receive(s, m);
    forall i | 0 <= i < |s.outcomes| ensures Right(s.outcomes[i], t.received) {
      RightGrows(s.outcomes[i], s.received, m);
    }
    assert forall j :: 0 <= j < |s.received| ==> t.received[j] == s.received[j];
    if s.waiting.Some? {
      ReceiveSlots(s, m, s.waiting.value);
    }
  }

  lemma {:induction false} ReceiveSlots(s: Exchange, m: Option<Message>, call: Call)
    requires Owned(s) && SlotsRight(s, call)
    ensures SlotsRight(Receive(s, m), call)
  {
    var t := Receive(s, m);
    var n := |s.received|;
    assert t.received[n] == m && forall j :: 0 <= j < n ==> t.received[j] == s.received[j];
    if s.request.None? && s.response.None? {
      var h: nat :| call.since <= h < n && s.received[h].None? && Silent(call.sent, s.received, call.since, h);
      assert t.received[h].None? && Silent(call.sent, t.received, call.since, h);
    } else if s.request.Some? {
      assert Silent(call.sent, t.received, call.since, n);
    }
  }

  lemma {:induction false} WakeKeeps(s: Exchange, expired: bool)
    requires Inv(s) && s.waiting.Some?
    ensures Inv(Wake(s, expired))
  {
    var call := s.waiting.value;
    if !expired && s.response.None? {
      forall at | call.since <= at < |s.received| ensures !FirstAnswer(call.sent, s.received, call.since, at) {
        if s.request.None? {
          var h: nat :| call.since <= h < |s.received| && s.received[h].None?
            && Silent(call.sent, s.received, call.since, h);
          assert at < h || at >= h;
        }
      }
    }
  }

  lemma {:induction false} StepKeeps(s: Exchange, e: Event)
    requires Inv(s) && Enabled(s, e)
    ensures Inv(Step(s, e))
  {
    hide Inv, Send, Receive, Wake;
    match e {
      case Begin(m, d, wanted) => SendKeeps(s, m, d, wanted);
      case Read(m) => ReceiveKeeps(s, m);
      case Resume(expired) => WakeKeeps(s, expired);
    }
  }

  lemma {:induction false} RunKeeps(s: Exchange, events: seq<Event>)
    requires Inv(s) && EnabledRun(s, events)
    ensures Inv(Run(s, events))
    decreases |events|
  {
    if events != [] {
      StepKeeps(s, events[0]);
      RunKeeps(Step(s, events[0]), events[1..]);
    }
  }

  /**
   In every run, each call that was woken returns the first message received since its own
   request was sent that has that request's service, client id and transaction id, or
   nothing when no such message came before the wake-up or a hang-up came first.
   */
  lemma {:induction false} EveryOutcomeRight(events: seq<Event>)
    requires EnabledRun(INITIAL, events)
    ensures AllRight(Run(INITIAL, events).outcomes, Run(INITIAL, events).received)
  {
    RunKeeps(INITIAL, events);
  }

  /** A response handed to a caller carries the identity of that caller's own request. */
  lemma {:induction false} OwnAnswer(events: seq<Event>, k: nat)
    requires EnabledRun(INITIAL, events)
    requires k < |Run(INITIAL, events).outcomes| && Run(INITIAL, events).outcomes[k].result.Answered?
    ensures var s := Run(INITIAL, events); var o := s.outcomes[k];
      && o.result.at < |s.received| && s.received[o.result.at].Some?
      && var m := s.received[o.result.at].value;
         && m.service == o.call.sent.service && m.client == o.call.sent.client
         && Tid(m, m.service) == Tid(o.call.sent, o.call.sent.service)
  {
    EveryOutcomeRight(events);
    var s := Run(INITIAL, events);
    assert Right(s.outcomes[k], s.received);
  }

  /**
   A message that came in before a later request was sent is never handed to it, and no
   message is handed out twice.
   */
  lemma {:induction false} NoLateAnswer(events: seq<Event>, i: nat, j: nat)
    requires EnabledRun(INITIAL, events)
    requires i < j < |Run(INITIAL, events).outcomes| && Run(INITIAL, events).outcomes[j].result.Answered?
    ensures var o := Run(INITIAL, events).outcomes;
      && o[i].until <= o[j].call.since <= o[j].result.at
      && (o[i].result.Answered? || o[i].result.Discarded? ==> o[i].result.at < o[j].result.at)
  {
    RunKeeps(INITIAL, events);
    var s := Run(INITIAL, events);
    assert Right(s.outcomes[i], s.received) && Right(s.outcomes[j], s.received);
  }

  /**
   No request buffer is freed twice, and none that was freed is still in the slot; the same
   for responses taken out.
   */
  lemma {:induction false} FreedOnce(events: seq<Event>)
    requires EnabledRun(INITIAL, events)
    ensures Owned(Run(INITIAL, events))
  {
    RunKeeps(INITIAL, events);
  }
}

/** The two functions over shared memory: the request slot aliases the caller's buffer. */
module QmiExchangeThreads {
  import opened Common
  import opened QmiTlv
  import opened QmiExchangeSpec

  class Buffer {
    var service: byte
    var client: byte
    var low: byte
    var high: byte
    var body: seq<byte>

    constructor (m: Message)
      ensures Contents() == m
    {
      service, client, low, high, body := m.service, m.client, m.low, m.high, m.body;
    }

    function Contents(): Message
      reads this
    {
      Message(service, client, low, high, body)
    }
  }

  /** QmiWwanSendQMI: stamps the client id, folds the IPv6 service into the plain one, writes. */
  method DeviceSend(request: Buffer, d: Device) returns (ret: int)
    modifies request
    ensures request.Contents() == Prepared(old(request.Contents()), d)
    ensures ret == 0 <==> Sends(old(request.Contents()), d)
  {
    if !d.open {
      return -19;
    }
    if request.service != CTL {
      request.client := ClientOf(d, request.service);
      if request.client == 0 {
        return -19;
      }
      if request.service == WDS_IPV6 {
        request.service := WDS;
      }
    }
    ret := if d.written then 0 else -1;
  }

  class Threads {
    var request: Buffer?
    var response: Buffer?
    ghost var history: Exchange

    ghost predicate Valid()
      reads this, request, response
    {
      && (request == null <==> history.request.None?)
      && (request != null ==> request.Contents() == history.request.value.message)
      && (response == null <==> history.response.None?)
      && (response != null ==>
            history.response.value < |history.received|
              && history.received[history.response.value] == Some(response.Contents()))
      && (request != null && response != null ==> request != response)
    }

    constructor ()
      ensures Valid() && history == INITIAL
    {
      request, response, history := null, null, INITIAL;
    }

    /** QmiThreadSendQMITimeout up to the wait; `waits` says whether the thread goes on to it. */
    method Begin(buffer: Buffer, d: Device, wanted: bool) returns (waits: bool)
      requires Valid() && history.waiting.None? && buffer != request && buffer != response
      modifies this, buffer
      ensures Valid() && history == Send(old(history), old(buffer.Contents()), d, wanted)
      ensures request == buffer && waits == history.waiting.Some?
    {
      request := buffer;
      response := null;
      ghost var m := buffer.Contents();
      var ret := DeviceSend(buffer, d);
      waits := ret == 0;
      history := Send(history, m, d, wanted);
    }

    /** QmiThreadRecvQMI: null is a hang-up; a matching response is copied into a new buffer. */
    method Read(incoming: Buffer?)
      requires Valid()
      modifies this
      ensures Valid()
      ensures history == Receive(old(history), if incoming == null then None else Some(incoming.Contents()))
    {
      if incoming == null {
        if request != null {
          request, response := null, null;
        }
        history := Receive(history, None);
        return;
      }
      var answers := false;
      if request != null {
        answers := IsResponse(request, incoming);
      }
      if answers {
        request := null;
        response := new Buffer(incoming.Contents());
      }
      history := Receive(history, Some(incoming.Contents()));
    }

    /** is_response. */
    static method IsResponse(req: Buffer, resp: Buffer) returns (yes: bool)
      ensures yes == Matches(req.Contents(), resp.Contents())
    {
      if req.service == resp.service && req.client == resp.client {
        var requestTid, responseTid: nat;
        if req.service == CTL {
          requestTid, responseTid := req.low, resp.low;
        } else {
          requestTid, responseTid := Word(req.low, req.high), Word(resp.low, resp.high);
        }
        return requestTid == responseTid;
      }
      return false;
    }

    /** The rest of QmiThreadSendQMITimeout: `expired` is what the timed wait returned. */
    method Resume(expired: bool, wanted: bool) returns (ret: int, answer: Buffer?)
      requires Valid() && history.waiting.Some? && history.waiting.value.wanted == wanted
      modifies this
      ensures Valid() && history == Wake(old(history), expired)
      ensures request == old(request)
      ensures ret == 0 <==> !expired && old(response) != null
      ensures answer == if ret == 0 && wanted then old(response) else null
    {
      answer := null;
      history := Wake(history, expired);
      if expired {
        return -110, null;
      }
      ret := 0;
      if response != null && wanted {
        answer := response;
      } else if response != null {
        response := null;
      } else {
        ret := -22;
      }
    }
  }
}

/** The two threads together, and what the run theorems say after any interleaving. */
module QmiInterleaving {
  import opened Common
  import opened QmiExchangeSpec
  import opened QmiExchangeProofs
  import opened QmiReturns
  import opened QmiExchangeThreads

  /** One atomic step of either thread; `wanted` is the sender's own note of whether its caller wants the response. */
  method Dispatch(threads: Threads, e: Event, wanted: bool) returns (wants: bool)
    requires threads.Valid() && Enabled(threads.history, e)
    requires threads.history.waiting.Some? ==> threads.history.waiting.value.wanted == wanted
    modifies threads
    ensures threads.Valid() && threads.history == Step(old(threads.history), e)
    ensures threads.history.waiting.Some? ==> threads.history.waiting.value.wanted == wants
  {
    wants := wanted;
    match e {
      case Begin(m, d, w) =>
        wants := w;
        var buffer := new Buffer(m);
        var _ := threads.Begin(buffer, d, w);
      case Read(message) =>
        if message.Some? {
          var incoming := new Buffer(message.value);
          threads.Read(incoming);
        } else {
          threads.Read(null);
        }
      case Resume(expired) =>
        var _, _ := threads.Resume(expired, wanted);
    }
  }

  /**
   Any interleaving of sender, reader, time-outs, spurious wake-ups and hang-ups: every
   call returned the first answer to its own request or rightly nothing, what was sent is
   what should have been, and no request buffer was freed twice.
   */
  method Interleave(threads: Threads, events: seq<Event>)
    requires threads.Valid() && threads.history == INITIAL && EnabledRun(INITIAL, events)
    modifies threads
    ensures threads.Valid() && threads.history == Run(INITIAL, events)
    ensures AllRight(threads.history.outcomes, threads.history.received)
    ensures Owned(threads.history)
    ensures AllTold(INITIAL, events, threads.history.requests, threads.history.outcomes)
    ensures NoneDangling(threads.history)
  {
    hide Step, AllRight, Owned, AllTold, Inv;
    var wanted := false;
    var i := 0;
    assert events[0..] == events;
    while i < |events|
      invariant 0 <= i <= |events| && threads.Valid()
      invariant EnabledRun(threads.history, events[i..]) && Run(threads.history, events[i..]) == Run(INITIAL, events)
      invariant threads.history.waiting.Some? ==> threads.history.waiting.value.wanted == wanted
    {
      assert events[i..][0] == events[i] && events[i..][1..] == events[i + 1..];
      wanted := Dispatch(threads, events[i], wanted);
      i := i + 1;
    }
    assert events[i..] == [];
    EveryOutcomeRight(events);
    FreedOnce(events);
    InitialInv();
    NeverDangling(INITIAL, events);
    ghost var sent, ended := EveryCall(INITIAL, events);
    assert [] + sent == sent && [] + ended == ended;
  }

  lemma {:induction false} InitialInv()
    ensures Inv(INITIAL)
  {
  }
}
