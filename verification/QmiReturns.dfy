/**
 What every call over the control channel sends and returns, over every interleaving, said
 of the request's own bytes, the device record and what was received.
 */
module QmiReturns {
  import opened Common
  import opened QmiTlv
  import opened QmiExchangeSpec
  import opened QmiExchangeProofs

  /** The message has the request's service, client id and transaction id, one byte of it on the control service. */
  ghost predicate Answers(sent: Message, m: Message) {
    && m.service == sent.service && m.client == sent.client && m.low == sent.low
    && (m.service == 0x00 || m.high == sent.high)
  }

  lemma {:induction false} MatchesIff(sent: Message, m: Message)
    ensures Matches(sent, m) <==> Answers(sent, m)
  {
  }

  /** A request goes out: the device is open, the write succeeds, and off the control service there is a client id. */
  ghost predicate GoesOut(m: Message, d: Device) {
    d.open && d.written && (m.service == 0x00 || (m.service in d.clients && d.clients[m.service] != 0))
  }

  /** What goes out: the request with its service's own client id, the IPv6 data service folded into the plain one. */
  ghost predicate Stamped(m: Message, d: Device, sent: Message) {
    && sent.low == m.low && sent.high == m.high && sent.body == m.body
    && (m.service == 0x00 ==> sent == m)
    && (m.service != 0x00 ==>
          && m.service in d.clients && sent.client == d.clients[m.service]
          && sent.service == if m.service == 0x11 then 0x01 else m.service)
  }

  /** The first message since `from` that answers, with no hang-up before it. */
  ghost predicate FirstSince(sent: Message, received: seq<Option<Message>>, from: nat, at: nat) {
    && from <= at < |received| && received[at].Some? && Answers(sent, received[at].value)
    && forall j :: from <= j < at ==> received[j].Some? && !Answers(sent, received[j].value)
  }

  lemma {:induction false} FirstIff(sent: Message, received: seq<Option<Message>>, from: nat, at: nat)
    ensures FirstAnswer(sent, received, from, at) <==> FirstSince(sent, received, from, at)
  {
    hide Matches, Answers;
    forall j | 0 <= j < |received| && received[j].Some?
      ensures Matches(sent, received[j].value) == Answers(sent, received[j].value)
    {
      MatchesIff(sent, received[j].value);
    }
  }

  ghost predicate Returns(call: Call, received: seq<Option<Message>>, expired: bool, result: Result) {
    if expired then result == TimedOut
    else match result
      case Answered(at) => call.wanted && FirstSince(call.sent, received, call.since, at)
      case Discarded(at) => !call.wanted && FirstSince(call.sent, received, call.since, at)
      case Empty => forall at: nat :: !FirstSince(call.sent, received, call.since, at)
      case _ => false
  }

  /** What one event sends, and the call it ends. */
  ghost predicate Told(s: Exchange, e: Event, sent: seq<Message>, ended: seq<Outcome>) {
    match e
    case Begin(m, d, wanted) =>
      && |sent| == 1
      && if GoesOut(m, d) then Stamped(m, d, sent[0]) && ended == []
         else |ended| == 1 && ended[0].result == Unsent && ended[0].call.since == |s.received|
    case Read(_) => sent == [] && ended == []
    case Resume(expired) =>
      && sent == [] && |ended| == 1 && s.waiting == Some(ended[0].call) && ended[0].until == |s.received|
      && Returns(ended[0].call, s.received, expired, ended[0].result)
  }

  ghost predicate AllTold(s: Exchange, events: seq<Event>, sent: seq<Message>, ended: seq<Outcome>)
    requires EnabledRun(s, events)
    decreases |events|
  {
    if events == [] then sent == [] && ended == []
    else exists i: nat, j: nat ::
      && i <= |sent| && j <= |ended| && Told(s, events[0], sent[..i], ended[..j])
      && AllTold(Step(s, events[0]), events[1..], sent[i..], ended[j..])
  }

  /** The call that a request which goes out waits with. */
  lemma {:induction false} BeginTold(s: Exchange, m: Message, d: Device, wanted: bool)
    returns (sent: seq<Message>, ended: seq<Outcome>)
    requires s.waiting.None?
    ensures var t := Send(s, m, d, wanted);
      && t.requests == s.requests + sent && t.outcomes == s.outcomes + ended
      && Told(s, Begin(m, d, wanted), sent, ended)
      && (if GoesOut(m, d) then t.waiting == Some(Call(|s.requests|, sent[0], |s.received|, wanted))
          else t.waiting.None?)
  {
    sent := [Prepared(m, d)];
    ended := [];
    assert s.outcomes + [] == s.outcomes;
    if !GoesOut(m, d) {
      ended := [Outcome(Call(|s.requests|, sent[0], |s.received|, wanted), |s.received|, Unsent)];
    }
  }

  lemma {:induction false} ResumeTold(s: Exchange, expired: bool) returns (ended: seq<Outcome>)
    requires Inv(s) && s.waiting.Some?
    ensures Wake(s, expired).outcomes == s.outcomes + ended && Told(s, Resume(expired), [], ended)
  {
    var call := s.waiting.value;
    var t := Wake(s, expired);
    var o := t.outcomes[|s.outcomes|];
    ended := [o];
    WakeKeeps(s, expired);
    assert Right(o, t.received);
    hide FirstAnswer, FirstSince, SlotsRight, Owned, AllRight, InTurn;
    forall at: nat ensures FirstAnswer(call.sent, s.received, call.since, at)
      <==> FirstSince(call.sent, s.received, call.since, at)
    {
      FirstIff(call.sent, s.received, call.since, at);
    }
    if o.result.Empty? {
      forall at: nat ensures !FirstSince(call.sent, s.received, call.since, at) {
        if call.since <= at < |s.received| {
          assert !FirstAnswer(call.sent, s.received, call.since, at);
        } else {
          OutOfRange(call.sent, s.received, call.since, at);
        }
      }
    }
  }

  lemma {:induction false} OutOfRange(sent: Message, received: seq<Option<Message>>, from: nat, at: nat)
    requires !(from <= at < |received|)
    ensures !FirstSince(sent, received, from, at)
  {
  }

  lemma {:induction false} StepTells(s: Exchange, e: Event) returns (sent: seq<Message>, ended: seq<Outcome>)
    requires Inv(s) && Enabled(s, e)
    ensures Step(s, e).requests == s.requests + sent && Step(s, e).outcomes == s.outcomes + ended
    ensures Told(s, e, sent, ended)
  {
    hide Inv, Send, Wake, Matches;
    assert s.requests + [] == s.requests && s.outcomes + [] == s.outcomes;
    match e
    case Begin(m, d, wanted) => sent, ended := BeginTold(s, m, d, wanted);
    case Read(m) => sent, ended := [], [];
    case Resume(expired) =>
      sent := [];
      ended := ResumeTold(s, expired);
      WakeRequests(s, expired);
  }

  lemma {:induction false} WakeRequests(s: Exchange, expired: bool)
    requires s.waiting.Some?
    ensures Wake(s, expired).requests == s.requests
  {
  }

  /**
   Over every interleaving: a request goes out exactly if the device is open, has a client
   id for its service and takes it, under that id and with its own transaction id; a call
   woken in time returns the first message since then that has the request's service,
   client id and transaction id, or nothing if none came before a hang-up or the wake-up.
   */
  lemma {:induction false} EveryCall(s: Exchange, events: seq<Event>) returns (sent: seq<Message>, ended: seq<Outcome>)
    requires Inv(s) && EnabledRun(s, events)
    ensures Run(s, events).requests == s.requests + sent && Run(s, events).outcomes == s.outcomes + ended
    ensures AllTold(s, events, sent, ended)
    decreases |events|
  {
    hide Inv, Told, Step;
    if events == [] {
      sent, ended := [], [];
    } else {
      var q, o := StepTells(s, events[0]);
      StepKeeps(s, events[0]);
      var later, more := EveryCall(Step(s, events[0]), events[1..]);
      sent, ended := q + later, o + more;
      assert sent[..|q|] == q && sent[|q|..] == later && ended[..|o|] == o && ended[|o|..] == more;
    }
  }

  /** The response slot does not point to a response that was thrown away. */
  ghost predicate NoneDangling(s: Exchange) {
    forall i :: 0 <= i < |s.outcomes| && s.outcomes[i].result.Discarded? ==>
      s.response != Some(s.outcomes[i].result.at) && s.outcomes[i].result.at < |s.received|
  }

  lemma {:induction false} DanglingStep(s: Exchange, e: Event)
    requires Inv(s) && NoneDangling(s) && Enabled(s, e)
    ensures NoneDangling(Step(s, e))
  {
    hide AllRight, InTurn, Silent, Matches;
  }

  /** Over every interleaving a response freed for want of a taker is out of the slot. */
  lemma {:induction false} NeverDangling(s: Exchange, events: seq<Event>)
    requires Inv(s) && NoneDangling(s) && EnabledRun(s, events)
    ensures NoneDangling(Run(s, events))
    decreases |events|
  {
    hide Inv, NoneDangling, Step;
    if events != [] {
      DanglingStep(s, events[0]);
      StepKeeps(s, events[0]);
      NeverDangling(Step(s, events[0]), events[1..]);
    }
  }

  /** The reader frees the waiting request exactly when it is answered or the channel hangs up. */
  lemma {:induction false} ReadFreesIff(s: Exchange, m: Option<Message>)
    ensures var t := Receive(s, m);
      var done := s.request.Some? && (m.None? || Answers(s.request.value.message, m.value));
      && t.freed == (if done then s.freed + [s.request.value.id] else s.freed)
      && t.request == (if done then None else s.request)
      && t.response == (if !done then s.response else if m.Some? then Some(|s.received|) else None)
  {
    if s.request.Some? && m.Some? { MatchesIff(s.request.value.message, m.value); }
  }
}
