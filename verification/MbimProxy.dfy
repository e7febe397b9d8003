/**
 The MBIM proxy (`quectel-mbim-proxy.c`): clients share one modem control channel through a
 table of 32 slots, and a request is tagged with its client's slot number in the top byte of
 its transaction id.
 */
module MbimProxySpec {
  import opened Common

  const SLOTS: nat := 32
  const OPEN: nat := 1
  const CLOSE: nat := 2
  const DONE: nat := 0x8000_0000
  const SHIFT: nat := 0x100_0000
  const WORD: nat := 0x1_0000_0000

  type word = w: int | 0 <= w < WORD

  datatype Message = Message(kind: word, tid: word, body: seq<int>)

  /** A slot is free when its descriptor is not positive. */
  datatype Slot = Slot(fd: int, idx: byte)

  type Table = t: seq<Slot> | |t| == SLOTS witness seq(SLOTS, _ => Slot(0, 0))

  datatype Delivery = Delivery(fd: int, message: Message)

  /**
   Whether the modem is open and clients are served, the slot table, what was passed on to
   the modem for clients, and what was written to the clients.
   */
  datatype Proxy = Proxy(serving: bool, table: Table, toDevice: seq<Message>, delivered: seq<Delivery>)

  function Empty(): (t: Table)
    ensures forall i :: 0 <= i < SLOTS ==> t[i] == Slot(0, 0)
  {
    seq(SLOTS, _ => Slot(0, 0))
  }

  const INITIAL: Proxy := Proxy(false, Empty(), [], [])

  /** Bitwise or, digit by digit. */
  function OrDigits(a: nat, b: nat, digits: nat): (r: nat)
    requires a < Pow2(digits) && b < Pow2(digits)
    ensures a <= r && b <= r && r < Pow2(digits)
  {
    if digits == 0 then 0
    else 2 * OrDigits(a / 2, b / 2, digits - 1) + if a % 2 == 1 || b % 2 == 1 then 1 else 0
  }

  function Or(a: byte, b: byte): (r: byte)
    ensures a <= r && b <= r
  {
    assert Pow2(8) == 256;
    OrDigits(a, b, 8)
  }

  /** Sets the slot number's bits in the top byte. */
  function Tag(tid: word, idx: byte): word {
    Or(tid / SHIFT, idx) * SHIFT + tid % SHIFT
  }

  /** The first slot from `i` on holding a descriptor, or the table size. */
  function SlotOf(t: Table, fd: int, i: nat): (k: nat)
    requires i <= SLOTS
    ensures i <= k <= SLOTS
    ensures k < SLOTS ==> t[k].fd == fd
    ensures forall j :: i <= j < k ==> t[j].fd != fd
    decreases SLOTS - i
  {
    if i == SLOTS || t[i].fd == fd then i else SlotOf(t, fd, i + 1)
  }

  /** The first free slot from `i` on, or the table size. */
  function FreeSlot(t: Table, i: nat): (k: nat)
    requires i <= SLOTS
    ensures i <= k <= SLOTS
    ensures k < SLOTS ==> t[k].fd <= 0
    ensures forall j :: i <= j < k ==> t[j].fd > 0
    decreases SLOTS - i
  {
    if i == SLOTS || t[i].fd <= 0 then i else FreeSlot(t, i + 1)
  }

  /** The first live slot from `i` on with a slot number, or the table size. */
  function LiveSlot(t: Table, idx: int, i: nat): (k: nat)
    requires i <= SLOTS
    ensures i <= k <= SLOTS
    ensures k < SLOTS ==> t[k].idx == idx && t[k].fd > 0
    ensures forall j :: i <= j < k ==> !(t[j].idx == idx && t[j].fd > 0)
    decreases SLOTS - i
  {
    if i == SLOTS || (t[i].idx == idx && t[i].fd > 0) then i else LiveSlot(t, idx, i + 1)
  }

  /** A message for every live slot from `i` on. */
  function Broadcast(t: Table, m: Message, i: nat): seq<Delivery>
    requires i <= SLOTS
    decreases SLOTS - i
  {
    if i == SLOTS then []
    else (if t[i].fd > 0 then [Delivery(t[i].fd, m)] else []) + Broadcast(t, m, i + 1)
  }

  /** handle_client_connect; a client that finds no free slot is closed again. */
  function Connect(s: Proxy, fd: int): Proxy {
    var k := FreeSlot(s.table, 0);
    if fd < 0 || k == SLOTS then s else s.(table := s.table[k := Slot(fd, k + 1)])
  }

  /** handle_client_disconnect. */
  function Disconnect(s: Proxy, fd: int): Proxy {
    var k := SlotOf(s.table, fd, 0);
    if k == SLOTS || fd <= 0 then s else s.(table := s.table[k := s.table[k].(fd := -1)])
  }

  /** handle_client_request: opening and closing are answered here, the rest is tagged and passed on. */
  function Request(s: Proxy, fd: int, m: Message): Proxy {
    var k := SlotOf(s.table, fd, 0);
    if k == SLOTS then s
    else if m.kind == OPEN || m.kind == CLOSE
    then s.(delivered := s.delivered + [Delivery(fd, Message(m.kind + DONE, m.tid, [0]))])
    else s.(toDevice := s.toDevice + [m.(tid := Tag(m.tid, s.table[k].idx))])
  }

  /** handle_device_response: an unsolicited message goes to everyone, an answer to the slot in its tag. */
  function Response(s: Proxy, m: Message): Proxy {
    if m.tid == 0 then s.(delivered := s.delivered + Broadcast(s.table, m, 0))
    else
      var k := LiveSlot(s.table, m.tid / SHIFT, 0);
      if k == SLOTS then s
      else s.(delivered := s.delivered + [Delivery(s.table[k].fd, m.(tid := m.tid % SHIFT))])
  }

  /** The loop ends and starts anew on a reopened modem, with a cleared table. */
  function Restart(s: Proxy): Proxy {
    s.(serving := false, table := Empty())
  }

  /**
   A message from the modem; until it reports being open only that report counts. `bound`
   says whether the server socket can be made.
   */
  function FromModem(s: Proxy, m: Message, bound: bool): Proxy {
    if s.serving then Response(s, m)
    else if m.kind != DONE + OPEN then s
    else if m.body != [] && m.body[0] != 0 then Restart(s)
    else s.(serving := bound)
  }

  /**
   What the poll loop sees: a new connection, a client's hang-up, a client's descriptor
   that is readable but gives nothing, a failure of the modem's descriptor or of the poll,
   and messages from either side.
   */
  datatype Event =
    | Accepted(fd: int)
    | HungUp(fd: int)
    | ReadFails(fd: int)
    | DeviceFails
    | FromClient(fd: int, m: Message)
    | FromDevice(m: Message, bound: bool)

  /** Clients come in while they are served, on positive descriptors that no connection has. */
  predicate Enabled(s: Proxy, e: Event) {
    e.Accepted? ==> s.serving && e.fd > 0 && SlotOf(s.table, e.fd, 0) == SLOTS
  }

  function Step(s: Proxy, e: Event): Proxy {
    match e
    case Accepted(fd) => Connect(s, fd)
    case HungUp(fd) => Disconnect(s, fd)
    case ReadFails(fd) => Restart(Disconnect(s, fd))
    case DeviceFails => Restart(s)
    case FromClient(fd, m) => Request(s, fd, m)
    case FromDevice(m, bound) => FromModem(s, m, bound)
  }

  predicate EnabledRun(s: Proxy, events: seq<Event>)
    decreases |events|
  {
    events == [] || (Enabled(s, events[0]) && EnabledRun(Step(s, events[0]), events[1..]))
  }

  function Run(s: Proxy, events: seq<Event>): Proxy
    decreases |events|
  {
    if events == [] then s else Run(Step(s, events[0]), events[1..])
  }
}

/** Where answers go, over every run. */
module MbimProxyProofs {
  import opened Common
  import opened MbimProxySpec

  /** A used slot carries its own number, and no descriptor is in two live slots. */
  ghost predicate Inv(t: Table) {
    && (forall i :: 0 <= i < SLOTS ==> t[i].idx == 0 || t[i].idx == i + 1)
    && (forall i :: 0 <= i < SLOTS && t[i].fd > 0 ==> t[i].idx == i + 1)
    && (forall i, j :: 0 <= i < j < SLOTS && t[i].fd > 0 ==> t[i].fd != t[j].fd)
  }

  ghost predicate Gone(t: Table, fd: int) {
    forall i :: 0 <= i < SLOTS ==> t[i].fd != fd
  }

  ghost predicate Live(t: Table, fd: int) {
    fd > 0 && !Gone(t, fd)
  }

  lemma {:induction false} OrNothing(b: nat, digits: nat)
    requires b < Pow2(digits)
    ensures OrDigits(0, b, digits) == b
  {
    if digits > 0 { OrNothing(b / 2, digits - 1); }
  }

  /** With a 24-bit id the tag can be taken apart again. */
  lemma {:induction false} TagApart(tid: word, idx: byte)
    requires 0 < idx
    ensures Tag(tid, idx) % SHIFT == tid % SHIFT
    ensures tid < SHIFT ==> Tag(tid, idx) / SHIFT == idx
    ensures Tag(tid, idx) != 0
    ensures Tag(tid, idx) % SHIFT == tid <==> tid < SHIFT
  {
    OrByte(idx);
    hide Or;
    Recomposed(Or(tid / SHIFT, idx), tid % SHIFT);
  }

  lemma {:induction false} OrByte(b: byte)
    ensures Or(0, b) == b
  {
    assert Pow2(8) == 256;
    OrNothing(b, 8);
  }

  lemma {:induction false} Recomposed(high: nat, low: nat)
    requires low < SHIFT
    ensures (high * SHIFT + low) / SHIFT == high && (high * SHIFT + low) % SHIFT == low
  {
  }

  lemma {:induction false} TakeKeeps(t: Table, k: nat, fd: int)
    requires Inv(t) && k < SLOTS && fd > 0 && Gone(t, fd)
    ensures Inv(t[k := Slot(fd, k + 1)])
  {
  }

  lemma {:induction false} LeaveKeeps(t: Table, k: nat)
    requires Inv(t) && k < SLOTS
    ensures Inv(t[k := t[k].(fd := -1)])
  {
  }

  lemma {:induction false} EmptyInv()
    ensures Inv(Empty())
  {
  }

  lemma {:induction false} StepKeeps(s: Proxy, e: Event)
    requires Inv(s.table) && Enabled(s, e)
    ensures Inv(Step(s, e).table)
  {
    EmptyInv();
    hide Inv, Tag, LiveSlot, Broadcast;
    if e.Accepted? {
      var k := FreeSlot(s.table, 0);
      if k < SLOTS { TakeKeeps(s.table, k, e.fd); }
    } else if e.HungUp? {
      var k := SlotOf(s.table, e.fd, 0);
      if k < SLOTS { LeaveKeeps(s.table, k); }
    }
  }

  lemma {:induction false} RunKeeps(s: Proxy, events: seq<Event>)
    requires Inv(s.table) && EnabledRun(s, events)
    ensures Inv(Run(s, events).table)
    decreases |events|
  {
    if events != [] {
      StepKeeps(s, events[0]);
      RunKeeps(Step(s, events[0]), events[1..]);
    }
  }

  /** In every run from the start the table is in order. */
  lemma {:induction false} TableInOrder(events: seq<Event>)
    requires EnabledRun(INITIAL, events)
    ensures Inv(Run(INITIAL, events).table)
  {
    RunKeeps(INITIAL, events);
  }

  lemma {:induction false} StepKeepsSlot(s: Proxy, e: Event, fd: int, k: nat)
    requires Inv(s.table) && Enabled(s, e) && k < SLOTS && fd > 0 && s.table[k].fd == fd && Harmless(e, fd) && s.serving
    ensures Step(s, e).table[k].fd == fd && Step(s, e).serving
  {
    hide Tag, SlotOf, FreeSlot, LiveSlot, Broadcast;
  }

  /** The event neither closes the client nor ends the loop. */
  ghost predicate Harmless(e: Event, fd: int) {
    e != HungUp(fd) && !e.ReadFails? && !e.DeviceFails?
  }

  ghost predicate Undisturbed(events: seq<Event>, fd: int) {
    forall i :: 0 <= i < |events| ==> Harmless(events[i], fd)
  }

  /** Through harmless events a connection keeps its slot. */
  lemma {:induction false} SlotKept(s: Proxy, fd: int, k: nat, events: seq<Event>)
    requires Inv(s.table) && EnabledRun(s, events) && k < SLOTS && fd > 0 && s.table[k].fd == fd && s.serving
    requires Undisturbed(events, fd)
    ensures Run(s, events).table[k].fd == fd && Run(s, events).serving
    decreases |events|
  {
    if events != [] {
      StepKeeps(s, events[0]);
      StepKeepsSlot(s, events[0], fd, k);
      hide Step, Inv;
      SlotKept(Step(s, events[0]), fd, k, events[1..]);
    }
  }

  lemma {:induction false} StepStaysGone(s: Proxy, fd: int, e: Event)
    requires fd > 0 && Gone(s.table, fd) && e != Accepted(fd)
    ensures Gone(Step(s, e).table, fd)
  {
  }

  lemma {:induction false} StaysGone(s: Proxy, fd: int, events: seq<Event>)
    requires fd > 0 && Gone(s.table, fd) && Accepted(fd) !in events
    ensures Gone(Run(s, events).table, fd)
    decreases |events|
  {
    if events != [] {
      assert events[0] != Accepted(fd);
      StepStaysGone(s, fd, events[0]);
      hide Step, Gone;
      StaysGone(Step(s, events[0]), fd, events[1..]);
    }
  }

  /** Any other event loses it, for good unless its descriptor is handed out anew. */
  lemma {:induction false} DisturbedIsGone(s: Proxy, fd: int, events: seq<Event>)
    requires Inv(s.table) && EnabledRun(s, events) && fd > 0
    requires !Undisturbed(events, fd) && Accepted(fd) !in events
    ensures Gone(Run(s, events).table, fd)
    decreases |events|
  {
    var s1 := Step(s, events[0]);
    StepKeeps(s, events[0]);
    if Harmless(events[0], fd) {
      if Undisturbed(events[1..], fd) { Undisturbed1(events, fd); }
      DisturbedIsGone(s1, fd, events[1..]);
    } else {
      HarmLeaves(s, events[0], fd);
      StaysGone(s1, fd, events[1..]);
    }
  }

  lemma {:induction false} Undisturbed1(events: seq<Event>, fd: int)
    requires events != [] && Harmless(events[0], fd) && Undisturbed(events[1..], fd)
    ensures Undisturbed(events, fd)
  {
    forall i | 0 <= i < |events| ensures Harmless(events[i], fd) {
      if i > 0 { assert events[i] == events[1..][i - 1]; }
    }
  }

  lemma {:induction false} HarmLeaves(s: Proxy, e: Event, fd: int)
    requires Inv(s.table) && fd > 0 && !Harmless(e, fd)
    ensures Gone(Step(s, e).table, fd)
  {
  }

  /**
   The reply to a request. Whatever happens in between, the modem's answer to a request of
   client `fd` reaches that client, and it alone, with the id the client used, if and only
   if that id fits 24 bits, the client did not hang up, no read from any client came up
   empty and the modem did not fail. It is never broadcast. (Were the descriptor handed
   out anew in between, it would name another client.)
   */
  lemma {:induction false} ReplyIff(s: Proxy, fd: int, m: Message, events: seq<Event>, reply: Message, bound: bool)
    requires Inv(s.table) && s.serving && Live(s.table, fd) && m.kind != OPEN && m.kind != CLOSE
    requires var s1 := Request(s, fd, m); EnabledRun(s1, events) && Accepted(fd) !in events
    requires var sent := Request(s, fd, m).toDevice; |sent| > |s.toDevice| && reply.tid == sent[|s.toDevice|].tid
    ensures var s2 := Run(Request(s, fd, m), events);
      Step(s2, FromDevice(reply, bound)).delivered == s2.delivered + [Delivery(fd, reply.(tid := m.tid))]
      <==> m.tid < SHIFT && Undisturbed(events, fd)
  {
    var k := SlotOf(s.table, fd, 0);
    var s1 := Request(s, fd, m);
    var s2 := Run(s1, events);
    assert s1.table == s.table && s1.serving && s.table[k].idx == k + 1 && reply.tid == Tag(m.tid, k + 1);
    hide Request, SlotOf, Run, EnabledRun, Undisturbed, Tag, Gone, Step, Inv;
    TagApart(m.tid, k + 1);
    RunKeeps(s1, events);
    if Undisturbed(events, fd) {
      SlotKept(s1, fd, k, events);
      if m.tid < SHIFT { Reaches(s2, k, reply, bound); }
    } else {
      DisturbedIsGone(s1, fd, events);
    }
    if Step(s2, FromDevice(reply, bound)).delivered == s2.delivered + [Delivery(fd, reply.(tid := m.tid))] {
      NotTheSame(s2, reply, bound, fd, m.tid);
    }
  }

  /** An answer tagged for a live slot goes to the client there. */
  lemma {:induction false} Reaches(s: Proxy, k: nat, reply: Message, bound: bool)
    requires Inv(s.table) && s.serving && k < SLOTS && s.table[k].fd > 0 && reply.tid / SHIFT == k + 1
    ensures Step(s, FromDevice(reply, bound)).delivered
      == s.delivered + [Delivery(s.table[k].fd, reply.(tid := reply.tid % SHIFT))]
  {
    assert s.table[k].idx == k + 1;
  }

  /** An answer delivered carries the low 24 bits, to a client in the table. */
  lemma {:induction false} NotTheSame(s: Proxy, reply: Message, bound: bool, fd: int, tid: word)
    requires Step(s, FromDevice(reply, bound)).delivered == s.delivered + [Delivery(fd, reply.(tid := tid))]
    requires reply.tid != 0
    ensures tid == reply.tid % SHIFT && !Gone(s.table, fd)
  {
    var k := LiveSlot(s.table, reply.tid / SHIFT, 0);
    var d := Delivery(fd, reply.(tid := tid));
    var n := |s.delivered|;
    assert Step(s, FromDevice(reply, bound)).delivered[n] == d;
    if k < SLOTS {
      assert s.table[k].fd == fd;
    }
  }

  /** The descriptor is in a slot from `i` on. */
  ghost predicate Later(t: Table, fd: int, i: nat) {
    exists k :: i <= k < SLOTS && t[k].fd == fd
  }

  lemma {:induction false} LaterSplit(t: Table, fd: int, i: nat)
    requires Inv(t) && i < SLOTS && fd > 0
    ensures Later(t, fd, i) <==> t[i].fd == fd || Later(t, fd, i + 1)
    ensures t[i].fd == fd ==> !Later(t, fd, i + 1)
  {
  }

  /** An unsolicited message reaches every connected client once, and nobody else. */
  lemma {:induction false} BroadcastOnce(t: Table, m: Message, fd: int, i: nat)
    requires Inv(t) && i <= SLOTS && fd > 0
    ensures multiset(Broadcast(t, m, i))[Delivery(fd, m)] == if Later(t, fd, i) then 1 else 0
    ensures forall d :: d in Broadcast(t, m, i) ==> d.message == m
    decreases SLOTS - i
  {
    if i < SLOTS {
      LaterSplit(t, fd, i);
      hide Inv, Later;
      BroadcastOnce(t, m, fd, i + 1);
      var here := if t[i].fd > 0 then [Delivery(t[i].fd, m)] else [];
      assert multiset(Broadcast(t, m, i)) == multiset(here) + multiset(Broadcast(t, m, i + 1));
    }
  }

  // ---- Everything that is written ----

  /** Each connected client is given the message once, and nobody is given anything else. */
  ghost predicate ToEveryone(t: Table, m: Message, now: seq<Delivery>) {
    && (forall fd :: fd > 0 ==> multiset(now)[Delivery(fd, m)] == if Live(t, fd) then 1 else 0)
    && forall d :: d in now ==> d.message == m && d.fd > 0
  }

  /** The client in the slot the tag names is given the message with the tag taken off, if one is there. */
  ghost predicate ToSlot(t: Table, m: Message, now: seq<Delivery>) {
    var k := m.tid / SHIFT - 1;
    now == if 0 <= k < SLOTS && t[k].fd > 0 then [Delivery(t[k].fd, m.(tid := m.tid % SHIFT))] else []
  }

  /** The message itself, with the number of the client's slot put over its id. */
  ghost predicate TaggedFor(t: Table, fd: int, m: Message, x: Message) {
    && x.kind == m.kind && x.body == m.body && x.tid % SHIFT == m.tid % SHIFT
    && (m.tid < SHIFT ==> 1 <= x.tid / SHIFT <= SLOTS && t[x.tid / SHIFT - 1].fd == fd)
  }

  /** What one event makes the proxy write to the clients and to the modem. */
  ghost predicate Told(s: Proxy, e: Event, now: seq<Delivery>, sent: seq<Message>) {
    match e
    case FromDevice(m, _) =>
      && sent == []
      && if !s.serving then now == [] else if m.tid == 0 then ToEveryone(s.table, m, now) else ToSlot(s.table, m, now)
    case FromClient(fd, m) => fd > 0 ==>
      if !Live(s.table, fd) then now == [] && sent == []
      else if m.kind == OPEN || m.kind == CLOSE
      then now == [Delivery(fd, Message(m.kind + DONE, m.tid, [0]))] && sent == []
      else now == [] && |sent| == 1 && TaggedFor(s.table, fd, m, sent[0])
    case _ => now == [] && sent == []
  }

  /** The writes of a run, event by event. */
  ghost predicate AllTold(s: Proxy, events: seq<Event>, out: seq<Delivery>, passed: seq<Message>)
    decreases |events|
  {
    if events == [] then out == [] && passed == []
    else exists i: nat, j: nat ::
      && i <= |out| && j <= |passed| && Told(s, events[0], out[..i], passed[..j])
      && AllTold(Step(s, events[0]), events[1..], out[i..], passed[j..])
  }

  /** The two kinds of writes only grow; what the step adds. */
  lemma {:induction false} Grows(s: Proxy, e: Event) returns (now: seq<Delivery>, sent: seq<Message>)
    ensures Step(s, e).delivered == s.delivered + now && Step(s, e).toDevice == s.toDevice + sent
  {
    hide Tag, SlotOf, FreeSlot, LiveSlot, Broadcast;
    var t := Step(s, e);
    assert s.delivered + [] == s.delivered && s.toDevice + [] == s.toDevice;
    now, sent := t.delivered[|s.delivered|..], t.toDevice[|s.toDevice|..];
  }

  lemma {:induction false} BroadcastTold(s: Proxy, m: Message, bound: bool, now: seq<Delivery>)
    requires Inv(s.table) && s.serving && m.tid == 0
    requires Step(s, FromDevice(m, bound)).delivered == s.delivered + now
    ensures ToEveryone(s.table, m, now)
  {
    hide Broadcast, Inv;
    BroadcastAll(s.table, m);
    assert now == (s.delivered + now)[|s.delivered|..] == Broadcast(s.table, m, 0);
  }

  lemma {:induction false} BroadcastAll(t: Table, m: Message)
    requires Inv(t)
    ensures ToEveryone(t, m, Broadcast(t, m, 0))
  {
    hide Broadcast, Inv, Live, Later;
    BroadcastLive(t, m, 0);
    forall fd | fd > 0 ensures multiset(Broadcast(t, m, 0))[Delivery(fd, m)] == if Live(t, fd) then 1 else 0 {
      BroadcastOnce(t, m, fd, 0);
      LiveIsLater(t, fd);
    }
  }

  lemma {:induction false} LiveIsLater(t: Table, fd: int)
    requires fd > 0
    ensures Live(t, fd) <==> Later(t, fd, 0)
  {
  }

  lemma {:induction false} BroadcastLive(t: Table, m: Message, i: nat)
    requires i <= SLOTS
    ensures forall d :: d in Broadcast(t, m, i) ==> d.message == m && d.fd > 0
    decreases SLOTS - i
  {
    if i < SLOTS { BroadcastLive(t, m, i + 1); }
  }

  lemma {:induction false} AnswerTold(s: Proxy, m: Message, bound: bool, now: seq<Delivery>)
    requires Inv(s.table) && s.serving && m.tid != 0
    requires Step(s, FromDevice(m, bound)).delivered == s.delivered + now
    ensures ToSlot(s.table, m, now)
  {
    hide LiveSlot, Broadcast;
    var k := LiveSlot(s.table, m.tid / SHIFT, 0);
    assert now == (s.delivered + now)[|s.delivered|..];
    var h := m.tid / SHIFT - 1;
    if 0 <= h < SLOTS && s.table[h].fd > 0 {
      assert s.table[h].idx == h + 1 == m.tid / SHIFT;
    }
  }

  lemma {:induction false} RequestTold(s: Proxy, fd: int, m: Message, now: seq<Delivery>, sent: seq<Message>)
    requires Inv(s.table) && fd > 0
    requires var t := Step(s, FromClient(fd, m)); t.delivered == s.delivered + now && t.toDevice == s.toDevice + sent
    ensures Told(s, FromClient(fd, m), now, sent)
  {
    hide SlotOf, Tag;
    var k := SlotOf(s.table, fd, 0);
    assert now == (s.delivered + now)[|s.delivered|..] && sent == (s.toDevice + sent)[|s.toDevice|..];
    if k < SLOTS {
      assert Live(s.table, fd) && s.table[k].idx == k + 1;
      TagApart(m.tid, k + 1);
    }
  }

  lemma {:induction false} StepTells(s: Proxy, e: Event, now: seq<Delivery>, sent: seq<Message>)
    requires Inv(s.table) && Step(s, e).delivered == s.delivered + now && Step(s, e).toDevice == s.toDevice + sent
    ensures Told(s, e, now, sent)
  {
    hide ToEveryone, ToSlot, Broadcast, LiveSlot, SlotOf, FreeSlot, Tag, Inv, TaggedFor;
    assert now == (s.delivered + now)[|s.delivered|..] && sent == (s.toDevice + sent)[|s.toDevice|..];
    match e
    case FromDevice(m, bound) =>
      if s.serving {
        if m.tid == 0 { BroadcastTold(s, m, bound, now); } else { AnswerTold(s, m, bound, now); }
      }
    case FromClient(fd, m) => if fd > 0 { RequestTold(s, fd, m, now, sent); }
    case _ =>
  }

  /**
   Over every run: an unsolicited message of the modem goes once to each client connected at
   that point, an answer to the client in the slot of its tag, a client's open or close gets
   its done message, every other request is passed on under its slot's tag, in order, and
   nothing else is ever written.
   */
  lemma {:induction false} EveryWrite(s: Proxy, events: seq<Event>, out: seq<Delivery>, passed: seq<Message>)
    requires Inv(s.table) && EnabledRun(s, events)
    requires Run(s, events).delivered == s.delivered + out && Run(s, events).toDevice == s.toDevice + passed
    ensures AllTold(s, events, out, passed)
    decreases |events|
  {
    hide Inv, Step, Told;
    if events == [] {
      assert out == (s.delivered + out)[|s.delivered|..] && passed == (s.toDevice + passed)[|s.toDevice|..];
    } else {
      var now, sent := Grows(s, events[0]);
      StepTells(s, events[0], now, sent);
      StepKeeps(s, events[0]);
      var s1 := Step(s, events[0]);
      var later, more := RunGrows(s1, events[1..]);
      Tail(s.delivered, now, later, out);
      Tail(s.toDevice, sent, more, passed);
      EveryWrite(s1, events[1..], later, more);
      assert out[..|now|] == now && out[|now|..] == later && passed[..|sent|] == sent && passed[|sent|..] == more;
    }
  }

  lemma {:induction false} RunGrows(s: Proxy, events: seq<Event>) returns (out: seq<Delivery>, passed: seq<Message>)
    ensures Run(s, events).delivered == s.delivered + out && Run(s, events).toDevice == s.toDevice + passed
    decreases |events|
  {
    hide Step;
    if events == [] {
      out, passed := [], [];
    } else {
      var now, sent := Grows(s, events[0]);
      var later, more := RunGrows(Step(s, events[0]), events[1..]);
      out, passed := now + later, sent + more;
    }
  }

  lemma {:induction false} Tail<T>(before: seq<T>, now: seq<T>, later: seq<T>, all: seq<T>)
    requires before + all == before + now + later
    ensures all == now + later
  {
    assert all == (before + all)[|before|..] && now + later == (before + now + later)[|before|..];
  }

  // ---- When clients are served ----

  /** The modem reports being open, and the server socket is made. */
  predicate Opens(e: Event) {
    e.FromDevice? && e.m.kind == DONE + OPEN && (e.m.body == [] || e.m.body[0] == 0) && e.bound
  }

  predicate Ends(e: Event) {
    e.ReadFails? || e.DeviceFails?
  }

  /**
   From any state: clients are served after a run iff they were, or the modem opened, and the
   loop did not end since.
   */
  lemma {:induction false} ServedIff(s: Proxy, events: seq<Event>)
    ensures Run(s, events).serving <==>
      || (s.serving && forall j :: 0 <= j < |events| ==> !Ends(events[j]))
      || (exists i :: 0 <= i < |events| && Opens(events[i]) && forall j :: i < j < |events| ==> !Ends(events[j]))
    decreases |events|
  {
    if events != [] {
      var rest := events[1..];
      ServedStep(s, events[0]);
      ServedIff(Step(s, events[0]), rest);
      hide Step, Opens, Ends, Run;
      assert Run(s, events).serving == Run(Step(s, events[0]), rest).serving by { RunHead(s, events); }
      assert forall j :: 0 <= j < |rest| ==> rest[j] == events[j + 1];
      assert forall j :: 0 < j < |events| ==> events[j] == rest[j - 1];
      if i :| 0 <= i < |rest| && Opens(rest[i]) && forall j :: i < j < |rest| ==> !Ends(rest[j]) {
        assert Opens(events[i + 1]) && forall j :: i + 1 < j < |events| ==> !Ends(events[j]);
      }
    }
  }

  lemma {:induction false} RunHead(s: Proxy, events: seq<Event>)
    requires events != []
    ensures Run(s, events) == Run(Step(s, events[0]), events[1..])
  {
  }

  lemma {:induction false} ServedStep(s: Proxy, e: Event)
    ensures Step(s, e).serving <==> (s.serving && !Ends(e)) || Opens(e)
  {
  }

  ghost predicate NoSessionCommands(sent: seq<Message>) {
    forall i :: 0 <= i < |sent| ==> sent[i].kind != OPEN && sent[i].kind != CLOSE
  }

  /** In every run no client's open or close message is passed on to the modem. */
  lemma {:induction false} SessionShared(s: Proxy, events: seq<Event>)
    requires NoSessionCommands(s.toDevice)
    ensures NoSessionCommands(Run(s, events).toDevice)
    decreases |events|
  {
    if events != [] {
      SessionShared(Step(s, events[0]), events[1..]);
    }
  }

  /** They are answered to that client alone, as done, with its own id. */
  lemma {:induction false} AnsweredHere(s: Proxy, fd: int, m: Message)
    requires Live(s.table, fd) && (m.kind == OPEN || m.kind == CLOSE)
    ensures var t := Request(s, fd, m);
      && t.toDevice == s.toDevice && |t.delivered| == |s.delivered| + 1 && t.delivered[..|s.delivered|] == s.delivered
      && var d := t.delivered[|s.delivered|]; d.fd == fd && d.message.tid == m.tid && d.message.kind == DONE + m.kind
  {
  }

  /** The modem's report of being open. */
  const OPENED: Event := FromDevice(Message(DONE + OPEN, 1, [0]), true)

  /** Two clients connected, the first with a request under way. */
  lemma {:induction false} TwoClients(m: Message)
    requires m.kind != OPEN && m.kind != CLOSE
    ensures var events := [OPENED, Accepted(5), Accepted(6), FromClient(5, m)];
      && EnabledRun(INITIAL, events)
      && var s := Run(INITIAL, events);
         && s.serving && s.delivered == [] && s.toDevice == [m.(tid := Tag(m.tid, 1))]
         && s.table == Empty()[0 := Slot(5, 1)][1 := Slot(6, 2)]
  {
    hide Tag;
    var o := Step(INITIAL, OPENED);
    var a := Step(o, Accepted(5));
    assert a.table == Empty()[0 := Slot(5, 1)];
    var b := Step(a, Accepted(6));
    assert FreeSlot(a.table, 0) == 1 && b.table == Empty()[0 := Slot(5, 1)][1 := Slot(6, 2)];
    RunCons(INITIAL, OPENED, [Accepted(5), Accepted(6), FromClient(5, m)]);
    RunCons(o, Accepted(5), [Accepted(6), FromClient(5, m)]);
    RunCons(a, Accepted(6), [FromClient(5, m)]);
    RunCons(b, FromClient(5, m), []);
  }

  /** One client's empty read ends the loop, and another, who never hung up, loses its answer. */
  lemma {:induction false} AnswerLost(m: Message, reply: Message, bound: bool)
    requires m.kind != OPEN && m.kind != CLOSE && m.tid < SHIFT && reply.tid == Tag(m.tid, 1)
    ensures var events := [OPENED, Accepted(5), Accepted(6), FromClient(5, m)] + [ReadFails(6)];
      && EnabledRun(INITIAL, events)
      && var s := Run(INITIAL, events);
         s.toDevice == [m.(tid := reply.tid)] && Step(s, FromDevice(reply, bound)).delivered == []
  {
    var before := [OPENED, Accepted(5), Accepted(6), FromClient(5, m)];
    TwoClients(m);
    hide Tag;
    RunAppend(INITIAL, before, [ReadFails(6)]);
    var s := Run(INITIAL, before);
    hide Run, EnabledRun;
    RunCons(s, ReadFails(6), []);
    RunNothing(Step(s, ReadFails(6)));
    assert [ReadFails(6)] == [ReadFails(6)] + [];
  }

  /** A client that hangs up leaves its slot to the next, who is then handed the answer meant for it. */
  lemma {:induction false} SlotReused(m: Message, reply: Message, bound: bool)
    requires m.kind != OPEN && m.kind != CLOSE && m.tid < SHIFT && reply.tid == Tag(m.tid, 1)
    ensures var events := [OPENED, Accepted(5), Accepted(6), FromClient(5, m)] + [HungUp(5), Accepted(5)];
      && EnabledRun(INITIAL, events)
      && var s := Run(INITIAL, events);
         && s.toDevice == [m.(tid := reply.tid)]
         && Step(s, FromDevice(reply, bound)).delivered == [Delivery(5, reply.(tid := m.tid))]
  {
    var before := [OPENED, Accepted(5), Accepted(6), FromClient(5, m)];
    TwoClients(m);
    TagApart(m.tid, 1);
    hide Tag;
    RunAppend(INITIAL, before, [HungUp(5), Accepted(5)]);
    var s := Run(INITIAL, before);
    hide Run, EnabledRun;
    var c := Step(s, HungUp(5));
    var d := Step(c, Accepted(5));
    assert c.table[0] == Slot(-1, 1) && d.table[0] == Slot(5, 1);
    RunCons(s, HungUp(5), [Accepted(5)]);
    RunCons(c, Accepted(5), []);
    RunNothing(d);
    assert LiveSlot(d.table, 1, 0) == 0;
  }

  lemma {:induction false} RunNothing(s: Proxy)
    ensures Run(s, []) == s && EnabledRun(s, [])
  {
  }

  lemma {:induction false} RunAppend(s: Proxy, a: seq<Event>, b: seq<Event>)
    ensures Run(s, a + b) == Run(Run(s, a), b)
    ensures EnabledRun(s, a + b) == (EnabledRun(s, a) && EnabledRun(Run(s, a), b))
    decreases |a|
  {
    if a == [] {
      assert a + b == b;
    } else {
      assert (a + b)[1..] == a[1..] + b;
      RunAppend(Step(s, a[0]), a[1..], b);
    }
  }

  lemma {:induction false} RunCons(s: Proxy, e: Event, rest: seq<Event>)
    ensures Run(s, [e] + rest) == Run(Step(s, e), rest)
    ensures EnabledRun(s, [e] + rest) == (Enabled(s, e) && EnabledRun(Step(s, e), rest))
  {
    assert ([e] + rest)[1..] == rest;
  }
}

/** The proxy over its slot array. */
module MbimProxyServer {
  import opened MbimProxySpec
  import opened MbimProxyProofs

  /** The receive buffer, whose header is rewritten in place. */
  class Packet {
    var kind: word
    var tid: word
    var body: seq<int>

    constructor (m: Message)
      ensures Contents() == m
    {
      kind, tid, body := m.kind, m.tid, m.body;
    }

    function Contents(): Message
      reads this
    {
      Message(kind, tid, body)
    }
  }

  class Server {
    var serving: bool
    const clients: array<Slot>
    var toDevice: seq<Message>
    var delivered: seq<Delivery>

    ghost predicate Valid() {
      clients.Length == SLOTS
    }

    ghost function State(): Proxy
      requires Valid()
      reads this, clients
    {
      Proxy(serving, clients[..], toDevice, delivered)
    }

    constructor ()
      ensures Valid() && State() == INITIAL && fresh(clients)
    {
      clients := new Slot[SLOTS](_ => Slot(0, 0));
      serving, toDevice, delivered := false, [], [];
      new;
      assert clients[..] == Empty();
    }

    method FindFree() returns (i: nat)
      requires Valid()
      ensures i == FreeSlot(clients[..], 0)
    {
      i := 0;
      while i < SLOTS && clients[i].fd > 0
        invariant 0 <= i <= SLOTS
        invariant FreeSlot(clients[..], i) == FreeSlot(clients[..], 0)
      {
        i := i + 1;
      }
    }

    method FindSlot(fd: int) returns (i: nat)
      requires Valid()
      ensures i == SlotOf(clients[..], fd, 0)
    {
      i := 0;
      while i < SLOTS && clients[i].fd != fd
        invariant 0 <= i <= SLOTS
        invariant SlotOf(clients[..], fd, i) == SlotOf(clients[..], fd, 0)
      {
        i := i + 1;
      }
    }

    method FindLive(idx: int) returns (i: nat)
      requires Valid()
      ensures i == LiveSlot(clients[..], idx, 0)
    {
      i := 0;
      while i < SLOTS && !(clients[i].idx == idx && clients[i].fd > 0)
        invariant 0 <= i <= SLOTS
        invariant LiveSlot(clients[..], idx, i) == LiveSlot(clients[..], idx, 0)
      {
        i := i + 1;
      }
    }

    method HandleConnect(fd: int) returns (ret: int)
      requires Valid()
      modifies clients
      ensures State() == Connect(old(State()), fd)
      ensures ret == 0 <==> fd >= 0 && FreeSlot(old(State()).table, 0) < SLOTS
    {
      hide FreeSlot;
      if fd < 0 {
        return -1;
      }
      ghost var t := clients[..];
      var i := FindFree();
      if i == SLOTS {
        return -1;
      }
      clients[i] := Slot(fd, i + 1);
      assert clients[..] == t[i := Slot(fd, i + 1)];
      ret := 0;
    }

    method HandleDisconnect(fd: int)
      requires Valid()
      modifies clients
      ensures State() == Disconnect(old(State()), fd)
    {
      hide SlotOf;
      ghost var t := clients[..];
      var i := FindSlot(fd);
      if i < SLOTS && clients[i].fd > 0 {
        clients[i] := clients[i].(fd := -1);
        assert clients[..] == t[i := t[i].(fd := -1)];
      }
    }

    method HandleRequest(fd: int, packet: Packet) returns (ret: int)
      requires Valid()
      modifies `toDevice, `delivered, packet
      ensures State() == Request(old(State()), fd, old(packet.Contents()))
      ensures ret == 0 <==> SlotOf(old(State()).table, fd, 0) < SLOTS
    {
      hide Tag, SlotOf;
      var i := FindSlot(fd);
      if i == SLOTS {
        return -1;
      }
      ret := 0;
      if packet.kind == OPEN || packet.kind == CLOSE {
        delivered := delivered + [Delivery(fd, Message(packet.kind + DONE, packet.tid, [0]))];
      } else {
        packet.tid := Tag(packet.tid, clients[i].idx);
        toDevice := toDevice + [packet.Contents()];
      }
    }

    /** The same message to every live client. */
    method SendAll(packet: Packet)
      requires Valid()
      modifies `delivered
      ensures delivered == old(delivered) + Broadcast(clients[..], packet.Contents(), 0)
    {
      ghost var before := delivered;
      ghost var m := packet.Contents();
      var i := 0;
      while i < SLOTS
        invariant 0 <= i <= SLOTS
        invariant delivered + Broadcast(clients[..], m, i) == before + Broadcast(clients[..], m, 0)
      {
        ghost var rest := Broadcast(clients[..], m, i + 1);
        if clients[i].fd > 0 {
          assert delivered + ([Delivery(clients[i].fd, m)] + rest) == delivered + [Delivery(clients[i].fd, m)] + rest;
          delivered := delivered + [Delivery(clients[i].fd, packet.Contents())];
        } else {
          assert [] + rest == rest;
        }
        i := i + 1;
      }
      assert delivered + [] == delivered;
    }

    method HandleResponse(packet: Packet)
      requires Valid()
      modifies `delivered, packet
      ensures State() == Response(old(State()), old(packet.Contents()))
    {
      hide Broadcast, LiveSlot;
      if packet.tid == 0 {
        SendAll(packet);
      } else {
        var i := FindLive(packet.tid / SHIFT);
        if i < SLOTS {
          packet.tid := packet.tid % SHIFT;
          delivered := delivered + [Delivery(clients[i].fd, packet.Contents())];
        }
      }
    }

    /** The end of one pass of the main loop and the start of the next: the table is wiped. */
    method StartOver()
      requires Valid()
      modifies `serving, clients
      ensures State() == Restart(old(State()))
    {
      serving := false;
      forall i | 0 <= i < SLOTS {
        clients[i] := Slot(0, 0);
      }
      assert clients[..] == Empty();
    }

    /** What the poll loop does with one ready descriptor. */
    method Dispatch(e: Event)
      requires Valid() && Enabled(State(), e)
      modifies this, clients
      ensures State() == Step(old(State()), e)
    {
      hide Connect, Disconnect, Request, Response, Restart;
      match e {
        case Accepted(fd) =>
          var _ := HandleConnect(fd);
        case HungUp(fd) =>
          HandleDisconnect(fd);
        case ReadFails(fd) =>
          HandleDisconnect(fd);
          StartOver();
        case DeviceFails =>
          StartOver();
        case FromClient(fd, m) =>
          var packet := new Packet(m);
          var _ := HandleRequest(fd, packet);
        case FromDevice(m, bound) =>
          var packet := new Packet(m);
          if serving {
            HandleResponse(packet);
          } else if packet.kind == DONE + OPEN {
            if packet.body != [] && packet.body[0] != 0 {
              StartOver();
            } else {
              serving := bound;
            }
          }
      }
    }

    /**
     The loop over whatever the poll reports: the server goes through the run of the model,
     its table in order throughout.
     */
    method ProxyLoop(events: seq<Event>)
      requires Valid() && EnabledRun(State(), events) && Inv(State().table)
      modifies this, clients
      ensures State() == Run(old(State()), events) && Inv(State().table)
      ensures old(delivered) <= delivered && old(toDevice) <= toDevice
      ensures AllTold(old(State()), events, delivered[|old(delivered)|..], toDevice[|old(toDevice)|..])
    {
      hide AllTold;
      ghost var start := State();
      var i := 0;
      RunNothing(start);
      assert events[0..] == events;
      while i < |events|
        invariant 0 <= i <= |events|
        invariant EnabledRun(State(), events[i..]) && Run(State(), events[i..]) == Run(start, events)
        invariant Inv(State().table)
      {
        assert events[i..][0] == events[i] && events[i..][1..] == events[i + 1..];
        StepKeeps(State(), events[i]);
        Dispatch(events[i]);
        i := i + 1;
      }
      assert events[i..] == [];
      ghost var out, passed := RunGrows(start, events);
      EveryWrite(start, events, out, passed);
    }
  }
}

/** The transaction ids a client of the proxy uses (`mbim-cm.c`). */
module MbimTids {
  import opened Common
  import opened MbimProxySpec

  /** One command: whether it passed the checks before the wrap check and so was sent. */
  datatype Sent = Sent(after: word, tid: Option<word>)

  /** Composing takes the counter; sending renumbers the one id that needs a 25th bit. */
  function Command(counter: word, reaches: bool): Sent {
    var after := (counter + 1) % WORD;
    if !reaches then Sent(after, None)
    else if counter == SHIFT then Sent(2, Some(1))
    else Sent(after, Some(counter))
  }

  function Tids(counter: word, reached: seq<bool>): seq<word>
    decreases |reached|
  {
    if reached == [] then []
    else
      var c := Command(counter, reached[0]);
      (if c.tid.Some? then [c.tid.value] else []) + Tids(c.after, reached[1..])
  }

  /** Every command composed with the id that needs a 25th bit reaches the wrap check. */
  predicate Guarded(counter: word, reached: seq<bool>)
    decreases |reached|
  {
    reached == [] || ((counter == SHIFT ==> reached[0]) && Guarded(Command(counter, reached[0]).after, reached[1..]))
  }

  ghost predicate Fits(tids: seq<word>) {
    forall i :: 0 <= i < |tids| ==> 1 <= tids[i] < SHIFT
  }

  /** From the first command on, ids stay within 1 and 24 bits. */
  lemma {:induction false} TidsFit(counter: word, reached: seq<bool>)
    requires 1 <= counter <= SHIFT && Guarded(counter, reached)
    ensures Fits(Tids(counter, reached))
    decreases |reached|
  {
    if reached != [] {
      TidsFit(Command(counter, reached[0]).after, reached[1..]);
    }
  }

  /** A command composed at the limit misses the wrap check, and one is sent after it. */
  predicate MissedThenSent(counter: word, reached: seq<bool>)
    decreases |reached|
  {
    reached != [] &&
    if counter == SHIFT && !reached[0] then true in reached[1..]
    else MissedThenSent(Command(counter, reached[0]).after, reached[1..])
  }

  /**
   For every sequence of commands too short to bring the counter round: all ids fit if and
   only if none is sent after one composed at the limit missed the check.
   */
  lemma {:induction false} EscapeIff(counter: word, reached: seq<bool>)
    requires 1 <= counter <= SHIFT && |reached| <= WORD - SHIFT
    ensures Fits(Tids(counter, reached)) <==> !MissedThenSent(counter, reached)
    decreases |reached|
  {
    hide Fits, Tids;
    TidsFirst(counter, reached);
    if reached != [] {
      if counter == SHIFT && !reached[0] {
        BeyondIff(SHIFT + 1, reached[1..]);
      } else {
        EscapeIff(Command(counter, reached[0]).after, reached[1..]);
      }
    }
  }

  /** One command composed at the limit and not sent is enough: the next one has a 25-bit id. */
  lemma {:induction false} Escaped()
    ensures Tids(SHIFT, [false, true]) == [SHIFT + 1]
  {
    assert [false, true][1..] == [true] && [true][1..] == [];
    assert Tids(SHIFT + 1, [true]) == [SHIFT + 1] + [];
    assert [] + [SHIFT + 1] == [SHIFT + 1];
  }

  /** Behind the limit no id that is sent fits. */
  lemma {:induction false} BeyondIff(counter: nat, reached: seq<bool>)
    requires SHIFT < counter && counter + |reached| <= WORD
    ensures Fits(Tids(counter % WORD, reached)) <==> true !in reached
    decreases |reached|
  {
    hide Fits, Tids;
    TidsFirst(counter % WORD, reached);
    if reached != [] {
      BeyondIff(counter + 1, reached[1..]);
      assert true in reached <==> reached[0] || true in reached[1..];
    }
  }

  /** The ids fit when the first one sent does and the others do. */
  lemma {:induction false} TidsFirst(counter: word, reached: seq<bool>)
    ensures reached == [] ==> Fits(Tids(counter, reached))
    ensures reached != [] ==>
      var c := Command(counter, reached[0]);
      Fits(Tids(counter, reached)) <==>
        (c.tid.Some? ==> 1 <= c.tid.value < SHIFT) && Fits(Tids(c.after, reached[1..]))
  {
    if reached != [] {
      var c := Command(counter, reached[0]);
      var rest := Tids(c.after, reached[1..]);
      var all := Tids(counter, reached);
      if c.tid.Some? {
        assert all == [c.tid.value] + rest;
        hide Tids, Command;
        FitsCons(c.tid.value, rest);
      } else {
        assert all == rest;
      }
    }
  }

  lemma {:induction false} FitsCons(tid: word, rest: seq<word>)
    ensures Fits([tid] + rest) <==> 1 <= tid < SHIFT && Fits(rest)
  {
    var all := [tid] + rest;
    if Fits(all) {
      assert all[0] == tid;
      assert forall i :: 0 <= i < |rest| ==> rest[i] == all[i + 1];
    }
  }

  class Client {
    var counter: word

    constructor ()
      ensures counter == 1
    {
      counter := 1;
    }

    /** Any of the compose functions, followed by mbim_send_command. */
    method Send(reaches: bool) returns (sent: Option<word>)
      modifies this
      ensures Sent(counter, sent) == Command(old(counter), reaches)
    {
      var tid := counter;
      counter := (counter + 1) % WORD;
      if !reaches {
        return None;
      }
      if tid == SHIFT {
        counter := 1;
        tid := counter;
        counter := counter + 1;
      }
      sent := Some(tid);
    }
  }
}
