/**
 The captive-portal packet hook (`wifidog-ng.c`): per-flow flags decide what passes, what is
 redirected to the portal and what is dropped.
 */
module WifidogSpec {
  import opened Common

  type word = bv32

  datatype Config = Config(enabled: bool, ifindex: int, ip: word, mask: word, broadcast: word, port: nat, sslPort: nat)

  datatype Protocol = Tcp | Udp | OtherProtocol

  /**
   A packet as the hook sees it: `flow` is its tracked connection if it has one, `opens`
   whether it is the connection's first direction and new, and the two set lookups and the
   outcome of setting up the translation are inputs.
   */
  datatype Packet = Packet(
    ifindex: int,
    unicast: bool,
    daddr: word,
    protocol: Protocol,
    dport: nat,
    flow: Option<nat>,
    opens: bool,
    clientAllowed: bool,
    destAllowed: bool,
    natAccepts: bool)

  datatype Flow = Flow(allowed: bool, hijacked: bool, natDone: bool)

  datatype Verdict = Accept | Drop

  datatype Redirect = Redirect(flow: nat, ip: word, port: nat)

  datatype Seen = Seen(packet: Packet, config: Config, verdict: Verdict)

  /** Tracked flows by number, numbers handed out so far, redirects set up, and every packet seen. */
  datatype Portal = Portal(config: Config, flows: map<nat, Flow>, next: nat, redirects: seq<Redirect>, seen: seq<Seen>)

  predicate OnSubnet(daddr: word, mask: word, broadcast: word) {
    daddr | !mask == broadcast
  }

  /** Packets the hook looks into. */
  predicate Guarded(c: Config, p: Packet) {
    c.enabled && p.ifindex == c.ifindex && p.unicast && !OnSubnet(p.daddr, c.mask, c.broadcast)
  }

  predicate Web(p: Packet) {
    p.protocol.Tcp? && (p.dport == 80 || p.dport == 443)
  }

  /** DNS and DHCP ports, and anything that is neither TCP nor UDP. */
  predicate Free(p: Packet) {
    p.protocol.OtherProtocol? || p.dport == 53 || p.dport == 67
  }

  predicate Permitted(p: Packet) {
    p.opens && (p.destAllowed || p.clientAllowed)
  }

  /** What the hook does with a packet of a live flow. */
  datatype Action = Pass | Kill | Allow | Refuse | Hijack(port: nat, verdict: Verdict)

  function Decide(c: Config, p: Packet, f: Flow): Action {
    if f.allowed then Pass
    else if f.hijacked then if p.clientAllowed then Kill else Pass
    else if Permitted(p) then Allow
    else if Free(p) then Allow
    else if !Web(p) then Refuse
    else if !p.opens || f.natDone then Refuse
    else Hijack(if p.dport == 80 then c.port else c.sslPort, if p.natAccepts then Accept else Drop)
  }

  function Log(s: Portal, p: Packet, v: Verdict): Portal {
    s.(seen := s.seen + [Seen(p, s.config, v)])
  }

  /** wifidog_hook. */
  function Hook(s: Portal, p: Packet): Portal {
    if !Guarded(s.config, p) || p.flow.None? || p.flow.value !in s.flows then Log(s, p, Accept)
    else
      var k := p.flow.value;
      var f := s.flows[k];
      match Decide(s.config, p, f)
      case Pass => Log(s, p, Accept)
      case Kill => Log(s, p, Accept).(flows := s.flows - {k})
      case Allow => Log(s, p, Accept).(flows := s.flows[k := f.(allowed := true)])
      case Refuse => Log(s, p, Drop)
      case Hijack(port, v) =>
        Log(s, p, v).(flows := s.flows[k := f.(hijacked := true, natDone := true)],
                      redirects := s.redirects + [Redirect(k, s.config.ip, port)])
  }

  datatype Event = Track | Expire(flow: nat) | OtherNat(flow: nat) | Configure(config: Config) | Arrive(p: Packet)

  /**
   A new connection is tracked, one times out, another rule translates one, the settings
   change, a packet comes in.
   */
  function Step(s: Portal, e: Event): Portal {
    match e
    case Track => s.(flows := s.flows[s.next := Flow(false, false, false)], next := s.next + 1)
    case Expire(k) => s.(flows := s.flows - {k})
    case OtherNat(k) => if k in s.flows then s.(flows := s.flows[k := s.flows[k].(natDone := true)]) else s
    case Configure(c) => s.(config := c)
    case Arrive(p) => Hook(s, p)
  }

  function Run(s: Portal, events: seq<Event>): Portal
    decreases |events|
  {
    if events == [] then s else Run(Step(s, events[0]), events[1..])
  }

  function Initial(c: Config): Portal {
    Portal(c, map[], 0, [], [])
  }
}

/** What holds of every sequence of packets. */
module WifidogProofs {
  import opened Common
  import opened WifidogSpec

  /** A packet of the flow that opens it, seen while the hook was looking. */
  ghost predicate Granted(seen: seq<Seen>, k: nat) {
    exists i :: 0 <= i < |seen| && Grants(seen[i], k)
  }

  ghost predicate Grants(x: Seen, k: nat) {
    x.packet.flow == Some(k) && Guarded(x.config, x.packet) && x.verdict.Accept?
      && (Permitted(x.packet) || Free(x.packet))
  }

  /** A web packet that opened the flow from a client not let in, and where the settings then sent it. */
  ghost predicate Caused(seen: seq<Seen>, r: Redirect) {
    exists i :: 0 <= i < |seen| && Causes(seen[i], r)
  }

  ghost predicate Causes(x: Seen, r: Redirect) {
    && x.packet.flow == Some(r.flow) && Guarded(x.config, x.packet) && Web(x.packet)
    && x.packet.opens && !x.packet.clientAllowed && !x.packet.destAllowed
    && r.ip == x.config.ip && r.port == if x.packet.dport == 80 then x.config.port else x.config.sslPort
  }

  ghost predicate FlowsRight(s: Portal) {
    forall k :: k in s.flows ==>
      && k < s.next
      && !(s.flows[k].allowed && s.flows[k].hijacked)
      && (s.flows[k].allowed ==> Granted(s.seen, k))
      && (s.flows[k].hijacked ==> s.flows[k].natDone && exists i :: 0 <= i < |s.redirects| && s.redirects[i].flow == k)
      && (!s.flows[k].hijacked ==> forall i :: 0 <= i < |s.redirects| ==> s.redirects[i].flow != k)
  }

  ghost predicate RedirectsRight(s: Portal) {
    && (forall i :: 0 <= i < |s.redirects| ==> s.redirects[i].flow < s.next && Caused(s.seen, s.redirects[i]))
    && (forall i, j :: 0 <= i < j < |s.redirects| ==> s.redirects[i].flow != s.redirects[j].flow)
  }

  ghost predicate Inv(s: Portal) {
    FlowsRight(s) && RedirectsRight(s)
  }

  lemma {:induction false} GrantedGrows(seen: seq<Seen>, x: Seen, k: nat)
    requires Granted(seen, k) || Grants(x, k)
    ensures Granted(seen + [x], k)
  {
    var more := seen + [x];
    if Granted(seen, k) {
      var i :| 0 <= i < |seen| && Grants(seen[i], k);
      assert Grants(more[i], k);
    } else {
      assert Grants(more[|seen|], k);
    }
  }

  lemma {:induction false} CausedGrows(seen: seq<Seen>, x: Seen, r: Redirect)
    requires Caused(seen, r) || Causes(x, r)
    ensures Caused(seen + [x], r)
  {
    var more := seen + [x];
    if Caused(seen, r) {
      var i :| 0 <= i < |seen| && Causes(seen[i], r);
      assert Causes(more[i], r);
    } else {
      assert Causes(more[|seen|], r);
    }
  }

  /** Seeing one more packet loses no reason. */
  lemma {:induction false} LogKeeps(s: Portal, p: Packet, v: Verdict)
    requires Inv(s)
    ensures Inv(Log(s, p, v))
  {
    var x := Seen(p, s.config, v);
    forall k | k in s.flows && s.flows[k].allowed ensures Granted(s.seen + [x], k) {
      GrantedGrows(s.seen, x, k);
    }
    forall i | 0 <= i < |s.redirects| ensures Caused(s.seen + [x], s.redirects[i]) {
      CausedGrows(s.seen, x, s.redirects[i]);
    }
  }

  lemma {:induction false} AllowKeeps(s: Portal, k: nat)
    requires Inv(s) && k in s.flows && !s.flows[k].hijacked && Granted(s.seen, k)
    ensures Inv(s.(flows := s.flows[k := s.flows[k].(allowed := true)]))
  {
    hide Granted, Caused;
  }

  lemma {:induction false} HijackKeeps(s: Portal, k: nat, r: Redirect)
    requires Inv(s) && k in s.flows && !s.flows[k].allowed && !s.flows[k].hijacked && r.flow == k && Caused(s.seen, r)
    ensures Inv(s.(flows := s.flows[k := s.flows[k].(hijacked := true, natDone := true)], redirects := s.redirects
      + [r]))
  {
    hide Granted, Caused;
    var t := s.(flows := s.flows[k := s.flows[k].(hijacked := true, natDone := true)], redirects := s.redirects + [r]);
    assert t.redirects[|s.redirects|] == r;
    forall j | j in t.flows && t.flows[j].hijacked
      ensures exists i :: 0 <= i < |t.redirects| && t.redirects[i].flow == j
    {
      if j != k {
        var i :| 0 <= i < |s.redirects| && s.redirects[i].flow == j;
        assert t.redirects[i] == s.redirects[i];
      }
    }
  }

  lemma {:induction false} RemoveKeeps(s: Portal, k: nat)
    requires Inv(s)
    ensures Inv(s.(flows := s.flows - {k}))
  {
    hide Granted, Caused;
  }

  lemma {:induction false} HookKeeps(s: Portal, p: Packet)
    requires Inv(s)
    ensures Inv(Hook(s, p))
  {
    hide OnSubnet, Inv, Granted, Caused;
    if Guarded(s.config, p) && p.flow.Some? && p.flow.value in s.flows {
      var k := p.flow.value;
      var f := s.flows[k];
      match Decide(s.config, p, f) {
        case Pass => LogKeeps(s, p, Accept);
        case Kill =>
          LogKeeps(s, p, Accept);
          RemoveKeeps(Log(s, p, Accept), k);
        case Refuse => LogKeeps(s, p, Drop);
        case Allow =>
          LogKeeps(s, p, Accept);
          GrantedGrows(s.seen, Seen(p, s.config, Accept), k);
          AllowKeeps(Log(s, p, Accept), k);
        case Hijack(port, v) =>
          LogKeeps(s, p, v);
          var r := Redirect(k, s.config.ip, port);
          CausedGrows(s.seen, Seen(p, s.config, v), r);
          HijackKeeps(Log(s, p, v), k, r);
      }
    } else {
      LogKeeps(s, p, Accept);
    }
  }

  lemma {:induction false} StepKeeps(s: Portal, e: Event)
    requires Inv(s)
    ensures Inv(Step(s, e))
  {
    hide Granted, Caused, Hook;
    if e.Arrive? {
      hide Inv;
      HookKeeps(s, e.p);
    }
  }

  lemma {:induction false} RunKeeps(s: Portal, events: seq<Event>)
    requires Inv(s)
    ensures Inv(Run(s, events))
    decreases |events|
  {
    hide Inv, Step;
    if events != [] {
      StepKeeps(s, events[0]);
      RunKeeps(Step(s, events[0]), events[1..]);
    }
  }

  /**
   Whatever packets come in and however flows and settings change: no flow is both let
   through and redirected, one is let through only after a packet that earns it, each is
   redirected at most once, and only by a web packet of a client not let in, to the portal's
   address and the port for its protocol at the time.
   */
  lemma {:induction false} EverySequence(c: Config, events: seq<Event>)
    ensures var s := Run(Initial(c), events);
      && (forall k :: k in s.flows ==> !(s.flows[k].allowed && s.flows[k].hijacked))
      && (forall k :: k in s.flows && s.flows[k].allowed ==> Granted(s.seen, k))
      && (forall i, j :: 0 <= i < j < |s.redirects| ==> s.redirects[i].flow != s.redirects[j].flow)
      && (forall i :: 0 <= i < |s.redirects| ==> Caused(s.seen, s.redirects[i]))
  {
    hide Granted, Caused;
    RunKeeps(Initial(c), events);
  }

  /** A flow once let through stays so until it is gone, and is never redirected after. */
  lemma {:induction false} AllowedStays(s: Portal, events: seq<Event>, k: nat)
    requires Inv(s) && k in s.flows && s.flows[k].allowed
    ensures var t := Run(s, events);
      && (k in t.flows ==> t.flows[k].allowed && !t.flows[k].hijacked)
      && (forall i :: 0 <= i < |t.redirects| ==> t.redirects[i].flow != k)
    decreases |events|
  {
    hide Granted, Caused;
    GoneOrAllowed(s, events, k);
  }

  ghost predicate Settled(s: Portal, k: nat) {
    && k < s.next && (k in s.flows ==> s.flows[k].allowed)
    && forall i :: 0 <= i < |s.redirects| ==> s.redirects[i].flow != k
  }

  lemma {:induction false} SettledStep(s: Portal, e: Event, k: nat)
    requires Settled(s, k)
    ensures Settled(Step(s, e), k)
  {
    hide Guarded;
  }

  lemma {:induction false} GoneOrAllowed(s: Portal, events: seq<Event>, k: nat)
    requires Inv(s) && Settled(s, k)
    ensures Inv(Run(s, events)) && Settled(Run(s, events), k)
    decreases |events|
  {
    hide Inv, Step, Settled;
    if events != [] {
      StepKeeps(s, events[0]);
      SettledStep(s, events[0], k);
      GoneOrAllowed(Step(s, events[0]), events[1..], k);
    }
  }

  /**
   Nothing slips by: a tracked packet the hook looks into passes only if its flow is let
   through or led to the portal.
   */
  lemma {:induction false} NothingSlipsBy(s: Portal, p: Packet)
    requires Guarded(s.config, p) && p.flow.Some? && p.flow.value in s.flows
    ensures var t := Hook(s, p); var k := p.flow.value;
      |t.seen| == |s.seen| + 1 && (t.seen[|s.seen|].verdict.Accept? ==>
        || (k in t.flows && (t.flows[k].allowed || t.flows[k].hijacked))
        || (k !in t.flows && s.flows[k].hijacked && p.clientAllowed))
  {
    hide Guarded;
  }

  // ---- Who is let through ----

  /** The hook looks into the packet, and the packet belongs to flow `k`, which is tracked. */
  ghost predicate Looked(s: Portal, p: Packet, k: nat) {
    && s.config.enabled && p.ifindex == s.config.ifindex && p.unicast
    && !OnSubnet(p.daddr, s.config.mask, s.config.broadcast)
    && p.flow == Some(k) && k in s.flows
  }

  /** The packet opens its connection for a listed client or to a listed address, or is DNS, DHCP, or not TCP or UDP. */
  ghost predicate Earns(p: Packet) {
    || (p.opens && (p.clientAllowed || p.destAllowed))
    || p.dport == 53 || p.dport == 67 || (p.protocol != Tcp && p.protocol != Udp)
  }

  /** The first packet of a web connection that nobody translated yet. */
  ghost predicate Redirectable(p: Packet, f: Flow) {
    p.opens && p.protocol == Tcp && (p.dport == 80 || p.dport == 443) && !f.natDone
  }

  ghost function Judged(s: Portal, p: Packet): Verdict {
    var seen := Hook(s, p).seen;
    if seen == [] then Drop else seen[|seen| - 1].verdict
  }

  /** A packet the hook does not look into, or of no tracked flow, is accepted and changes nothing. */
  lemma {:induction false} NotLooked(s: Portal, p: Packet)
    requires forall k :: !Looked(s, p, k)
    ensures Judged(s, p) == Accept && Hook(s, p) == s.(seen := Hook(s, p).seen)
  {
    hide OnSubnet;
    if p.flow.Some? { assert !Looked(s, p, p.flow.value); }
  }

  /**
   A flow that is not led to the portal is let through by a packet if and only if it was
   before or the packet earns it; otherwise the packet is dropped and nothing changes,
   unless it opens a web connection, which is then led to the portal by one redirect.
   */
  lemma {:induction false} LetThroughIff(s: Portal, p: Packet, k: nat)
    requires Looked(s, p, k) && !s.flows[k].hijacked
    ensures var t := Hook(s, p); var f := s.flows[k];
      && (k in t.flows && t.flows[k].allowed && Judged(s, p) == Accept <==> f.allowed || Earns(p))
      && (f.allowed || Earns(p) ==> t == s.(seen := t.seen, flows := s.flows[k := f.(allowed := true)]))
      && (!f.allowed && !Earns(p) && Redirectable(p, f) ==>
            && Judged(s, p) == (if p.natAccepts then Accept else Drop)
            && t.redirects == s.redirects
                 + [Redirect(k, s.config.ip, if p.dport == 80 then s.config.port else s.config.sslPort)]
            && t.flows == s.flows[k := Flow(false, true, true)])
      && (!f.allowed && !Earns(p) && !Redirectable(p, f) ==> Judged(s, p) == Drop && t == s.(seen := t.seen))
  {
    hide OnSubnet;
    var f := s.flows[k];
    if f.allowed {
      assert s.flows[k := f.(allowed := true)] == s.flows;
    }
  }

  /** A flow led to the portal keeps passing, and is given up when a packet of a listed client comes. */
  lemma {:induction false} HijackedPasses(s: Portal, p: Packet, k: nat)
    requires Looked(s, p, k) && s.flows[k].hijacked && !s.flows[k].allowed
    ensures Judged(s, p) == Accept
    ensures Hook(s, p) == s.(seen := Hook(s, p).seen, flows := if p.clientAllowed then s.flows - {k} else s.flows)
  {
    hide OnSubnet;
  }

  /** Packets come of flows that were tracked at some time. */
  predicate Enabled(s: Portal, e: Event) {
    e.Arrive? && e.p.flow.Some? ==> e.p.flow.value < s.next
  }

  predicate EnabledRun(s: Portal, events: seq<Event>)
    decreases |events|
  {
    events == [] || (Enabled(s, events[0]) && EnabledRun(Step(s, events[0]), events[1..]))
  }

  /** Nothing that belongs to the flow is dropped from here on. */
  ghost predicate Secure(s: Portal, k: nat) {
    k < s.next && (k in s.flows ==> s.flows[k].allowed || s.flows[k].hijacked)
  }

  ghost predicate NeverCut(seen: seq<Seen>) {
    forall i, j :: 0 <= i < j < |seen| && Earned(seen[i]) && seen[j].packet.flow == seen[i].packet.flow ==>
      seen[j].verdict.Accept?
  }

  /** A packet that earned its flow the passage. */
  ghost predicate Earned(x: Seen) {
    x.packet.flow.Some? && Grants(x, x.packet.flow.value)
  }

  ghost predicate EarnedSecure(s: Portal) {
    forall i :: 0 <= i < |s.seen| && Earned(s.seen[i]) ==> Secure(s, s.seen[i].packet.flow.value)
  }

  lemma {:induction false} SecureStep(s: Portal, e: Event, k: nat)
    requires Secure(s, k)
    ensures Secure(Step(s, e), k)
  {
    hide OnSubnet;
  }

  lemma {:induction false} SecureJudged(s: Portal, p: Packet, k: nat)
    requires p.flow == Some(k) && k < s.next
    ensures |Hook(s, p).seen| == |s.seen| + 1 && Hook(s, p).seen[..|s.seen|] == s.seen
    ensures Secure(s, k) ==> Hook(s, p).seen[|s.seen|].verdict.Accept?
    ensures Earned(Hook(s, p).seen[|s.seen|]) ==> Secure(Hook(s, p), k)
  {
    hide OnSubnet;
  }

  lemma {:induction false} NeverCutStep(s: Portal, e: Event)
    requires NeverCut(s.seen) && EarnedSecure(s) && Enabled(s, e)
    ensures NeverCut(Step(s, e).seen) && EarnedSecure(Step(s, e))
  {
    var t := Step(s, e);
    forall i | 0 <= i < |s.seen| && Earned(s.seen[i]) ensures Secure(t, s.seen[i].packet.flow.value) {
      SecureStep(s, e, s.seen[i].packet.flow.value);
    }
    if e.Arrive? {
      SeenOneMore(s, e.p);
      if e.p.flow.Some? { SecureJudged(s, e.p, e.p.flow.value); }
    }
    hide Hook, Earned, Secure;
    assert forall i :: 0 <= i < |s.seen| ==> t.seen[i] == s.seen[i];
  }

  lemma {:induction false} SeenOneMore(s: Portal, p: Packet)
    ensures |Hook(s, p).seen| == |s.seen| + 1 && Hook(s, p).seen[..|s.seen|] == s.seen
    ensures Hook(s, p).seen[|s.seen|].packet == p
  {
    hide OnSubnet;
  }

  lemma {:induction false} NeverCutRun(s: Portal, events: seq<Event>)
    requires NeverCut(s.seen) && EarnedSecure(s) && EnabledRun(s, events)
    ensures NeverCut(Run(s, events).seen)
    decreases |events|
  {
    hide NeverCut, EarnedSecure, Step, Enabled;
    if events != [] {
      NeverCutStep(s, events[0]);
      NeverCutRun(Step(s, events[0]), events[1..]);
    }
  }

  /** Over every sequence: once a packet earned its flow the passage, no later packet of that flow is dropped. */
  lemma {:induction false} EarnedForGood(c: Config, events: seq<Event>)
    requires EnabledRun(Initial(c), events)
    ensures NeverCut(Run(Initial(c), events).seen)
  {
    NeverCutRun(Initial(c), events);
  }

  /** The settings in force after a run: the last ones given in it. */
  ghost function LastGiven(c: Config, events: seq<Event>): Config {
    if events == [] then c
    else if events[|events| - 1].Configure? then events[|events| - 1].config
    else LastGiven(c, events[..|events| - 1])
  }

  lemma {:induction false} LastGivenCons(c: Config, e: Event, rest: seq<Event>)
    ensures LastGiven(c, [e] + rest) == LastGiven(if e.Configure? then e.config else c, rest)
    decreases |rest|
  {
    var all := [e] + rest;
    if rest == [] {
      assert all == [e] && all[..0] == [];
    } else {
      assert all[|all| - 1] == rest[|rest| - 1] && all[..|all| - 1] == [e] + rest[..|rest| - 1];
      LastGivenCons(c, e, rest[..|rest| - 1]);
    }
  }

  /** Every packet is judged by the settings given last. */
  lemma {:induction false} SettingsInForce(s: Portal, events: seq<Event>)
    ensures Run(s, events).config == LastGiven(s.config, events)
    decreases |events|
  {
    if events != [] {
      hide LastGiven, OnSubnet;
      assert events == [events[0]] + events[1..];
      LastGivenCons(s.config, events[0], events[1..]);
      SettingsInForce(Step(s, events[0]), events[1..]);
    }
  }

  /** With the usual broadcast address the test by broadcast is the test by network. */
  lemma {:induction false} SubnetTest(daddr: word, ip: word, mask: word)
    ensures OnSubnet(daddr, mask, (ip & mask) | !mask) <==> daddr & mask == ip & mask
  {
    if daddr & mask == ip & mask {
      OrBack(daddr, ip, mask);
    } else if OnSubnet(daddr, mask, (ip & mask) | !mask) {
      AndBack(daddr, ip, mask);
    }
  }

  lemma {:induction false} OrBack(daddr: word, ip: word, mask: word)
    requires daddr & mask == ip & mask
    ensures daddr | !mask == (ip & mask) | !mask
  {
  }

  lemma {:induction false} AndBack(daddr: word, ip: word, mask: word)
    requires daddr | !mask == (ip & mask) | !mask
    ensures daddr & mask == ip & mask
  {
  }
}

/** The hook over its settings and tracked connections. */
module Wifidog {
  import opened WifidogSpec

  class Netns {
    var config: Config
    var flows: map<nat, Flow>
    var next: nat
    ghost var redirects: seq<Redirect>
    ghost var seen: seq<Seen>

    ghost function State(): Portal
      reads this
    {
      Portal(config, flows, next, redirects, seen)
    }

    constructor (c: Config)
      ensures State() == Initial(c)
    {
      config, flows, next, redirects, seen := c, map[], 0, [], [];
    }

    method Arrived(p: Packet) returns (verdict: Verdict)
      modifies this
      ensures State() == Hook(old(State()), p)
      ensures seen == old(seen) + [Seen(p, old(config), verdict)]
    {
      verdict := Filter(p);
      seen := seen + [Seen(p, config, verdict)];
    }

    method Filter(p: Packet) returns (verdict: Verdict)
      modifies `flows, `redirects
      ensures Log(State(), p, verdict) == Hook(old(State()), p)
    {
      hide OnSubnet;
      if !config.enabled {
        return Accept;
      }
      if p.ifindex != config.ifindex {
        return Accept;
      }
      if !p.unicast {
        return Accept;
      }
      if OnSubnet(p.daddr, config.mask, config.broadcast) {
        return Accept;
      }
      if p.flow.None? || p.flow.value !in flows {
        return Accept;
      }
      var k := p.flow.value;
      if flows[k].allowed {
        return Accept;
      }
      if flows[k].hijacked {
        if p.clientAllowed {
          flows := flows - {k};
        }
        return Accept;
      } else if p.opens && (p.destAllowed || p.clientAllowed) {
        flows := flows[k := flows[k].(allowed := true)];
        return Accept;
      }
      match p.protocol {
        case Tcp =>
          if p.dport == 53 || p.dport == 67 {
            flows := flows[k := flows[k].(allowed := true)];
            return Accept;
          }
          if !(p.dport == 80 || p.dport == 443) {
            return Drop;
          }
        case Udp =>
          if p.dport == 53 || p.dport == 67 {
            flows := flows[k := flows[k].(allowed := true)];
            return Accept;
          }
          return Drop;
        case OtherProtocol =>
          flows := flows[k := flows[k].(allowed := true)];
          return Accept;
      }
      if !p.opens || flows[k].natDone {
        return Drop;
      }
      verdict := SetupNat(k, p);
    }

    /** wd_nat_setup_info. */
    method SetupNat(k: nat, p: Packet) returns (verdict: Verdict)
      requires k in flows
      modifies `flows, `redirects
      ensures flows == old(flows)[k := old(flows)[k].(hijacked := true, natDone := true)]
      ensures redirects == old(redirects)
        + [Redirect(k, config.ip, if p.dport == 80 then config.port else config.sslPort)]
      ensures verdict == if p.natAccepts then Accept else Drop
    {
      var port := if p.dport == 80 then config.port else config.sslPort;
      flows := flows[k := flows[k].(hijacked := true, natDone := true)];
      redirects := redirects + [Redirect(k, config.ip, port)];
      verdict := if p.natAccepts then Accept else Drop;
    }

    /** One event of the network namespace; the tracker's own events change only its table. */
    method Dispatch(e: Event)
      modifies this
      ensures State() == Step(old(State()), e)
    {
      hide Hook;
      match e {
        case Track =>
          flows := flows[next := Flow(false, false, false)];
          next := next + 1;
        case Expire(k) => flows := flows - {k};
        case OtherNat(k) =>
          if k in flows {
            flows := flows[k := flows[k].(natDone := true)];
          }
        case Configure(c) => config := c;
        case Arrive(p) => var _ := Arrived(p);
      }
    }
  }
}

/** The hook over a whole sequence of events. */
module WifidogLoop {
  import opened WifidogSpec
  import opened WifidogProofs
  import opened Wifidog

  /** Whatever comes in: the flows and redirects the hook leaves have the properties of every run of the model. */
  method Serve(ns: Netns, c: Config, events: seq<Event>)
    requires ns.State() == Initial(c)
    modifies ns
    ensures ns.State() == Run(Initial(c), events)
    ensures forall k :: k in ns.flows ==> !(ns.flows[k].allowed && ns.flows[k].hijacked)
    ensures forall k :: k in ns.flows && ns.flows[k].allowed ==> Granted(ns.seen, k)
    ensures forall i, j :: 0 <= i < j < |ns.redirects| ==> ns.redirects[i].flow != ns.redirects[j].flow
    ensures forall i :: 0 <= i < |ns.redirects| ==> Caused(ns.seen, ns.redirects[i])
    ensures EnabledRun(Initial(c), events) ==> NeverCut(ns.seen)
  {
    hide Step, Granted, Caused, NeverCut, EnabledRun;
    var i := 0;
    assert events[0..] == events;
    while i < |events|
      invariant 0 <= i <= |events|
      invariant Run(ns.State(), events[i..]) == Run(Initial(c), events)
    {
      assert events[i..][0] == events[i] && events[i..][1..] == events[i + 1..];
      ns.Dispatch(events[i]);
      i := i + 1;
    }
    assert events[i..] == [];
    EverySequence(c, events);
    if EnabledRun(Initial(c), events) { EarnedForGood(c, events); }
  }
}
