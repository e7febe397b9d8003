/**
 What the dial engine concludes: when a family counts as up after any event, what a CHECK
 makes of the modem's report, what is asked of the modem in a START, what moves the hold,
 and when the session ends.
 */
module DialChecks {
  import opened Common
  import opened DialSpec
  import opened DialProofs

  // ---- CHECK ----

  /** What the modem must report for IPv4 to stay up: queried, connected, and at an address that is known and agrees. */
  ghost predicate Confirmed4(s: Session, c: CheckReplies) {
    && s.profile.enable4 && s.v4 != DISCONNECTED && c.err4 == 0 && c.status4 == CONNECTED
    && (s.profile.address != 0 || c.ip4.err == 0) && c.addressOk
  }

  /** IPv6 has no call of its own. */
  ghost predicate Tied(s: Session, cfg: Config) {
    s.profile.enable4 && cfg.ops != Qmi
  }

  ghost predicate Confirmed6(s: Session, cfg: Config, c: CheckReplies) {
    && s.profile.enable6 && s.v6 != DISCONNECTED
    && if Tied(s, cfg) then Confirmed4(s, c) else if c.err6 == 0 then c.status6 == CONNECTED else s.v6 == CONNECTED
  }

  /** A family that is enabled in `s` is down in `after`. */
  ghost predicate DownNow(s: Session, after: Session) {
    (s.profile.enable4 && after.v4 == DISCONNECTED) || (s.profile.enable6 && after.v6 == DISCONNECTED)
  }

  /** The modem reports a call of the family as gone, or cannot be asked about IPv4. */
  ghost predicate ReportedDown(s: Session, cfg: Config, c: CheckReplies) {
    || (s.profile.enable4 && (c.err4 != 0 || c.status4 == DISCONNECTED))
    || (s.profile.enable6 && !Tied(s, cfg) && c.err6 == 0 && c.status6 == DISCONNECTED)
  }

  lemma {:induction false} Check4Concludes(s: Session, c: CheckReplies)
    ensures var after := Check4(s, c);
      && after == s.(v4 := after.v4, profile := s.profile.(address := after.profile.address))
      && (after.v4 == CONNECTED <==> Confirmed4(s, c))
      && (after.v4 == CONNECTED ==> after.profile.address == c.checked)
      && (after.v4 != CONNECTED && after.v4 != DISCONNECTED ==> after.v4 == c.status4)
      && (!s.profile.enable4 || s.v4 == DISCONNECTED || c.err4 != 0 || c.status4 == DISCONNECTED ==>
            after.v4 == DISCONNECTED)
  {
  }

  lemma {:induction false} Check6Concludes(s: Session, cfg: Config, c: CheckReplies)
    ensures var after := Check6(s, cfg, c);
      && after == s.(v6 := after.v6)
      && (!s.profile.enable6 || s.v6 == DISCONNECTED ==> after.v6 == DISCONNECTED)
      && (s.profile.enable6 && s.v6 != DISCONNECTED ==>
            after.v6 == if Tied(s, cfg) then s.v4 else if c.err6 == 0 then c.status6 else s.v6)
  {
  }

  lemma {:induction false} LinkConcludes(s: Session)
    ensures var after := CheckLink(s);
      && after == s.(link := after.link, profile := s.profile.(address := after.profile.address))
      && (s.v4 == CONNECTED ==> after.profile.address == s.profile.address)
      && (s.v4 == CONNECTED && s.v6 == CONNECTED ==> after.link == 80)
      && (s.v4 == CONNECTED && s.v6 != CONNECTED ==> after.link == 16)
      && (s.v4 != CONNECTED && s.v6 == CONNECTED ==> after.link == 64)
      && (s.v4 == DISCONNECTED && s.v6 == DISCONNECTED ==> after.link == 0)
      && (s.v4 != CONNECTED && after.link != s.link ==> after.profile.address == 0)
  {
  }

  /**
   After a CHECK IPv4 is up if and only if the modem confirmed it, IPv6 is as the modem
   says or as IPv4 where it has no call of its own, the link has bit 4 for IPv4 and bit 6
   for IPv6, and a START is queued if and only if an enabled family is down.
   */
  lemma {:induction false} CheckConcludes(s: Session, cfg: Config, c: CheckReplies)
    ensures var after := OnCheck(s, cfg, c);
      && (after.v4 == CONNECTED <==> Confirmed4(s, c))
      && (after.v4 == CONNECTED ==> after.profile.address == c.checked)
      && (after.v6 == CONNECTED <==> Confirmed6(s, cfg, c))
      && (after.v4 == CONNECTED || after.v6 == CONNECTED ==>
            after.link == (if after.v4 == CONNECTED then 16 else 0) + if after.v6 == CONNECTED then 64 else 0)
      && (after.v4 == DISCONNECTED && after.v6 == DISCONNECTED ==> after.link == 0)
      && (after.v4 != CONNECTED && after.link != s.link ==> after.profile.address == 0)
      && after.ps == (if s.ps == 1 then 1 else c.ps)
      && after.signals == s.signals + (if DownNow(s, after) then [Start] else [])
      && (ReportedDown(s, cfg, c) ==> after.signals == s.signals + [Start])
      && after.alarm == s.alarm && after.exited == s.exited
  {
    hide Check4, Check6, CheckLink, Confirmed4;
    var s0 := if s.ps != 1 then s.(ps := c.ps) else s;
    assert Confirmed4(s0, c) == Confirmed4(s, c) by { SameConfirmed(s, s0, c); }
    var s1 := Check4(s0, c);
    Check4Concludes(s0, c);
    var s2 := Check6(s1, cfg, c);
    Check6Concludes(s1, cfg, c);
    LinkConcludes(s2);
    assert s.signals + [] == s.signals;
  }

  lemma {:induction false} SameConfirmed(s: Session, s0: Session, c: CheckReplies)
    requires s0.profile == s.profile && s0.v4 == s.v4
    ensures Confirmed4(s0, c) == Confirmed4(s, c)
  {
  }

  // ---- Requests ----

  /**
   With the QMI requests a conflict is recorded exactly for the end reasons 6/55, 2/209 and
   2/211 of a refused call.
   */
  lemma {:induction false} ConflictRecorded(before: nat, reply: SetupReply, code: nat)
    requires code != 0
    ensures SetupOutcome(Qmi, before, reply).conflict == code <==>
      && reply.Answer? && (reply.result != 0 || reply.error != 0)
      && (reply.reason == Some((6, 55)) || reply.reason == Some((2, 209)) || reply.reason == Some((2, 211)))
      && code == reply.reason.value.1
    ensures SetupOutcome(Qmi, before, reply).err == if reply.NoAnswer? then reply.code else reply.error
  {
  }

  /** The other request sets leave the conflict code as it was, and report the modem's own code. */
  lemma {:induction false} ConflictLeft(ops: Ops, before: nat, reply: SetupReply)
    requires ops != Qmi
    ensures SetupOutcome(ops, before, reply) == Outcome(if reply.NoAnswer? then reply.code else reply.error, before)
  {
  }

  ghost predicate Credentials(p: Profile) {
    p.user.Some? && p.user.value != "" && p.pd.Some? && p.pd.value != ""
  }

  /** The second IPv4 request: the first was refused by the network, and there are credentials to try the other way. */
  ghost predicate TriesOther(p: Profile, reqs: seq<Attempt>) {
    reqs != [] && reqs[0].err > 0 && Credentials(p)
  }

  /** The request on the profile alone: the last one ended in a conflict that an APN may be the cause of. */
  ghost predicate TriesBare(p: Profile, cfg: Config, last: Attempt) {
    last.err != 0 && last.conflict != 0 && p.apn.Some? && p.profileIndex != 0 && cfg.exitOnConflict
  }

  /** The IPv4 requests of one START, first to last. */
  ghost predicate InTurn(p: Profile, cfg: Config, reqs: seq<Attempt>) {
    && reqs != [] && reqs[0].apn == p.apn && reqs[0].auth == p.auth
    && var usual := if TriesOther(p, reqs) then 2 else 1;
    && usual <= |reqs|
    && (usual == 2 ==> reqs[1].apn == p.apn && reqs[1].auth == if p.auth == 1 then 2 else 1)
    && |reqs| == usual + (if TriesBare(p, cfg, reqs[usual - 1]) then 1 else 0)
    && (|reqs| == usual + 1 ==> reqs[usual].apn == None && reqs[usual].auth == p.auth)
  }

  lemma {:induction false} AskInTurn(s: Session, cfg: Config, r: StartReplies, now: nat)
    ensures var (s1, e1) := Ask4(s, cfg, r, now);
      && s.attempts < s1.attempts
      && var reqs := s1.attempts[|s.attempts|..];
      && reqs[0].apn == s.profile.apn && reqs[0].auth == s.profile.auth
      && |reqs| == (if TriesOther(s.profile, reqs) then 2 else 1)
      && (|reqs| == 2 ==> reqs[1].apn == s.profile.apn && reqs[1].auth == OtherAuth(s.profile.auth))
      && reqs[|reqs| - 1].err == e1 && reqs[|reqs| - 1].conflict == s1.conflict
      && (e1 != 0 ==> s1.profile == s.profile)
      && s1.profile == s.profile.(auth := s1.profile.auth)
  {
    hide SetupOutcome;
  }

  /** IPv4 is asked for with the configured APN and auth, then with the other auth, then on the profile alone. */
  lemma {:induction false} RequestsInTurn(s: Session, cfg: Config, r: StartReplies, now: nat)
    requires s.profile.enable4 && s.v4 != CONNECTED
    ensures var after := Dial4(s, cfg, r, now);
      s.attempts <= after.attempts && InTurn(s.profile, cfg, after.attempts[|s.attempts|..])
  {
    hide Ask4, SetupOutcome;
    var (s1, e1) := Ask4(s, cfg, r, now);
    AskInTurn(s, cfg, r, now);
    var reqs := s1.attempts[|s.attempts|..];
    var after := Dial4(s, cfg, r, now);
    var all := after.attempts[|s.attempts|..];
    assert all[..|reqs|] == reqs;
    assert forall i :: 0 <= i < |reqs| ==> all[i] == reqs[i];
  }

  /** The address asked for after a granted call is kept, and so is the auth mode that got it. */
  lemma {:induction false} GrantedKept(s: Session, cfg: Config, r: StartReplies, now: nat)
    requires s.profile.enable4 && s.v4 != CONNECTED
    ensures var after := Dial4(s, cfg, r, now);
      s.attempts < after.attempts &&
      var reqs := after.attempts[|s.attempts|..];
      && after.profile.address == (if reqs[|reqs| - 1].err == 0 then r.ip4.address else s.profile.address)
      && after.profile.auth ==
           (if |reqs| > 1 && TriesOther(s.profile, reqs) && reqs[1].err == 0 then if s.profile.auth == 1 then 2 else 1
            else s.profile.auth)
  {
    hide SetupOutcome;
    var after := Dial4(s, cfg, r, now);
    assert after.attempts[|s.attempts|..][0] == after.attempts[|s.attempts|];
  }

  // ---- When a family is up ----

  /** After dialling IPv6: it was up, its own call was made and got an address, or it follows IPv4. */
  lemma {:induction false} Dial6Concludes(s: Session, cfg: Config, r: StartReplies, now: nat)
    ensures var after := Dial6(s, cfg, r, now);
      after.v6 == CONNECTED <==>
        || s.v6 == CONNECTED
        || (s.profile.enable6 && Tied(s, cfg) && s.v4 == CONNECTED)
        || (s.profile.enable6 && !Tied(s, cfg) && r.ip6 == 0
            && |after.attempts| == |s.attempts| + 1 && after.attempts[|s.attempts|].err == 0)
    ensures var after := Dial6(s, cfg, r, now);
      |after.attempts| == |s.attempts| + 1 <==> s.profile.enable6 && s.v6 != CONNECTED && !Tied(s, cfg)
    ensures var after := Dial6(s, cfg, r, now);
      |after.attempts| == |s.attempts| + 1 ==>
        after.attempts[|s.attempts|].apn == s.profile.apn && after.attempts[|s.attempts|].auth == s.profile.auth
  {
    hide SetupOutcome;
  }

  /** IPv6 is given up exactly when its request is refused for a conflict while IPv4 is up and that is to end it. */
  lemma {:induction false} GivenUpIff(s: Session, cfg: Config, r: StartReplies, now: nat)
    requires s.profile.enable6 && s.v6 != CONNECTED && !Tied(s, cfg)
    ensures var after := Dial6(s, cfg, r, now);
      |after.attempts| == |s.attempts| + 1 &&
      var req := after.attempts[|s.attempts|];
      && (!after.profile.enable6 <==>
            req.err != 0 && req.conflict != 0 && s.profile.enable4 && s.v4 == CONNECTED && cfg.exitOnConflict)
      && after.conflict == (if after.profile.enable6 then req.conflict else 0)
  {
    hide SetupOutcome;
  }

  /** IPv6 goes first exactly if both families are asked for over QMI and the switch is set. */
  lemma {:induction false} SixFirstIff(s: Session, cfg: Config, r: StartReplies, now: nat)
    returns (fours: seq<Attempt>, sixes: seq<Attempt>)
    ensures Made(s, DialBoth(s, cfg, r, now)) ==
      if s.profile.enable4 && s.profile.enable6 && cfg.ops == Qmi && cfg.v6First then sixes + fours else fours + sixes
    ensures forall i :: 0 <= i < |fours| ==> fours[i].family == V4
    ensures forall i :: 0 <= i < |sixes| ==> sixes[i].family == V6
  {
    hide DialBoth;
    fours, sixes := DialledOnce(s, cfg, r, now);
  }

  /** Without IPv4, the session ends for a conflict exactly when the one IPv6 request met one and IPv6 stays down. */
  lemma {:induction false} SixConflictExitIff(s: Session, cfg: Config, e: Event)
    requires Enabled(s, e) && Dialled(s, e) && !s.profile.enable4 && s.profile.enable6 && s.v6 != CONNECTED
    ensures Step(s, cfg, e).exited <==>
      && cfg.exitOnConflict && AtDial(s, cfg, e).v6 == DISCONNECTED
      && LastOf(Made(s, AtDial(s, cfg, e)), V6).Some? && LastOf(Made(s, AtDial(s, cfg, e)), V6).value.conflict != 0
  {
    var s0 := s.(signals := s.signals[1..], alarm := None, conflict4 := 0);
    var r, now := e.replies, e.clocks.test;
    var after := AtDial(s, cfg, e);
    OnlySix(s0, cfg, r, now);
    assert after == Dial6(s0, cfg, r, now);
    Dial6Concludes(s0, cfg, r, now);
    Dial6Verdict(s0, cfg, r, now);
    Dial6KeepsRest(s0, cfg, r, now);
    GivenUpIff(s0, cfg, r, now);
    hide Dial6, DialBoth, HoldSeconds, LastOf;
    LastSix(s.attempts, s.attempts, after.attempts, false);
  }

  lemma {:induction false} OnlySix(s: Session, cfg: Config, r: StartReplies, now: nat)
    requires !s.profile.enable4 && s.conflict4 == 0
    ensures DialBoth(s, cfg, r, now) == Dial6(s, cfg, r, now)
  {
    hide Dial6;
    assert s.(conflict4 := 0) == s;
  }

  /** The event takes a CHECK. */
  ghost predicate TakesCheck(s: Session, e: Event) {
    e.Take? && s.signals != [] && s.signals[0] == Check
  }

  /**
   IPv4 is up after an event if and only if a CHECK just confirmed it; or it was up, or the
   last IPv4 request of a START was granted and brought an address, and no CHECK was made.
   */
  lemma {:induction false} Up4Iff(s: Session, cfg: Config, e: Event)
    requires Enabled(s, e)
    ensures Step(s, cfg, e).v4 == CONNECTED <==>
      if TakesCheck(s, e) then Confirmed4(s, e.checks)
      else || s.v4 == CONNECTED
           || (Dialled(s, e) && s.profile.enable4 && e.replies.ip4.err == 0
               && LastOf(Made(s, AtDial(s, cfg, e)), V4).Some? && LastOf(Made(s, AtDial(s, cfg, e)), V4).value.err == 0)
  {
    hide OnCheck, DialBoth, HoldSeconds, RearmSeconds, Made, LastOf, Confirmed4;
    if TakesCheck(s, e) {
      var s0 := s.(signals := s.signals[1..], alarm := None);
      CheckConcludes(s0, cfg, e.checks);
      assert Confirmed4(s0, e.checks) == Confirmed4(s, e.checks) by { SameConfirmed(s, s0, e.checks); }
    } else if Dialled(s, e) {
      AfterDialKeeps4(AtDial(s, cfg, e), cfg, e.clocks);
      Dialled4(s, cfg, e);
    }
  }

  lemma {:induction false} AfterDialKeeps4(s: Session, cfg: Config, clk: StartClocks)
    ensures AfterDial(s, cfg, clk).v4 == s.v4 && AfterDial(s, cfg, clk).v6 == s.v6
  {
  }

  lemma {:induction false} Dialled4(s: Session, cfg: Config, e: Event)
    requires Dialled(s, e)
    ensures AtDial(s, cfg, e).v4 == CONNECTED <==>
      || s.v4 == CONNECTED
      || (s.profile.enable4 && e.replies.ip4.err == 0
          && LastOf(Made(s, AtDial(s, cfg, e)), V4).Some? && LastOf(Made(s, AtDial(s, cfg, e)), V4).value.err == 0)
  {
    hide DialBoth, LastOf;
    var s0 := s.(signals := s.signals[1..], alarm := None);
    var fours, sixes := DialledOnce(s0, cfg, e.replies, e.clocks.test);
    LastOfBlock(fours, sixes, V4);
    assert Made(s, AtDial(s, cfg, e)) == Made(s0, DialBoth(s0, cfg, e.replies, e.clocks.test));
    hide Made;
    if fours == [] { DialKeeps4(s0, cfg, e.replies, e.clocks.test); }
  }

  lemma {:induction false} DialKeeps4(s: Session, cfg: Config, r: StartReplies, now: nat)
    requires !s.profile.enable4 || s.v4 == CONNECTED
    ensures DialBoth(s, cfg, r, now).v4 == s.v4
  {
    hide Tried, Ask4, AskBare4;
    var s0 := s.(conflict4 := 0);
    Dial6KeepsRest(s0, cfg, r, now);
    Dial6Verdict(s0, cfg, r, now);
    Dial6KeepsRest(Dial4(s0, cfg, r, now), cfg, r, now);
  }

  /** IPv6 got up in dialling: it was up, follows IPv4, or was granted in the one request made for it. */
  ghost predicate Got6(s: Session, cfg: Config, r: StartReplies, sixes: seq<Attempt>, after: Session) {
    || s.v6 == CONNECTED
    || (s.profile.enable6 && Tied(s, cfg) && after.v4 == CONNECTED)
    || (s.profile.enable6 && !Tied(s, cfg) && r.ip6 == 0 && sixes != [] && sixes[|sixes| - 1].err == 0)
  }

  lemma {:induction false} SixFirst(s: Session, cfg: Config, r: StartReplies, now: nat)
    requires s.conflict4 == 0 && V6First(s, cfg)
    ensures var t := Dial6(s, cfg, r, now); var after := Dial4(t, cfg, r, now);
      s.attempts <= t.attempts <= after.attempts &&
      var sixes, fours := t.attempts[|s.attempts|..], after.attempts[|t.attempts|..];
      && (forall i :: 0 <= i < |fours| ==> fours[i].family == V4)
      && (forall i :: 0 <= i < |sixes| ==> sixes[i].family == V6)
      && (after.v6 == CONNECTED <==> Got6(s, cfg, r, sixes, after))
  {
    hide Dial4, Dial6;
    var t := Dial6(s, cfg, r, now);
    Dial6KeepsRest(s, cfg, r, now);
    Dial6Concludes(s, cfg, r, now);
    Dial6Verdict(s, cfg, r, now);
    Dial4KeepsRest(t, cfg, r, now);
    Dial4Verdict(t, cfg, r, now);
  }

  lemma {:induction false} FourFirst(s: Session, cfg: Config, r: StartReplies, now: nat)
    requires s.conflict4 == 0
    ensures var t := Dial4(s, cfg, r, now); var after := Dial6(t, cfg, r, now);
      s.attempts <= t.attempts <= after.attempts &&
      var fours, sixes := t.attempts[|s.attempts|..], after.attempts[|t.attempts|..];
      && (forall i :: 0 <= i < |fours| ==> fours[i].family == V4)
      && (forall i :: 0 <= i < |sixes| ==> sixes[i].family == V6)
      && (after.v6 == CONNECTED <==> Got6(s, cfg, r, sixes, after))
  {
    hide Dial4, Dial6;
    var t := Dial4(s, cfg, r, now);
    Dial4KeepsRest(s, cfg, r, now);
    Dial4Verdict(s, cfg, r, now);
    Dial4Enables(s, cfg, r, now);
    Dial6KeepsRest(t, cfg, r, now);
    Dial6Concludes(t, cfg, r, now);
    Dial6Verdict(t, cfg, r, now);
  }

  /** The IPv6 part of a START, whichever family goes first. */
  lemma {:induction false} Dialled6(s: Session, cfg: Config, e: Event)
    requires Dialled(s, e)
    ensures AtDial(s, cfg, e).v6 == CONNECTED <==>
      || s.v6 == CONNECTED
      || (s.profile.enable6 && Tied(s, cfg) && AtDial(s, cfg, e).v4 == CONNECTED)
      || (s.profile.enable6 && !Tied(s, cfg) && e.replies.ip6 == 0
          && LastOf(Made(s, AtDial(s, cfg, e)), V6).Some? && LastOf(Made(s, AtDial(s, cfg, e)), V6).value.err == 0)
  {
    var s0 := s.(signals := s.signals[1..], alarm := None, conflict4 := 0);
    var r, now := e.replies, e.clocks.test;
    var after := AtDial(s, cfg, e);
    hide LastOf, Dial4, Dial6;
    if V6First(s, cfg) {
      assert after == Dial4(Dial6(s0, cfg, r, now), cfg, r, now);
      DialledSixFirst(s0, cfg, r, now);
    } else {
      assert after == Dial6(Dial4(s0, cfg, r, now), cfg, r, now);
      DialledFourFirst(s0, cfg, r, now);
    }
    hide DialBoth, AtDial;
  }

  /** IPv6 got up, told by the last IPv6 request made. */
  ghost predicate GotBy(s: Session, cfg: Config, r: StartReplies, after: Session) {
    var last := LastOf(Made(s, after), V6);
    || s.v6 == CONNECTED
    || (s.profile.enable6 && Tied(s, cfg) && after.v4 == CONNECTED)
    || (s.profile.enable6 && !Tied(s, cfg) && r.ip6 == 0 && last.Some? && last.value.err == 0)
  }

  lemma {:induction false} DialledSixFirst(s: Session, cfg: Config, r: StartReplies, now: nat)
    requires s.conflict4 == 0 && V6First(s, cfg)
    ensures var after := Dial4(Dial6(s, cfg, r, now), cfg, r, now); after.v6 == CONNECTED <==> GotBy(s, cfg, r, after)
  {
    hide LastOf, Dial4, Dial6;
    var t := Dial6(s, cfg, r, now);
    SixFirst(s, cfg, r, now);
    LastSix(s.attempts, t.attempts, Dial4(t, cfg, r, now).attempts, true);
  }

  lemma {:induction false} DialledFourFirst(s: Session, cfg: Config, r: StartReplies, now: nat)
    requires s.conflict4 == 0
    ensures var after := Dial6(Dial4(s, cfg, r, now), cfg, r, now); after.v6 == CONNECTED <==> GotBy(s, cfg, r, after)
  {
    hide LastOf, Dial4, Dial6;
    var t := Dial4(s, cfg, r, now);
    FourFirst(s, cfg, r, now);
    LastSix(s.attempts, t.attempts, Dial6(t, cfg, r, now).attempts, false);
  }

  lemma {:induction false} LastSix(a: seq<Attempt>, b: seq<Attempt>, c: seq<Attempt>, sixFirst: bool)
    requires a <= b <= c
    requires var sixes, fours := if sixFirst then b[|a|..] else c[|b|..], if sixFirst then c[|b|..] else b[|a|..];
      && (forall i :: 0 <= i < |fours| ==> fours[i].family == V4)
      && (forall i :: 0 <= i < |sixes| ==> sixes[i].family == V6)
    ensures var sixes := if sixFirst then b[|a|..] else c[|b|..];
      LastOf(c[|a|..], V6) == if sixes == [] then None else Some(sixes[|sixes| - 1])
  {
    hide LastOf;
    Sliced(a, b, c);
    if sixFirst { LastOfBlock(b[|a|..], c[|b|..], V6); } else { LastOfBlock(c[|b|..], b[|a|..], V6); }
  }

  lemma {:induction false} Dial4Enables(s: Session, cfg: Config, r: StartReplies, now: nat)
    ensures var t := Dial4(s, cfg, r, now);
      t.profile.enable4 == s.profile.enable4 && t.profile.enable6 == s.profile.enable6
  {
    hide SetupOutcome;
  }

  /** The same for IPv6: confirmed by a CHECK; or up, granted in a START, or following IPv4, and no CHECK was made. */
  lemma {:induction false} Up6Iff(s: Session, cfg: Config, e: Event)
    requires Enabled(s, e)
    ensures Step(s, cfg, e).v6 == CONNECTED <==>
      if TakesCheck(s, e) then Confirmed6(s, cfg, e.checks)
      else || s.v6 == CONNECTED
           || (Dialled(s, e) && s.profile.enable6 && Tied(s, cfg) && Step(s, cfg, e).v4 == CONNECTED)
           || (Dialled(s, e) && s.profile.enable6 && !Tied(s, cfg) && e.replies.ip6 == 0
               && LastOf(Made(s, AtDial(s, cfg, e)), V6).Some? && LastOf(Made(s, AtDial(s, cfg, e)), V6).value.err == 0)
  {
    hide OnCheck, DialBoth, HoldSeconds, RearmSeconds, Made, LastOf, Confirmed4;
    if TakesCheck(s, e) {
      var s0 := s.(signals := s.signals[1..], alarm := None);
      CheckConcludes(s0, cfg, e.checks);
      SameConfirmed(s, s0, e.checks);
    } else if Dialled(s, e) {
      AfterDialKeeps4(AtDial(s, cfg, e), cfg, e.clocks);
      Dialled6(s, cfg, e);
    }
  }

  /** A call the modem reports gone is asked for anew: a CHECK queues the START, and the START makes a request. */
  lemma {:induction false} DroppedIsRedialled(s: Session, cfg: Config, check: Event, start: Event)
    requires Enabled(s, check) && check.Take? && s.signals == [Check] && s.profile.enable4
    requires check.checks.err4 != 0 || check.checks.status4 == DISCONNECTED
    requires var s1 := Step(s, cfg, check); start.Take? && MayDial(s1) && s1.allowTime <= start.clocks.test
    ensures var s1 := Step(s, cfg, check);
      && s1.v4 == DISCONNECTED && Enabled(s1, start)
      && LastOf(Made(s1, AtDial(s1, cfg, start)), V4).Some?
  {
    var s0 := s.(signals := [], alarm := None);
    assert s.signals[1..] == [];
    CheckConcludes(s0, cfg, check.checks);
    CheckDown(s0, cfg, check.checks);
    var s1 := Step(s, cfg, check);
    assert s1 == OnCheck(s0, cfg, check.checks);
    CheckProfile(s0, cfg, check.checks);
    hide OnCheck, DialBoth;
    assert s1.signals == [] + [Start] && s1.signals[0] == Start;
    var t := s1.(signals := s1.signals[1..], alarm := None);
    var fours, sixes := DialledOnce(t, cfg, start.replies, start.clocks.test);
    LastOfBlock(fours, sixes, V4);
    assert Made(s1, AtDial(s1, cfg, start)) == Made(t, DialBoth(t, cfg, start.replies, start.clocks.test));
  }

  lemma {:induction false} CheckDown(s: Session, cfg: Config, c: CheckReplies)
    requires s.profile.enable4 && (c.err4 != 0 || c.status4 == DISCONNECTED)
    ensures OnCheck(s, cfg, c).v4 == DISCONNECTED
  {
    hide Check4, Check6, CheckLink;
    var s0 := if s.ps != 1 then s.(ps := c.ps) else s;
    Check4Concludes(s0, c);
    Check6Concludes(Check4(s0, c), cfg, c);
    LinkConcludes(Check6(Check4(s0, c), cfg, c));
  }

  // ---- The hold ----

  /** After a change of the call list while a call is up, no request is made for a second. */
  lemma {:induction false} WaitsASecond(s: Session, cfg: Config, at: nat, events: seq<Event>)
    requires Enabled(s, DataCallList(at)) && (s.v4 == CONNECTED || s.v6 == CONNECTED)
    requires EnabledRun(Step(s, cfg, DataCallList(at)), cfg, events)
    requires forall i :: 0 <= i < |events| ==> !MovesHold(events[i])
    requires forall i :: 0 <= i < |events| && events[i].Take? ==> events[i].clocks.test < at + 1000
    ensures Run(Step(s, cfg, DataCallList(at)), cfg, events).attempts == s.attempts
  {
    QuietDuringHold(Step(s, cfg, DataCallList(at)), cfg, events);
  }

  /** A detach lifts the hold, and after a success there is none: the next START that may dial does. */
  lemma {:induction false} HoldLifted(s: Session, cfg: Config, e: Event, start: Event)
    requires Enabled(s, e) && ((e.NetworkState? && e.ps != 1) || Succeeded(s, cfg, e))
    requires var t := Step(s, cfg, e); start.Take? && t.signals != [] && t.signals[0] == Start && MayDial(t)
    requires start.clocks.test >= if e.NetworkState? then e.at else e.clocks.hold
    ensures Dialled(Step(s, cfg, e), start)
  {
    hide DialBoth;
  }

  // ---- The end ----

  /**
   The session ends on a lost or reset modem, on a STOP, or on a START that ends in a
   conflict, with the link down.
   */
  lemma {:induction false} EndsIff(s: Session, cfg: Config, e: Event)
    requires Enabled(s, e)
    ensures Step(s, cfg, e).exited <==>
      || e.DeviceGone? || e.ModemReset?
      || (e.Take? && s.signals[0] == Stop)
      || (Dialled(s, e) && ConflictExit(AtDial(s, cfg, e), cfg))
    ensures Step(s, cfg, e).exited ==> Step(s, cfg, e).link == 0
  {
    hide DialBoth, HoldSeconds, RearmSeconds, ConflictExit;
    if e.Take? {
      var s0 := s.(signals := s.signals[1..], alarm := None);
      CheckConcludes(s0, cfg, e.checks);
      hide OnCheck;
      if Dialled(s, e) { DialKeepsRest(s0, cfg, e.replies, e.clocks.test); }
    }
  }

  /** An interrupt is not lost: the session has ended, or the STOP is still to be taken. */
  lemma {:induction false} InterruptEnds(s: Session, cfg: Config, events: seq<Event>)
    requires EnabledRun(s, cfg, events) && (Stop in s.signals || Interrupt in events)
    ensures Run(s, cfg, events).exited || Stop in Run(s, cfg, events).signals
    decreases |events|
  {
    hide Step;
    if events != [] {
      var next := Step(s, cfg, events[0]);
      assert events == [events[0]] + events[1..];
      if Stop in s.signals || events[0] == Interrupt { StopStays(s, cfg, events[0]); }
      if events[1..] != [] { InterruptEnds(next, cfg, events[1..]); }
    }
  }

  lemma {:induction false} StopStays(s: Session, cfg: Config, e: Event)
    requires Enabled(s, e) && (Stop in s.signals || e == Interrupt)
    ensures Step(s, cfg, e).exited || Stop in Step(s, cfg, e).signals
  {
    hide OnStart, OnCheck, SomeDown, LinkChange;
    if e.Take? {
      if s.signals[0] != Stop {
        assert s.signals == [s.signals[0]] + s.signals[1..];
        var s0 := s.(signals := s.signals[1..], alarm := None);
        CheckConcludes(s0, cfg, e.checks);
        StartKeepsSignals(s0, cfg, e.replies, e.clocks);
      }
    } else {
      PostCovers(s, Start);
      PostCovers(s, Check);
      PostCovers(s, Stop);
    }
  }

  lemma {:induction false} StartKeepsSignals(s: Session, cfg: Config, r: StartReplies, clk: StartClocks)
    ensures OnStart(s, cfg, r, clk).signals == s.signals
  {
    hide DialBoth, HoldSeconds, RearmSeconds;
    DialKeepsRest(s, cfg, r, clk.test);
  }

  /** A report of the network's state is taken over, and coming back with a family down asks for a dial. */
  lemma {:induction false} AttachStarts(s: Session, cfg: Config, ps: nat, at: nat)
    requires Enabled(s, NetworkState(ps, at))
    ensures var t := Step(s, cfg, NetworkState(ps, at));
      && t == s.(ps := ps, allowTime := t.allowTime, signals := t.signals)
      && t.allowTime == (if ps == 1 then s.allowTime else at)
      && t.signals == (if ps == 1 && DownNow(s, s) then s.signals + [Start] else s.signals)
  {
  }

  /** Switching the loopback on asks for a dial. */
  lemma {:induction false} LoopbackStarts(s: Session, cfg: Config)
    requires Enabled(s, Loopback(true))
    ensures var t := Step(s, cfg, Loopback(true)); Start in t.signals && MayDial(t)
  {
    PostCovers(s.(profile := s.profile.(loopback := true)), Start);
  }
}
