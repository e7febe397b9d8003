/**
 What the dial engine keeps over every run: a redial is never lost (and the one race in
 which it is), the back-off ladder, and the PDN-conflict policy.
 */
module DialProofs {
  import opened Common
  import opened DialSpec

  // ---- A redial is never lost ----

  ghost predicate Owed(s: Session) {
    s.ps == 1 && SomeDown(s)
  }

  ghost predicate Covered(s: Session) {
    Start in s.signals || Check in s.signals || s.alarm.Some? || s.exited
  }

  /** Attached with an enabled family down: a START or CHECK is queued, the alarm is armed, or the session ended. */
  ghost predicate RedialKept(s: Session) {
    Owed(s) ==> Covered(s)
  }

  /**
   The one way to lose it: an early START whose second clock reading makes the remaining
   seconds come out as zero, so that alarm(0) arms nothing, with no START or CHECK behind it.
   */
  ghost predicate AlarmLost(s: Session, e: Event) {
    && e.Take? && s.signals != [] && s.signals[0] == Start
    && Owed(s)
    && s.allowTime > e.clocks.test && RearmSeconds(s.allowTime, e.clocks.rearm) == 0
    && Start !in s.signals[1..] && Check !in s.signals[1..]
  }

  lemma {:induction false} PostCovers(s: Session, signal: Signal)
    ensures signal in Post(s, signal).signals
    ensures forall x :: x in s.signals ==> x in Post(s, signal).signals
  {
    assert Post(s, signal).signals[|s.signals|] == signal;
    forall x | x in s.signals ensures x in Post(s, signal).signals {
      var i :| 0 <= i < |s.signals| && s.signals[i] == x;
      assert Post(s, signal).signals[i] == x;
    }
  }

  lemma {:induction false} StartRedial(s: Session, cfg: Config, r: StartReplies, clk: StartClocks)
    requires s.alarm.None? && !s.exited
    ensures var after := OnStart(s, cfg, r, clk);
      !RedialKept(after) <==>
        (Owed(s) && s.allowTime > clk.test && RearmSeconds(s.allowTime, clk.rearm) == 0 && !Covered(s))
  {
    if MayDial(s) && s.allowTime <= clk.test {
      DialKeepsRest(s, cfg, r, clk.test);
    }
  }

  lemma {:induction false} CheckRedial(s: Session, cfg: Config, c: CheckReplies)
    ensures RedialKept(OnCheck(s, cfg, c))
  {
    var s0 := if s.ps != 1 then s.(ps := c.ps) else s;
    var s1 := CheckLink(Check6(Check4(s0, c), cfg, c));
    PostCovers(s1, Start);
  }

  /** From a state that keeps the redial, a step loses it exactly in the race. */
  lemma {:induction false} StepRedial(s: Session, cfg: Config, e: Event)
    requires RedialKept(s) && Enabled(s, e)
    ensures RedialKept(Step(s, cfg, e)) <==> !AlarmLost(s, e)
  {
    match e
    case Take(r, clk, c) =>
      var s0 := s.(signals := s.signals[1..], alarm := None);
      if s.signals[0] == Start { StartRedial(s0, cfg, r, clk); }
      if s.signals[0] == Check { CheckRedial(s0, cfg, c); }
    case AlarmFires(_) => PostCovers(s, Start);
    case PollTimeout => PostCovers(s, Check);
    case Interrupt => PostCovers(s, Stop);
    case DeviceGone =>
    case ModemReset =>
    case NetworkState(ps, at) => PostCovers(s.(ps := ps), Start);
    case DataCallList(at) => PostCovers(s, Check); PostCovers(s.(allowTime := at + 1000), Check);
    case Loopback(on) => PostCovers(s.(profile := s.profile.(loopback := on)), Start);
  }

  ghost predicate AlwaysRedial(s: Session, cfg: Config, events: seq<Event>)
    requires EnabledRun(s, cfg, events)
    decreases |events|
  {
    RedialKept(s) && (events == [] || AlwaysRedial(Step(s, cfg, events[0]), cfg, events[1..]))
  }

  ghost predicate NoAlarmLost(s: Session, cfg: Config, events: seq<Event>)
    requires EnabledRun(s, cfg, events)
    decreases |events|
  {
    events == [] || (!AlarmLost(s, events[0]) && NoAlarmLost(Step(s, cfg, events[0]), cfg, events[1..]))
  }

  /** Over every run of the loop, the redial is kept at every point if and only if the race never happens. */
  lemma {:induction false} RedialIff(s: Session, cfg: Config, events: seq<Event>)
    requires RedialKept(s) && EnabledRun(s, cfg, events)
    ensures AlwaysRedial(s, cfg, events) <==> NoAlarmLost(s, cfg, events)
    ensures NoAlarmLost(s, cfg, events) ==> RedialKept(Run(s, cfg, events))
    decreases |events|
  {
    if events != [] {
      StepRedial(s, cfg, events[0]);
      if !AlarmLost(s, events[0]) {
        RedialIff(Step(s, cfg, events[0]), cfg, events[1..]);
      }
    }
  }

  lemma {:induction false} InitialRedial(profile: Profile, ps: nat, v4: nat, now: nat)
    ensures RedialKept(Initial(profile, ps, v4, now))
  {
    assert Initial(profile, ps, v4, now).signals[0] == Check;
  }

  /** The event posts a CHECK or takes one. */
  ghost predicate Checks(s: Session, e: Event) {
    e.PollTimeout? || e.DataCallList? || (e.Take? && s.signals != [] && s.signals[0] == Check)
  }

  /** From any state, even one that lost the redial, it is covered again by the first CHECK posted or taken. */
  lemma {:induction false} CheckRegains(s: Session, cfg: Config, e: Event)
    requires Enabled(s, e) && Checks(s, e)
    ensures RedialKept(Step(s, cfg, e))
  {
    if e.Take? {
      CheckRedial(s.(signals := s.signals[1..], alarm := None), cfg, e.checks);
    } else {
      PostCovers(s, Check);
      if e.DataCallList? { PostCovers(s.(allowTime := e.at + 1000), Check); }
    }
  }

  /** Some event of the run posts or takes a CHECK, and the race does not happen after it. */
  ghost predicate CheckedSince(s: Session, cfg: Config, events: seq<Event>)
    requires EnabledRun(s, cfg, events)
    decreases |events|
  {
    events != [] &&
    var next := Step(s, cfg, events[0]);
    (Checks(s, events[0]) && NoAlarmLost(next, cfg, events[1..])) || CheckedSince(next, cfg, events[1..])
  }

  /** So the race costs the redial only until the next CHECK, which a quiet poll posts every 15 seconds. */
  lemma {:induction false} RedialRegained(s: Session, cfg: Config, events: seq<Event>)
    requires EnabledRun(s, cfg, events) && CheckedSince(s, cfg, events)
    ensures RedialKept(Run(s, cfg, events))
    decreases |events|
  {
    hide Step, Checks, RedialKept;
    var next := Step(s, cfg, events[0]);
    if Checks(s, events[0]) && NoAlarmLost(next, cfg, events[1..]) {
      CheckRegains(s, cfg, events[0]);
      RedialIff(next, cfg, events[1..]);
    } else {
      RedialRegained(next, cfg, events[1..]);
    }
  }

  lemma {:induction false} SecondsInTime(allowTime: nat, now: nat)
    ensures now < allowTime <= now + 1000 * (U32 - 1) ==>
      && RearmSeconds(allowTime, now) > 0
      && allowTime <= now + 1000 * RearmSeconds(allowTime, now) < allowTime + 1000
    ensures allowTime <= now <= allowTime + 999 ==> RearmSeconds(allowTime, now) == 0
  {
    if now < allowTime <= now + 1000 * (U32 - 1) {
      assert (allowTime - now + 999) % U64 == allowTime - now + 999;
      assert (allowTime - now + 999) / 1000 < U32;
    }
  }

  /**
   A START that comes before the hold ends leaves the alarm armed for the hold or less than
   a second after it, as long as the second clock reading is still before it; in the second
   after the hold it leaves none.
   */
  lemma {:induction false} RearmInTime(s: Session, cfg: Config, e: Event)
    requires Enabled(s, e) && e.Take? && s.signals[0] == Start && MayDial(s) && e.clocks.test < s.allowTime
    ensures var after := Step(s, cfg, e);
      && after.allowTime == s.allowTime && after.attempts == s.attempts
      && (e.clocks.rearm < s.allowTime <= e.clocks.rearm + 1000 * (U32 - 1) ==>
            after.alarm.Some? && s.allowTime <= after.alarm.value < s.allowTime + 1000)
      && (s.allowTime <= e.clocks.rearm <= s.allowTime + 999 ==> after.alarm.None?)
  {
    hide RearmSeconds;
    SecondsInTime(s.allowTime, e.clocks.rearm);
  }

  // ---- The race, from the start of the loop ----

  /** No answer to anything. */
  const SILENT: StartReplies :=
    StartReplies(NoAnswer(-1), NoAnswer(-1), NoAnswer(-1), IpReply(-1, 0), NoAnswer(-1), -1)

  const UNREACHABLE: CheckReplies := CheckReplies(1, -1, UNKNOWN, IpReply(-1, 0), false, 0, -1, UNKNOWN)

  function Signalled(test: nat, rearm: nat, arm: nat, hold: nat): Event {
    Take(SILENT, StartClocks(test, rearm, arm, hold), UNREACHABLE)
  }

  /** After the first CHECK the family is down and a START queued. */
  lemma {:induction false} FirstCheck(profile: Profile, cfg: Config)
    requires profile.enable4 && !profile.enable6
    ensures var s := Step(Initial(profile, 1, UNKNOWN, 0), cfg, Signalled(0, 0, 0, 0));
      && s.ps == 1 && s.v4 == DISCONNECTED && s.v6 == DISCONNECTED && s.signals == [Start] && s.alarm.None? && !s.exited
      && s.fails == 0 && s.allowTime == 0 && s.conflict == 0 && s.profile.enable4 && !s.profile.enable6
  {
  }

  /** A START that gets no answer holds for five seconds; the alarm call comes before the hold's clock reading. */
  lemma {:induction false} FirstStart(s: Session, cfg: Config)
    requires s.ps == 1 && s.v4 == DISCONNECTED && s.v6 == DISCONNECTED && s.signals == [Start] && !s.exited
    requires s.fails == 0 && s.allowTime == 0 && s.conflict == 0 && s.profile.enable4 && !s.profile.enable6
    ensures var t := Step(s, cfg, Signalled(0, 0, 0, 1));
      && t.ps == 1 && t.v4 == DISCONNECTED && t.signals == [] && t.alarm == Some(5000) && t.allowTime == 5001
      && !t.exited && t.profile.enable4
  {
    var s0 := s.(signals := [], alarm := None, conflict4 := 0);
    var d := Dial4(s0, cfg, SILENT, 0);
    assert d.v4 == DISCONNECTED && d.conflict4 == 0 && d.profile == s.profile;
    Dial4KeepsRest(s0, cfg, SILENT, 0);
    hide Dial4;
    assert Dial6(d, cfg, SILENT, 0) == d;
  }

  /**
   The race, on a clock that never runs back: the first CHECK finds the family down; the
   START after it fails, arms the alarm at 0 and sets the hold at 1, so that the alarm
   fires one millisecond before the hold ends; that START reads 5000 and then 5001.
   */
  lemma {:induction false} RedialLost(profile: Profile, cfg: Config)
    requires profile.enable4 && !profile.enable6
    ensures var s := Initial(profile, 1, UNKNOWN, 0);
      var events := [Signalled(0, 0, 0, 0), Signalled(0, 0, 0, 1), AlarmFires(5000), Signalled(5000, 5001, 5001, 5001)];
      EnabledRun(s, cfg, events) && !RedialKept(Run(s, cfg, events))
  {
    var s := Initial(profile, 1, UNKNOWN, 0);
    var e1, e2, e4 := Signalled(0, 0, 0, 0), Signalled(0, 0, 0, 1), Signalled(5000, 5001, 5001, 5001);
    FirstCheck(profile, cfg);
    var a := Step(s, cfg, e1);
    FirstStart(a, cfg);
    var b := Step(a, cfg, e2);
    hide DialBoth, OnCheck, AfterDial;
    var c := Step(b, cfg, AlarmFires(5000));
    assert c.signals == [Start] && c.allowTime == 5001 && c.alarm.None?;
    SecondsInTime(5001, 5001);
    var d := Step(c, cfg, e4);
    assert d.signals == [] && d.alarm.None? && !d.exited && Owed(d);
    hide Step;
    RunCons(c, cfg, e4, []);
    RunCons(b, cfg, AlarmFires(5000), [e4]);
    RunCons(a, cfg, e2, [AlarmFires(5000), e4]);
    RunCons(s, cfg, e1, [e2, AlarmFires(5000), e4]);
  }

  lemma {:induction false} RunCons(s: Session, cfg: Config, e: Event, rest: seq<Event>)
    requires Enabled(s, e) && EnabledRun(Step(s, cfg, e), cfg, rest)
    ensures EnabledRun(s, cfg, [e] + rest) && Run(s, cfg, [e] + rest) == Run(Step(s, cfg, e), cfg, rest)
  {
    assert ([e] + rest)[1..] == rest;
  }

  // ---- What dialling leaves alone ----

  ghost predicate RestKept(s: Session, after: Session) {
    && after.ps == s.ps && after.signals == s.signals && after.alarm == s.alarm && after.exited == s.exited
    && after.fails == s.fails && after.allowTime == s.allowTime && after.link == s.link
    && s.attempts <= after.attempts
  }

  lemma {:induction false} DialKeepsRest(s: Session, cfg: Config, r: StartReplies, now: nat)
    ensures RestKept(s, DialBoth(s, cfg, r, now))
  {
    var s0 := s.(conflict4 := 0);
    if V6First(s, cfg) {
      Dial6KeepsRest(s0, cfg, r, now);
      Dial4KeepsRest(Dial6(s0, cfg, r, now), cfg, r, now);
    } else {
      Dial4KeepsRest(s0, cfg, r, now);
      Dial6KeepsRest(Dial4(s0, cfg, r, now), cfg, r, now);
    }
  }

  lemma {:induction false} Dial4KeepsRest(s: Session, cfg: Config, r: StartReplies, now: nat)
    ensures RestKept(s, Dial4(s, cfg, r, now))
    ensures Dial4(s, cfg, r, now).v6 == s.v6
  {
  }

  lemma {:induction false} Dial6KeepsRest(s: Session, cfg: Config, r: StartReplies, now: nat)
    ensures RestKept(s, Dial6(s, cfg, r, now))
    ensures Dial6(s, cfg, r, now).v4 == s.v4 && Dial6(s, cfg, r, now).conflict4 == s.conflict4
  {
  }

  // ---- Back-off ----

  ghost predicate Dialled(s: Session, e: Event) {
    e.Take? && s.signals != [] && s.signals[0] == Start && MayDial(s) && s.allowTime <= e.clocks.test
  }

  /** The session right after the two families were dialled. */
  ghost function AtDial(s: Session, cfg: Config, e: Event): Session
    requires Dialled(s, e)
  {
    DialBoth(s.(signals := s.signals[1..], alarm := None), cfg, e.replies, e.clocks.test)
  }

  ghost predicate Failed(s: Session, cfg: Config, e: Event) {
    Dialled(s, e) && !ConflictExit(AtDial(s, cfg, e), cfg) && SomeDown(AtDial(s, cfg, e))
  }

  ghost predicate Succeeded(s: Session, cfg: Config, e: Event) {
    && Dialled(s, e) && !ConflictExit(AtDial(s, cfg, e), cfg) && !SomeDown(AtDial(s, cfg, e))
    && (AtDial(s, cfg, e).v4 == CONNECTED || AtDial(s, cfg, e).v6 == CONNECTED)
  }

  /** Failing STARTs since the last successful one, counting on from n. */
  ghost function Streak(s: Session, cfg: Config, events: seq<Event>, n: nat): nat
    requires EnabledRun(s, cfg, events)
    decreases |events|
  {
    if events == [] then n
    else
      var e := events[0];
      Streak(Step(s, cfg, e), cfg, events[1..], if Failed(s, cfg, e) then n + 1 else if Succeeded(s, cfg, e)
        then 0 else n)
  }

  /** 5, 10, 20, 40, then 60 for good. */
  ghost function Ladder(n: nat): nat {
    if 5 * Pow2(n) < 60 then 5 * Pow2(n) else 60
  }

  lemma {:induction false} Pow2Grows(n: nat)
    requires n >= 4
    ensures Pow2(n) >= 16
  {
    if n > 4 { Pow2Grows(n - 1); }
  }

  lemma {:induction false} LadderHolds(n: nat)
    ensures HoldSeconds(n) == Ladder(n)
  {
    if n >= 4 { Pow2Grows(n); }
  }

  /** Checking neither dials nor touches the back-off. */
  lemma {:induction false} CheckLeaves(s: Session, cfg: Config, c: CheckReplies)
    ensures var after := OnCheck(s, cfg, c);
      after.attempts == s.attempts && after.allowTime == s.allowTime && after.fails == s.fails
  {
    hide Check4, Check6, SomeDown;
    var s0 := if s.ps != 1 then s.(ps := c.ps) else s;
    Check4Leaves(s0, c);
    Check6Leaves(Check4(s0, c), cfg, c);
  }

  lemma {:induction false} Check4Leaves(s: Session, c: CheckReplies)
    ensures var after := Check4(s, c);
      after.attempts == s.attempts && after.allowTime == s.allowTime && after.fails == s.fails
  {
  }

  lemma {:induction false} Check6Leaves(s: Session, cfg: Config, c: CheckReplies)
    ensures var after := Check6(s, cfg, c);
      after.attempts == s.attempts && after.allowTime == s.allowTime && after.fails == s.fails
  {
  }

  lemma {:induction false} StepFails(s: Session, cfg: Config, e: Event)
    requires Enabled(s, e)
    ensures Step(s, cfg, e).fails ==
      if Failed(s, cfg, e) then (s.fails + 1) % U32 else if Succeeded(s, cfg, e) then 0 else s.fails
  {
    hide DialBoth, OnCheck, RearmSeconds;
    if e.Take? {
      var s0 := s.(signals := s.signals[1..], alarm := None);
      CheckLeaves(s0, cfg, e.checks);
      if Dialled(s, e) { DialKeepsRest(s0, cfg, e.replies, e.clocks.test); }
    }
  }

  lemma {:induction false} RunFails(s: Session, cfg: Config, events: seq<Event>, n: nat)
    requires EnabledRun(s, cfg, events) && s.fails == n % U32
    ensures Run(s, cfg, events).fails == Streak(s, cfg, events, n) % U32
    decreases |events|
  {
    hide Step, Failed, Succeeded;
    if events != [] {
      var e := events[0];
      StepFails(s, cfg, e);
      RunFails(Step(s, cfg, e), cfg, events[1..], if Failed(s, cfg, e) then n + 1 else if Succeeded(s, cfg, e)
        then 0 else n);
    }
  }

  /**
   After any run, a START that fails next holds off for the rung of the ladder given by the
   failures since the last success (the counter has 32 bits), and arms the alarm for it.
   */
  lemma {:induction false} BackOff(profile: Profile, ps: nat, v4: nat, now: nat, cfg: Config, events: seq<Event>,
      e: Event)
    requires EnabledRun(Initial(profile, ps, v4, now), cfg, events)
    requires Enabled(Run(Initial(profile, ps, v4, now), cfg, events), e)
    requires Failed(Run(Initial(profile, ps, v4, now), cfg, events), cfg, e)
    ensures var s0 := Initial(profile, ps, v4, now);
      var after := Step(Run(s0, cfg, events), cfg, e);
      var hold := Ladder(Streak(s0, cfg, events, 0) % U32);
      after.allowTime == e.clocks.hold + 1000 * hold && after.alarm == Some(e.clocks.arm + 1000 * hold)
  {
    var s0 := Initial(profile, ps, v4, now);
    RunFails(s0, cfg, events, 0);
    var s := Run(s0, cfg, events);
    hide Streak, Run, EnabledRun, DialBoth, Ladder;
    DialKeepsRest(s.(signals := s.signals[1..], alarm := None), cfg, e.replies, e.clocks.test);
    LadderHolds(s.fails);
  }

  /**
   The alarm of a failing START is armed before its hold is computed, so it can fire before
   the hold ends, by as much as lies between the two clock readings.
   */
  lemma {:induction false} AlarmBeforeHold(s: Session, cfg: Config, e: Event)
    requires Enabled(s, e) && Failed(s, cfg, e)
    ensures var after := Step(s, cfg, e);
      after.alarm.Some? && after.allowTime - after.alarm.value == e.clocks.hold - e.clocks.arm
  {
    hide DialBoth, Ladder;
    DialKeepsRest(s.(signals := s.signals[1..], alarm := None), cfg, e.replies, e.clocks.test);
  }

  /** Only a detach, or a data-call-list change while connected, moves the hold. */
  ghost predicate MovesHold(e: Event) {
    (e.NetworkState? && e.ps != 1) || e.DataCallList?
  }

  /** Until the hold ends no data call is made, whatever signals arrive. */
  lemma {:induction false} QuietDuringHold(s: Session, cfg: Config, events: seq<Event>)
    requires EnabledRun(s, cfg, events)
    requires forall i :: 0 <= i < |events| ==> !MovesHold(events[i])
    requires forall i :: 0 <= i < |events| && events[i].Take? ==> events[i].clocks.test < s.allowTime
    ensures Run(s, cfg, events).attempts == s.attempts && Run(s, cfg, events).allowTime == s.allowTime
    decreases |events|
  {
    hide Step;
    if events != [] {
      assert !MovesHold(events[0]);
      var next := Step(s, cfg, events[0]);
      HoldStep(s, cfg, events[0]);
      assert forall i :: 0 <= i < |events[1..]| ==> events[1..][i] == events[i + 1];
      QuietDuringHold(next, cfg, events[1..]);
    }
  }

  /** A call is only made once the hold is over; and only those steps move the hold that may. */
  lemma {:induction false} HoldStep(s: Session, cfg: Config, e: Event)
    requires Enabled(s, e)
    ensures Step(s, cfg, e).attempts != s.attempts ==> e.Take? && s.allowTime <= e.clocks.test
    ensures Step(s, cfg, e).allowTime != s.allowTime ==> MovesHold(e) || (e.Take? && s.allowTime <= e.clocks.test)
  {
    hide DialBoth, OnCheck, RearmSeconds;
    if e.Take? {
      var s0 := s.(signals := s.signals[1..], alarm := None);
      CheckLeaves(s0, cfg, e.checks);
      if Dialled(s, e) { DialKeepsRest(s0, cfg, e.replies, e.clocks.test); }
    }
  }

  // ---- PDN conflict policy ----

  ghost predicate ConflictCode(n: nat) {
    n == 55 || n == 209 || n == 211
  }

  /** IPv4 requests were made, at most `most`, and the last one ended with `err` and the session's conflict code. */
  ghost predicate Asked4(s: Session, after: Session, err: int, cfg: Config, now: nat, most: nat) {
    && s.attempts <= after.attempts && 1 <= |after.attempts| - |s.attempts| <= most
    && (forall i :: |s.attempts| <= i < |after.attempts| ==>
      after.attempts[i].family == V4 && after.attempts[i].time == now)
    && after.attempts[|after.attempts| - 1].err == err
      && after.attempts[|after.attempts| - 1].conflict == after.conflict
    && after.v4 == s.v4 && after.conflict4 == s.conflict4
    && (cfg.ops.Qmi? && after.conflict != 0 ==> ConflictCode(after.conflict))
  }

  lemma {:induction false} TriedAsks(s: Session, cfg: Config, apn: Option<string>, auth: int, reply: SetupReply,
      now: nat)
    ensures var (s1, e1) := Tried(s, cfg, V4, apn, auth, reply, now); Asked4(s, s1, e1, cfg, now, 1)
  {
  }

  lemma {:induction false} AskedThenAsked(s: Session, s1: Session, s2: Session, e1: int, e2: int, cfg: Config,
      now: nat, most: nat)
    requires Asked4(s, s1, e1, cfg, now, most) && Asked4(s1, s2, e2, cfg, now, 1)
    ensures Asked4(s, s2, e2, cfg, now, most + 1)
  {
    assert forall i :: |s.attempts| <= i < |s1.attempts| ==> s2.attempts[i] == s1.attempts[i];
  }

  lemma {:induction false} Ask4Asks(s: Session, cfg: Config, r: StartReplies, now: nat)
    ensures var (s1, e1) := Ask4(s, cfg, r, now); Asked4(s, s1, e1, cfg, now, 2)
  {
    hide Tried;
    var p := s.profile;
    var (s1, e1) := Tried(s, cfg, V4, p.apn, p.auth, r.first4, now);
    TriedAsks(s, cfg, p.apn, p.auth, r.first4, now);
    var (s2, e2) := Tried(s1, cfg, V4, p.apn, OtherAuth(p.auth), r.alternate4, now);
    TriedAsks(s1, cfg, p.apn, OtherAuth(p.auth), r.alternate4, now);
    AskedThenAsked(s, s1, s2, e1, e2, cfg, now, 1);
  }

  lemma {:induction false} Asks4(s: Session, cfg: Config, r: StartReplies, now: nat)
    ensures var (s1, e1) := Ask4(s, cfg, r, now); var (s2, e2) := AskBare4(s1, e1, cfg, r, now);
      Asked4(s, s2, e2, cfg, now, 3)
  {
    hide Ask4, Tried;
    var (s1, e1) := Ask4(s, cfg, r, now);
    Ask4Asks(s, cfg, r, now);
    var (s2, e2) := Tried(s1, cfg, V4, None, s1.profile.auth, r.bare4, now);
    TriedAsks(s1, cfg, None, s1.profile.auth, r.bare4, now);
    AskedThenAsked(s, s1, s2, e1, e2, cfg, now, 2);
  }

  /** What IPv4 dialling did, told by its last request. */
  lemma {:induction false} Dial4Verdict(s: Session, cfg: Config, r: StartReplies, now: nat)
    requires s.conflict4 == 0
    ensures var after := Dial4(s, cfg, r, now);
      if !s.profile.enable4 || s.v4 == CONNECTED then after == s
      else
        && s.attempts <= after.attempts && 1 <= |after.attempts| - |s.attempts| <= 3
        && (forall i :: |s.attempts| <= i < |after.attempts| ==>
          after.attempts[i].family == V4 && after.attempts[i].time == now)
        && var last := after.attempts[|after.attempts| - 1];
        && after.conflict4 == (if last.err != 0 then last.conflict else 0)
        && after.v4 == (if last.err == 0 && r.ip4.err == 0 then CONNECTED else s.v4)
        && (cfg.ops.Qmi? && last.conflict != 0 ==> ConflictCode(last.conflict))
  {
    hide Ask4, AskBare4;
    Asks4(s, cfg, r, now);
  }

  lemma {:induction false} Dial6Verdict(s: Session, cfg: Config, r: StartReplies, now: nat)
    ensures var after := Dial6(s, cfg, r, now);
      && after.attempts[..|s.attempts|] == s.attempts && |after.attempts| <= |s.attempts| + 1
      && (forall i :: |s.attempts| <= i < |after.attempts| ==> after.attempts[i].family == V6)
      && (s.profile.enable6 && !after.profile.enable6 ==>
          s.profile.enable4 && s.v4 == CONNECTED && cfg.exitOnConflict
          && |after.attempts| == |s.attempts| + 1 && after.attempts[|s.attempts|].conflict != 0)
      && after.profile.(enable6 := s.profile.enable6) == s.profile
      && (after.profile.enable6 ==> s.profile.enable6)
  {
  }

  ghost function LastOf(attempts: seq<Attempt>, family: nat): Option<Attempt> {
    if attempts == [] then None
    else if attempts[|attempts| - 1].family == family then Some(attempts[|attempts| - 1])
    else LastOf(attempts[..|attempts| - 1], family)
  }

  /** The requests one START made. */
  ghost function Made(s: Session, after: Session): seq<Attempt> {
    if |s.attempts| <= |after.attempts| then after.attempts[|s.attempts|..] else []
  }

  lemma {:induction false} LastOfBlock(block: seq<Attempt>, other: seq<Attempt>, family: nat)
    requires forall i :: 0 <= i < |block| ==> block[i].family == family
    requires forall i :: 0 <= i < |other| ==> other[i].family != family
    ensures LastOf(block + other, family) == if block == [] then None else Some(block[|block| - 1])
    ensures LastOf(other + block, family) == if block == [] then None else Some(block[|block| - 1])
    decreases |other|
  {
    if other == [] {
      assert block + other == block && other + block == block;
    } else {
      var shorter := other[..|other| - 1];
      LastOfBlock(block, shorter, family);
      assert (block + other)[..|block + other| - 1] == block + shorter;
      if block == [] {
        assert other + block == other && shorter + block == shorter && block + shorter == shorter;
      }
    }
  }

  lemma {:induction false} Sliced(a: seq<Attempt>, b: seq<Attempt>, c: seq<Attempt>)
    requires a <= b <= c
    ensures c[|a|..] == b[|a|..] + c[|b|..]
  {
  }

  /** In either order, each family is dialled once: at most three IPv4 requests in a row and at most one for IPv6. */
  lemma {:induction false} DialledOnce(s: Session, cfg: Config, r: StartReplies, now: nat)
    returns (fours: seq<Attempt>, sixes: seq<Attempt>)
    ensures Made(s, DialBoth(s, cfg, r, now)) == if V6First(s, cfg) then sixes + fours else fours + sixes
    ensures |fours| <= 3 && |sixes| <= 1
    ensures forall i :: 0 <= i < |fours| ==> fours[i].family == V4
    ensures forall i :: 0 <= i < |sixes| ==> sixes[i].family == V6
    ensures fours == [] <==> !s.profile.enable4 || s.v4 == CONNECTED
    ensures var after := DialBoth(s, cfg, r, now);
      && after.conflict4 == (if fours == [] || fours[|fours| - 1].err == 0 then 0 else fours[|fours| - 1].conflict)
      && (fours != [] ==> after.v4 == if fours[|fours| - 1].err == 0 && r.ip4.err == 0 then CONNECTED else s.v4)
      && (cfg.ops.Qmi? && after.conflict4 != 0 ==> ConflictCode(after.conflict4))
  {
    hide Dial4, Dial6;
    var s0 := s.(conflict4 := 0);
    var first := if V6First(s, cfg) then Dial6(s0, cfg, r, now) else Dial4(s0, cfg, r, now);
    var after := DialBoth(s, cfg, r, now);
    if V6First(s, cfg) {
      Dial6Verdict(s0, cfg, r, now);
      Dial6KeepsRest(s0, cfg, r, now);
      Dial4Verdict(first, cfg, r, now);
      Dial4KeepsRest(first, cfg, r, now);
      sixes, fours := first.attempts[|s.attempts|..], after.attempts[|first.attempts|..];
      Sliced(s.attempts, first.attempts, after.attempts);
    } else {
      Dial4Verdict(s0, cfg, r, now);
      Dial4KeepsRest(s0, cfg, r, now);
      Dial6Verdict(first, cfg, r, now);
      Dial6KeepsRest(first, cfg, r, now);
      fours, sixes := first.attempts[|s.attempts|..], after.attempts[|first.attempts|..];
      Sliced(s.attempts, first.attempts, after.attempts);
    }
  }

  /**
   With IPv4 enabled, the session ends for a conflict exactly when this START's last IPv4
   request was refused with a conflict code while IPv4 was down.
   */
  lemma {:induction false} ConflictExitIff(s: Session, cfg: Config, e: Event)
    requires Enabled(s, e) && Dialled(s, e) && s.profile.enable4
    ensures var last := LastOf(Made(s, AtDial(s, cfg, e)), V4);
      Step(s, cfg, e).exited <==>
        cfg.exitOnConflict && last.Some? && last.value.err != 0 && last.value.conflict != 0 && s.v4 == DISCONNECTED
    ensures cfg.ops.Qmi? && Step(s, cfg, e).exited ==>
      ConflictCode(LastOf(Made(s, AtDial(s, cfg, e)), V4).value.conflict)
  {
    hide DialBoth;
    var s1 := s.(signals := s.signals[1..], alarm := None);
    var fours, sixes := DialledOnce(s1, cfg, e.replies, e.clocks.test);
    LastOfBlock(fours, sixes, V4);
    assert Made(s, AtDial(s, cfg, e)) == Made(s1, DialBoth(s1, cfg, e.replies, e.clocks.test));
    hide LastOf, Made;
    DialKeepsRest(s1, cfg, e.replies, e.clocks.test);
    ProfileKept(s, cfg, e);
    assert AtDial(s, cfg, e).profile.enable4;
  }

  /** What no step of a run changes, and what only goes one way. */
  ghost predicate ProfileFollows(p: Profile, q: Profile) {
    && q.enable4 == p.enable4 && q.apn == p.apn && q.user == p.user && q.pd == p.pd && q.profileIndex == p.profileIndex
    && (q.enable6 ==> p.enable6)
  }

  /** The auth mode moved only if a request with the new mode succeeded. */
  ghost predicate AuthEarned(s: Session, after: Session) {
    after.profile.auth != s.profile.auth ==>
      && after.profile.auth == OtherAuth(s.profile.auth)
      && exists i ::
           && |s.attempts| <= i < |after.attempts|
           && after.attempts[i].err == 0 && after.attempts[i].auth == after.profile.auth
  }

  lemma {:induction false} Ask4Profile(s: Session, cfg: Config, r: StartReplies, now: nat)
    ensures var s1 := Ask4(s, cfg, r, now).0;
      s1.profile.(auth := s.profile.auth) == s.profile && AuthEarned(s, s1) && s.attempts <= s1.attempts
  {
    var (s1, e1) := Ask4(s, cfg, r, now);
    if s1.profile.auth != s.profile.auth {
      var k := |s.attempts| + 1;
      assert s1.attempts[k].err == 0 && s1.attempts[k].auth == s1.profile.auth;
    }
  }

  lemma {:induction false} EarnedKept(s: Session, s1: Session, s2: Session)
    requires AuthEarned(s, s1) && s1.attempts <= s2.attempts && s2.profile.auth == s1.profile.auth
    ensures AuthEarned(s, s2)
  {
    if s2.profile.auth != s.profile.auth {
      var i :| |s.attempts| <= i < |s1.attempts| && s1.attempts[i].err == 0 && s1.attempts[i].auth == s1.profile.auth;
      assert s2.attempts[i] == s1.attempts[i];
    }
  }

  lemma {:induction false} Dial4Profile(s: Session, cfg: Config, r: StartReplies, now: nat)
    ensures var after := Dial4(s, cfg, r, now);
      && ProfileFollows(s.profile, after.profile) && after.profile.enable6 == s.profile.enable6
      && AuthEarned(s, after) && s.attempts <= after.attempts
  {
    if s.profile.enable4 && s.v4 != CONNECTED {
      hide Ask4;
      Ask4Profile(s, cfg, r, now);
      var (s1, e1) := Ask4(s, cfg, r, now);
      EarnedKept(s, s1, Dial4(s, cfg, r, now));
    }
  }

  lemma {:induction false} DialBothProfile(s: Session, cfg: Config, r: StartReplies, now: nat)
    ensures var after := DialBoth(s, cfg, r, now);
      && ProfileFollows(s.profile, after.profile) && AuthEarned(s, after) && s.attempts <= after.attempts
      && (s.profile.enable6 && !after.profile.enable6 ==> after.v4 == CONNECTED)
  {
    hide Dial4, Dial6;
    var s0 := s.(conflict4 := 0);
    if V6First(s, cfg) {
      var first := Dial6(s0, cfg, r, now);
      Dial6Verdict(s0, cfg, r, now);
      Dial6KeepsRest(s0, cfg, r, now);
      Dial4Profile(first, cfg, r, now);
      Dial4Verdict(first, cfg, r, now);
    } else {
      var first := Dial4(s0, cfg, r, now);
      Dial4Profile(s0, cfg, r, now);
      Dial6Verdict(first, cfg, r, now);
      Dial6KeepsRest(first, cfg, r, now);
      EarnedKept(s, first, DialBoth(s, cfg, r, now));
    }
  }

  ghost predicate SameButAddress(p: Profile, q: Profile) {
    p == q.(address := p.address)
  }

  lemma {:induction false} Check4Profile(s: Session, c: CheckReplies)
    ensures SameButAddress(s.profile, Check4(s, c).profile)
  {
  }

  lemma {:induction false} CheckLinkProfile(s: Session)
    ensures SameButAddress(s.profile, CheckLink(s).profile)
  {
  }

  lemma {:induction false} CheckProfile(s: Session, cfg: Config, c: CheckReplies)
    ensures SameButAddress(s.profile, OnCheck(s, cfg, c).profile)
  {
    hide Check4, CheckLink;
    var s0 := if s.ps != 1 then s.(ps := c.ps) else s;
    Check4Profile(s0, c);
    CheckLinkProfile(Check6(Check4(s0, c), cfg, c));
  }

  lemma {:induction false} ProfileKept(s: Session, cfg: Config, e: Event)
    requires Enabled(s, e)
    ensures ProfileFollows(s.profile, Step(s, cfg, e).profile)
    ensures Dialled(s, e) ==> ProfileFollows(s.profile, AtDial(s, cfg, e).profile)
    ensures s.profile.enable6 && !Step(s, cfg, e).profile.enable6 ==> Step(s, cfg, e).v4 == CONNECTED
  {
    hide DialBoth, OnCheck;
    if e.Take? {
      CheckProfile(s.(signals := s.signals[1..], alarm := None), cfg, e.checks);
    }
    if Dialled(s, e) {
      DialBothProfile(s.(signals := s.signals[1..], alarm := None), cfg, e.replies, e.clocks.test);
    }
  }

  /** Over every run: the APN and credentials are as configured, IPv4 stays as chosen, IPv6 never comes back on. */
  lemma {:induction false} ProfileKeptRun(s: Session, cfg: Config, events: seq<Event>)
    requires EnabledRun(s, cfg, events)
    ensures ProfileFollows(s.profile, Run(s, cfg, events).profile)
    decreases |events|
  {
    hide Step;
    if events != [] {
      ProfileKept(s, cfg, events[0]);
      ProfileKeptRun(Step(s, cfg, events[0]), cfg, events[1..]);
    }
  }

  /** The auth mode changes only in a START, and only to the mode of a request that succeeded in it. */
  lemma {:induction false} AuthKept(s: Session, cfg: Config, e: Event)
    requires Enabled(s, e) && Step(s, cfg, e).profile.auth != s.profile.auth
    ensures Dialled(s, e) && AuthEarned(s, Step(s, cfg, e))
  {
    hide DialBoth, OnCheck;
    if e.Take? {
      CheckProfile(s.(signals := s.signals[1..], alarm := None), cfg, e.checks);
    }
    if Dialled(s, e) {
      DialBothProfile(s.(signals := s.signals[1..], alarm := None), cfg, e.replies, e.clocks.test);
      EarnedKept(s, AtDial(s, cfg, e), Step(s, cfg, e));
    }
  }
}
