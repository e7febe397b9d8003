/**
 The dial engine as the program runs it: one event loop updating the session variables in
 place. Each handler is proved to do what `DialSpec` says, on the whole session.
 */
module DialEngine {
  import opened Common
  import opened DialSpec

  class Engine {
    const cfg: Config
    var ps: nat
    var v4: nat
    var v6: nat
    var fails: nat
    var allowTime: nat
    var pdnConflict: nat
    var conflict4: nat
    var link: int
    var profile: Profile
    var signals: seq<Signal>
    var alarm: Option<nat>
    var exited: bool
    ghost var attempts: seq<Attempt>

    ghost function State(): Session
      reads this
    {
      Session(ps, v4, v6, fails, allowTime, pdnConflict, conflict4, link, profile, signals, alarm, exited, attempts)
    }

    constructor (cfg: Config, profile: Profile, ps: nat, v4: nat, now: nat)
      ensures this.cfg == cfg && State() == Initial(profile, ps, v4, now)
    {
      this.cfg, this.profile, this.ps, this.v4 := cfg, profile, ps, v4;
      v6, fails, allowTime, pdnConflict, conflict4, link := UNKNOWN, 0, now, 0, 0, -1;
      signals, alarm, exited, attempts := [Check], None, false, [];
    }

    /** usbnet_link_change. */
    method ChangeLink(newLink: int, v4Up: bool)
      modifies this`link, this`profile
      ensures State() == LinkChange(old(State()), newLink, v4Up)
    {
      if link == newLink {
        return;
      }
      link := newLink;
      if !v4Up {
        profile := profile.(address := 0);
      }
    }

    /** requestSetupDataCall with the settings now in the profile. */
    method SetupDataCall(family: nat, reply: SetupReply, now: nat) returns (err: int)
      modifies this`pdnConflict, this`attempts
      ensures (State(), err) == Tried(old(State()), cfg, family, profile.apn, profile.auth, reply, now)
    {
      if cfg.ops.Qmi? {
        pdnConflict := 0;
      }
      match reply {
        case NoAnswer(code) =>
          err := code;
        case Answer(result, error, reason) =>
          err := error;
          if cfg.ops.Qmi? && (result != 0 || error != 0) && reason.Some? {
            var (kind, value) := reason.value;
            if (kind == 6 && value == 55) || (kind == 2 && (value == 209 || value == 211)) {
              pdnConflict := value;
            }
          }
      }
      attempts := attempts + [Attempt(family, profile.apn, profile.auth, err, pdnConflict, now)];
    }

    /** The IPv4 block of START. */
    method StartV4(r: StartReplies, now: nat)
      modifies this
      ensures State() == Dial4(old(State()), cfg, r, now)
    {
      if profile.enable4 && v4 != CONNECTED {
        var err := SetupDataCall(V4, r.first4, now);
        if err > 0 && NonEmpty(profile.user) && NonEmpty(profile.pd) {
          var oldAuth := profile.auth;
          profile := profile.(auth := if profile.auth == 1 then 2 else 1);
          err := SetupDataCall(V4, r.alternate4, now);
          if err != 0 {
            profile := profile.(auth := oldAuth);
          }
        }
        assert (State(), err) == Ask4(old(State()), cfg, r, now);
        err := RetryBare(err, r, now);
        FinishV4(err, r.ip4);
      }
    }

    /** After a conflict: one request without the APN, which is put back afterwards. */
    method RetryBare(err0: int, r: StartReplies, now: nat) returns (err: int)
      modifies this`pdnConflict, this`attempts, this`profile
      ensures (State(), err) == AskBare4(old(State()), err0, cfg, r, now)
    {
      err := err0;
      if err != 0 && pdnConflict != 0 && profile.apn.Some? && profile.profileIndex != 0 && cfg.exitOnConflict {
        var apn := profile.apn;
        profile := profile.(apn := None);
        err := SetupDataCall(V4, r.bare4, now);
        profile := profile.(apn := apn);
      }
    }

    method FinishV4(err: int, ip4: IpReply)
      modifies this`conflict4, this`profile, this`v4
      ensures State() == Settle4(old(State()), err, ip4)
    {
      if err != 0 {
        conflict4 := pdnConflict;
      }
      if err == 0 {
        profile := profile.(address := ip4.address);
        if ip4.err == 0 {
          v4 := CONNECTED;
        }
      }
    }

    /** The IPv6 block of START. */
    method StartV6(r: StartReplies, now: nat)
      modifies this
      ensures State() == Dial6(old(State()), cfg, r, now)
    {
      if profile.enable6 && v6 != CONNECTED {
        if profile.enable4 && cfg.ops != Qmi {
          v6 := v4;
        } else {
          var err := SetupDataCall(V6, r.setup6, now);
          if err != 0 && pdnConflict != 0 && profile.enable4 && v4 == CONNECTED && cfg.exitOnConflict {
            profile := profile.(enable6 := false);
            pdnConflict := 0;
          }
          if err == 0 {
            if r.ip6 == 0 {
              v6 := CONNECTED;
            }
          }
        }
      }
    }

    /** Both families, in the configured order: two passes over one loop body. */
    method StartBoth(r: StartReplies, now: nat)
      modifies this
      ensures State() == DialBoth(old(State()), cfg, r, now)
    {
      conflict4 := 0;
      var v6First := profile.enable4 && profile.enable6 && cfg.ops == Qmi && cfg.v6First;
      ghost var s0 := State();
      for pass := 0 to 2
        invariant pass == 0 ==> State() == s0
        invariant pass == 1 ==> State() == if v6First then Dial6(s0, cfg, r, now) else Dial4(s0, cfg, r, now)
        invariant pass == 2 ==> State() == DialBoth(old(State()), cfg, r, now)
      {
        if (pass == 0) != v6First {
          StartV4(r, now);
        } else {
          StartV6(r, now);
        }
      }
    }

    /** What follows dialling: leave on a conflict, hold off after a failure, or clear the count. */
    method AfterStart(clk: StartClocks)
      modifies this
      ensures State() == AfterDial(old(State()), cfg, clk)
    {
      var conflict := if profile.enable4 then conflict4 else pdnConflict;
      if conflict != 0 && cfg.exitOnConflict && (if profile.enable4 then v4 else v6) == DISCONNECTED {
        ChangeLink(0, false);
        exited := true;
        return;
      }
      if (profile.enable4 && v4 == DISCONNECTED) || (profile.enable6 && v6 == DISCONNECTED) {
        var allow := [5, 10, 20, 40, 60];
        var hold := if fails < |allow| then allow[fails] else 60;
        fails := (fails + 1) % U32;
        alarm := Some(clk.arm + 1000 * hold);
        allowTime := hold * 1000 + clk.hold;
      } else if v4 == CONNECTED || v6 == CONNECTED {
        fails := 0;
        allowTime := clk.hold;
      }
    }

    method HandleStart(r: StartReplies, clk: StartClocks)
      modifies this
      ensures State() == OnStart(old(State()), cfg, r, clk)
    {
      if ps != 1 && !profile.loopback {
        return;
      }
      if allowTime > clk.test {
        var seconds := RearmSeconds(allowTime, clk.rearm);
        alarm := if seconds == 0 then None else Some(clk.rearm + 1000 * seconds);
        return;
      }
      StartBoth(r, clk.test);
      AfterStart(clk);
    }

    method CheckV4(c: CheckReplies)
      modifies this`v4, this`profile
      ensures State() == Check4(old(State()), c)
    {
      if profile.enable4 && v4 != DISCONNECTED && c.err4 == 0 {
        v4 := c.status4;
        if v4 == CONNECTED && profile.address == 0 {
          profile := profile.(address := c.ip4.address);
          if c.ip4.err != 0 {
            v4 := DISCONNECTED;
          }
        }
        if v4 == CONNECTED {
          profile := profile.(address := c.checked);
          if !c.addressOk {
            v4 := DISCONNECTED;
          }
        }
      } else {
        v4 := DISCONNECTED;
      }
    }

    method CheckV6(c: CheckReplies)
      modifies this`v6
      ensures State() == Check6(old(State()), cfg, c)
    {
      if profile.enable6 && v6 != DISCONNECTED {
        if profile.enable4 && cfg.ops != Qmi {
          v6 := v4;
        } else if c.err6 == 0 {
          v6 := c.status6;
        }
      } else {
        v6 := DISCONNECTED;
      }
    }

    method UpdateLink()
      modifies this`link, this`profile
      ensures State() == CheckLink(old(State()))
    {
      if v4 == DISCONNECTED && v6 == DISCONNECTED {
        ChangeLink(0, false);
      } else if v4 == CONNECTED || v6 == CONNECTED {
        var bits := 0;
        if v4 == CONNECTED { bits := bits + 16; }
        if v6 == CONNECTED { bits := bits + 64; }
        ChangeLink(bits, v4 == CONNECTED);
      }
    }

    method HandleCheck(c: CheckReplies)
      modifies this
      ensures State() == OnCheck(old(State()), cfg, c)
    {
      if ps != 1 {
        ps := c.ps;
      }
      CheckV4(c);
      CheckV6(c);
      UpdateLink();
      if (profile.enable4 && v4 == DISCONNECTED) || (profile.enable6 && v6 == DISCONNECTED) {
        signals := signals + [Start];
      }
    }

    /** Reads one signal; reading cancels the alarm before anything else. */
    method HandleSignal(r: StartReplies, clk: StartClocks, c: CheckReplies)
      requires signals != []
      modifies this
      ensures State() == TakeSignal(old(State()), cfg, r, clk, c)
    {
      var signal := signals[0];
      signals := signals[1..];
      alarm := None;
      match signal
      case Start => HandleStart(r, clk);
      case Check => HandleCheck(c);
      case Stop =>
        ChangeLink(0, false);
        exited := true;
    }

    method HandleNetworkState(newPs: nat, now: nat)
      modifies this
      ensures State() == OnNetworkState(old(State()), newPs, now)
    {
      ps := newPs;
      if ps == 1 {
        if (profile.enable4 && v4 == DISCONNECTED) || (profile.enable6 && v6 == DISCONNECTED) {
          signals := signals + [Start];
        }
      } else {
        allowTime := now;
      }
    }

    method HandleDataCallList(now: nat)
      modifies this
      ensures State() == OnDataCallList(old(State()), now)
    {
      if v4 == CONNECTED || v6 == CONNECTED {
        allowTime := now + 1000;
      }
      signals := signals + [Check];
    }

    method HandleLoopback(on: bool)
      modifies this
      ensures State() == OnLoopback(old(State()), on)
    {
      profile := profile.(loopback := on);
      if profile.loopback {
        signals := signals + [Start];
      }
    }

    /** Leaving the loop. */
    method LeaveLoop()
      modifies this
      ensures State() == Quit(old(State()))
    {
      ChangeLink(0, false);
      exited := true;
    }

    /** What the loop does with one event of its two descriptors, or of the poll itself. */
    method Dispatch(e: Event)
      requires Enabled(State(), e)
      modifies this
      ensures State() == Step(old(State()), cfg, e)
    {
      hide TakeSignal, OnNetworkState, OnDataCallList, OnLoopback, Quit;
      match e {
        case Take(r, clk, c) => HandleSignal(r, clk, c);
        case AlarmFires(_) =>
          signals := signals + [Start];
          alarm := None;
        case PollTimeout => signals := signals + [Check];
        case Interrupt => signals := signals + [Stop];
        case DeviceGone => LeaveLoop();
        case ModemReset => LeaveLoop();
        case NetworkState(newPs, at) => HandleNetworkState(newPs, at);
        case DataCallList(at) => HandleDataCallList(at);
        case Loopback(on) => HandleLoopback(on);
      }
    }
  }
}

/** The event loop, and what the run theorems say of the engine after it. */
module DialLoop {
  import opened DialSpec
  import opened DialProofs
  import opened DialChecks
  import opened DialEngine

  /**
   The loop of qmi_main over whatever events come. The engine goes through the run of the
   model: the failure counter is the streak of failing STARTs, APN, credentials and the
   enabled families are as configured but for IPv6 going off, an owed redial is covered
   unless the race happened and no CHECK came since, and no interrupt is lost.
   */
  method MainLoop(engine: Engine, events: seq<Event>, ghost profile: Profile, ghost ps: nat, ghost v4: nat,
      ghost now: nat)
    requires engine.State() == Initial(profile, ps, v4, now) && EnabledRun(engine.State(), engine.cfg, events)
    modifies engine
    ensures engine.State() == Run(Initial(profile, ps, v4, now), engine.cfg, events)
    ensures engine.fails == Streak(Initial(profile, ps, v4, now), engine.cfg, events, 0) % U32
    ensures ProfileFollows(profile, engine.profile)
    ensures NoAlarmLost(Initial(profile, ps, v4, now), engine.cfg, events) ==> RedialKept(engine.State())
    ensures CheckedSince(Initial(profile, ps, v4, now), engine.cfg, events) ==> RedialKept(engine.State())
    ensures Interrupt in events ==> engine.exited || Stop in engine.signals
  {
    hide Step;
    ghost var s0 := engine.State();
    var i := 0;
    assert events[0..] == events;
    while i < |events|
      invariant 0 <= i <= |events|
      invariant EnabledRun(engine.State(), engine.cfg, events[i..])
      invariant Run(engine.State(), engine.cfg, events[i..]) == Run(s0, engine.cfg, events)
    {
      assert events[i..][0] == events[i] && events[i..][1..] == events[i + 1..];
      engine.Dispatch(events[i]);
      i := i + 1;
    }
    assert events[i..] == [];
    RunFails(s0, engine.cfg, events, 0);
    ProfileKeptRun(s0, engine.cfg, events);
    InitialRedial(profile, ps, v4, now);
    RedialIff(s0, engine.cfg, events);
    if CheckedSince(s0, engine.cfg, events) { RedialRegained(s0, engine.cfg, events); }
    if Interrupt in events { InterruptEnds(s0, engine.cfg, events); }
  }
}
