/**
 The dial engine of `main.c` (qmi_main) on values: START, CHECK and STOP signals, an
 alarm, a hold time after failures, two address families and a PDN-conflict policy.
 Modem replies and clock readings are inputs of each step.
 */
module DialSpec {
  import opened Common

  const UNKNOWN: nat := 0
  const DISCONNECTED: nat := 1
  const CONNECTED: nat := 2
  const V4: nat := 4
  const V6: nat := 6
  const U32: nat := 0x1_0000_0000
  const U64: nat := 0x1_0000_0000_0000_0000

  datatype Ops = Qmi | Mbim | Atc
  datatype Signal = Start | Check | Stop

  /** Which request set drives the modem, and the environment switches. */
  datatype Config = Config(ops: Ops, v6First: bool, exitOnConflict: bool)

  datatype Profile = Profile(
    enable4: bool,
    enable6: bool,
    apn: Option<string>,
    user: Option<string>,
    pd: Option<string>,
    auth: int,
    profileIndex: int,
    loopback: bool,
    address: nat)

  /** A data call that was asked for: with which settings, and how it ended. */
  datatype Attempt = Attempt(family: nat, apn: Option<string>, auth: int, err: int, conflict: nat, time: nat)

  datatype Session = Session(
    ps: nat,
    v4: nat,
    v6: nat,
    fails: nat,
    allowTime: nat,
    conflict: nat,
    conflict4: nat,
    link: int,
    profile: Profile,
    signals: seq<Signal>,
    alarm: Option<nat>,
    exited: bool,
    attempts: seq<Attempt>)

  // ---- Replies ----

  /** What the modem says to a data-call request; `reason` is its end-reason type and value. */
  datatype SetupReply = NoAnswer(code: int) | Answer(result: nat, error: nat, reason: Option<(nat, nat)>)

  datatype Outcome = Outcome(err: int, conflict: nat)

  predicate ConflictReason(kind: nat, value: nat) {
    (kind == 6 && value == 55) || (kind == 2 && (value == 209 || value == 211))
  }

  /** requestSetupDataCall: only the QMI request set touches the conflict code. */
  function SetupOutcome(ops: Ops, before: nat, reply: SetupReply): Outcome {
    match reply
    case NoAnswer(code) => Outcome(code, if ops.Qmi? then 0 else before)
    case Answer(result, error, reason) =>
      if !ops.Qmi? then Outcome(error, before)
      else if result == 0 && error == 0 then Outcome(0, 0)
      else Outcome(error, if reason.Some? && ConflictReason(reason.value.0, reason.value.1) then reason.value.1 else 0)
  }

  datatype IpReply = IpReply(err: int, address: nat)

  datatype StartReplies = StartReplies(
    first4: SetupReply, alternate4: SetupReply, bare4: SetupReply, ip4: IpReply, setup6: SetupReply, ip6: int)

  /** Clock readings of one START: the hold test, the re-arm, the alarm call, the new hold. */
  datatype StartClocks = StartClocks(test: nat, rearm: nat, arm: nat, hold: nat)

  datatype CheckReplies = CheckReplies(
    ps: nat, err4: int, status4: nat, ip4: IpReply, addressOk: bool, checked: nat, err6: int, status6: nat)

  // ---- Helpers ----

  predicate NonEmpty(s: Option<string>) {
    s.Some? && s.value != ""
  }

  predicate SomeDown(s: Session) {
    (s.profile.enable4 && s.v4 == DISCONNECTED) || (s.profile.enable6 && s.v6 == DISCONNECTED)
  }

  function Post(s: Session, signal: Signal): Session {
    s.(signals := s.signals + [signal])
  }

  /** usbnet_link_change; bit 4 of the link says IPv4 is up. */
  function LinkChange(s: Session, link: int, v4Up: bool): Session {
    if s.link == link then s
    else s.(link := link, profile := if v4Up then s.profile else s.profile.(address := 0))
  }

  function LinkOf(v4Up: bool, v6Up: bool): int {
    (if v4Up then 16 else 0) + (if v6Up then 64 else 0)
  }

  function Quit(s: Session): Session {
    LinkChange(s, 0, false).(exited := true)
  }

  /** Seconds given to alarm() when a START comes too early, in unsigned 64-bit and then 32-bit arithmetic. */
  function RearmSeconds(allowTime: nat, now: nat): nat {
    ((allowTime - now + 999) % U64) / 1000 % U32
  }

  function SetAlarm(s: Session, now: nat, seconds: nat): Session {
    s.(alarm := if seconds == 0 then None else Some(now + 1000 * seconds))
  }

  // ---- START ----

  function Tried(s: Session, cfg: Config, family: nat, apn: Option<string>, auth: int, reply: SetupReply,
      now: nat): (Session, int) {
    var o := SetupOutcome(cfg.ops, s.conflict, reply);
    (s.(conflict := o.conflict, attempts := s.attempts + [Attempt(family, apn, auth, o.err, o.conflict, now)]), o.err)
  }

  function OtherAuth(auth: int): int {
    if auth == 1 then 2 else 1
  }

  /** The first IPv4 request and, when credentials are set and the network refused, one with the other auth mode. */
  function Ask4(s: Session, cfg: Config, r: StartReplies, now: nat): (Session, int) {
    var p := s.profile;
    var (s1, e1) := Tried(s, cfg, V4, p.apn, p.auth, r.first4, now);
    if e1 > 0 && NonEmpty(p.user) && NonEmpty(p.pd) then
      var (s2, e2) := Tried(s1, cfg, V4, p.apn, OtherAuth(p.auth), r.alternate4, now);
      (if e2 == 0 then s2.(profile := p.(auth := OtherAuth(p.auth))) else s2, e2)
    else (s1, e1)
  }

  /** After a conflict, one more request on the profile alone. */
  function AskBare4(s: Session, err: int, cfg: Config, r: StartReplies, now: nat): (Session, int) {
    if err != 0 && s.conflict != 0 && s.profile.apn.Some? && s.profile.profileIndex != 0 && cfg.exitOnConflict
    then Tried(s, cfg, V4, None, s.profile.auth, r.bare4, now)
    else (s, err)
  }

  function Settle4(s: Session, err: int, ip4: IpReply): Session {
    if err != 0 then s.(conflict4 := s.conflict)
    else s.(profile := s.profile.(address := ip4.address), v4 := if ip4.err == 0 then CONNECTED else s.v4)
  }

  function Dial4(s: Session, cfg: Config, r: StartReplies, now: nat): Session {
    if !s.profile.enable4 || s.v4 == CONNECTED then s
    else
      var (s1, e1) := Ask4(s, cfg, r, now);
      var (s2, e2) := AskBare4(s1, e1, cfg, r, now);
      Settle4(s2, e2, r.ip4)
  }

  predicate GiveUp6(s: Session, err: int, cfg: Config) {
    err != 0 && s.conflict != 0 && s.profile.enable4 && s.v4 == CONNECTED && cfg.exitOnConflict
  }

  function Dial6(s: Session, cfg: Config, r: StartReplies, now: nat): Session {
    if !s.profile.enable6 || s.v6 == CONNECTED then s
    else if s.profile.enable4 && !cfg.ops.Qmi? then s.(v6 := s.v4)
    else
      var (s1, err) := Tried(s, cfg, V6, s.profile.apn, s.profile.auth, r.setup6, now);
      var s2 := if GiveUp6(s1, err, cfg) then s1.(profile := s1.profile.(enable6 := false), conflict := 0) else s1;
      if err == 0 && r.ip6 == 0 then s2.(v6 := CONNECTED) else s2
  }

  predicate V6First(s: Session, cfg: Config) {
    s.profile.enable4 && s.profile.enable6 && cfg.ops.Qmi? && cfg.v6First
  }

  function DialBoth(s: Session, cfg: Config, r: StartReplies, now: nat): Session {
    var s0 := s.(conflict4 := 0);
    if V6First(s, cfg) then Dial4(Dial6(s0, cfg, r, now), cfg, r, now) else Dial6(Dial4(s0, cfg, r, now), cfg, r, now)
  }

  /** The family that decides the session was refused for good. */
  predicate ConflictExit(s: Session, cfg: Config) {
    && cfg.exitOnConflict
    && (if s.profile.enable4 then s.conflict4 != 0 else s.conflict != 0)
    && (if s.profile.enable4 then s.v4 else s.v6) == DISCONNECTED
  }

  function HoldSeconds(fails: nat): nat {
    if fails == 0 then 5 else if fails == 1 then 10 else if fails == 2 then 20 else if fails == 3 then 40 else 60
  }

  function AfterDial(s: Session, cfg: Config, clk: StartClocks): Session {
    if ConflictExit(s, cfg) then Quit(s)
    else if SomeDown(s) then
      var hold := HoldSeconds(s.fails);
      SetAlarm(s, clk.arm, hold).(fails := (s.fails + 1) % U32, allowTime := hold * 1000 + clk.hold)
    else if s.v4 == CONNECTED || s.v6 == CONNECTED then s.(fails := 0, allowTime := clk.hold)
    else s
  }

  predicate MayDial(s: Session) {
    s.ps == 1 || s.profile.loopback
  }

  function OnStart(s: Session, cfg: Config, r: StartReplies, clk: StartClocks): Session {
    if !MayDial(s) then s
    else if s.allowTime > clk.test then SetAlarm(s, clk.rearm, RearmSeconds(s.allowTime, clk.rearm))
    else AfterDial(DialBoth(s, cfg, r, clk.test), cfg, clk)
  }

  // ---- CHECK ----

  function Check4(s: Session, r: CheckReplies): Session {
    if !s.profile.enable4 || s.v4 == DISCONNECTED || r.err4 != 0 then s.(v4 := DISCONNECTED)
    else
      var s1 := s.(v4 := r.status4);
      var s2 :=
        if s1.v4 == CONNECTED && s1.profile.address == 0
        then s1.(profile := s1.profile.(address := r.ip4.address), v4 := if r.ip4.err != 0 then DISCONNECTED
          else CONNECTED)
        else s1;
      if s2.v4 != CONNECTED then s2
      else s2.(profile := s2.profile.(address := r.checked), v4 := if r.addressOk then CONNECTED else DISCONNECTED)
  }

  function Check6(s: Session, cfg: Config, r: CheckReplies): Session {
    if !s.profile.enable6 || s.v6 == DISCONNECTED then s.(v6 := DISCONNECTED)
    else if s.profile.enable4 && !cfg.ops.Qmi? then s.(v6 := s.v4)
    else if r.err6 == 0 then s.(v6 := r.status6)
    else s
  }

  function CheckLink(s: Session): Session {
    if s.v4 == DISCONNECTED && s.v6 == DISCONNECTED then LinkChange(s, 0, false)
    else if s.v4 == CONNECTED || s.v6 == CONNECTED
    then LinkChange(s, LinkOf(s.v4 == CONNECTED, s.v6 == CONNECTED), s.v4 == CONNECTED)
    else s
  }

  function OnCheck(s: Session, cfg: Config, r: CheckReplies): Session {
    var s0 := if s.ps != 1 then s.(ps := r.ps) else s;
    var s1 := CheckLink(Check6(Check4(s0, r), cfg, r));
    if SomeDown(s1) then Post(s1, Start) else s1
  }

  // ---- Events of the loop ----

  datatype Event =
    | Take(replies: StartReplies, clocks: StartClocks, checks: CheckReplies)
    | AlarmFires(at: nat)
    | PollTimeout
    | Interrupt
    | DeviceGone
    | ModemReset
    | NetworkState(ps: nat, at: nat)
    | DataCallList(at: nat)
    | Loopback(on: bool)

  /** Reading one signal cancels the alarm first. */
  function TakeSignal(s: Session, cfg: Config, r: StartReplies, clk: StartClocks, c: CheckReplies): Session
    requires s.signals != []
  {
    var s0 := s.(signals := s.signals[1..], alarm := None);
    match s.signals[0]
    case Start => OnStart(s0, cfg, r, clk)
    case Check => OnCheck(s0, cfg, c)
    case Stop => Quit(s0)
  }

  function OnNetworkState(s: Session, ps: nat, at: nat): Session {
    var s1 := s.(ps := ps);
    if ps != 1 then s1.(allowTime := at) else if SomeDown(s1) then Post(s1, Start) else s1
  }

  function OnDataCallList(s: Session, at: nat): Session {
    Post(if s.v4 == CONNECTED || s.v6 == CONNECTED then s.(allowTime := at + 1000) else s, Check)
  }

  function OnLoopback(s: Session, on: bool): Session {
    var s1 := s.(profile := s.profile.(loopback := on));
    if on then Post(s1, Start) else s1
  }

  predicate Enabled(s: Session, e: Event) {
    && !s.exited
    && (e.Take? ==> s.signals != [])
    && (e.AlarmFires? ==> s.alarm.Some? && s.alarm.value <= e.at)
  }

  function Step(s: Session, cfg: Config, e: Event): Session
    requires Enabled(s, e)
  {
    match e
    case Take(r, clk, c) => TakeSignal(s, cfg, r, clk, c)
    case AlarmFires(_) => Post(s, Start).(alarm := None)
    case PollTimeout => Post(s, Check)
    case Interrupt => Post(s, Stop)
    case DeviceGone => Quit(s)
    case ModemReset => Quit(s)
    case NetworkState(ps, at) => OnNetworkState(s, ps, at)
    case DataCallList(at) => OnDataCallList(s, at)
    case Loopback(on) => OnLoopback(s, on)
  }

  predicate EnabledRun(s: Session, cfg: Config, events: seq<Event>)
    decreases |events|
  {
    events == [] || (Enabled(s, events[0]) && EnabledRun(Step(s, cfg, events[0]), cfg, events[1..]))
  }

  function Run(s: Session, cfg: Config, events: seq<Event>): Session
    requires EnabledRun(s, cfg, events)
    decreases |events|
  {
    if events == [] then s else Run(Step(s, cfg, events[0]), cfg, events[1..])
  }

  /** The loop as it is entered: one CHECK queued. */
  function Initial(profile: Profile, ps: nat, v4: nat, now: nat): Session {
    Session(ps, v4, UNKNOWN, 0, now, 0, 0, -1, profile, [Check], None, false, [])
  }
}
