/**
 The pending AT command of `atchannel.c` as a state machine over its atomic steps: one
 command thread sends and waits, the reader thread hands over lines, and time-outs,
 spurious wake-ups and a closing channel may come at any point between them.
 */
module AtCommandSpec {
  import opened Common

  datatype Kind = NoResult | Numeric | SingleLine | MultiLine

  /**
   A command as its issuer gives it: `wants` says whether it asked for the response, and
   `silent` whether there is nothing to write, only an answer to wait for.
   */
  datatype Command = Command(kind: Kind, prefix: string, pdu: Option<string>, wants: bool, silent: bool)

  /** The response being filled; intermediate lines are kept newest first. */
  datatype Response = Response(id: nat, lines: seq<string>, final: Option<string>, success: bool)

  datatype Error = Done | TimedOut | ChannelClosed | NotWritten | CommandPending

  /** How a command ended, and every line handed over while it was pending. */
  datatype Outcome = Outcome(command: Command, raw: bool, handed: seq<string>, error: Error, response: Option<Response>)

  datatype Channel = Channel(
    proxy: bool,
    command: Command,
    pending: Option<Response>,
    pdu: Option<string>,
    raw: Option<string>,
    closed: bool,
    waiting: bool,
    unsolicited: seq<string>,
    written: seq<string>,
    issued: nat,
    freed: set<nat>,
    handed: seq<string>,
    rawAtSend: bool,
    outcomes: seq<Outcome>)

  const IDLE := Command(NoResult, "", None, false, false)

  function Open(proxy: bool): Channel {
    Channel(proxy, IDLE, None, None, None, false, false, [], [], 0, {}, [], false, [])
  }

  // ---- Lines ----

  const FINAL_SUCCESS: seq<string> := ["OK", "+QIND: \"FOTA\",\"END\",0", "CONNECT"]
  const FINAL_ERROR: seq<string> := [
    "ERROR", "+CMS ERROR:", "+CME ERROR:", "NO CARRIER", "NO ANSWER", "NO DIALTONE", "COMMAND NOT SUPPORT"]

  predicate StartsWithAny(line: string, prefixes: seq<string>) {
    exists i :: 0 <= i < |prefixes| && prefixes[i] <= line
  }

  predicate IsFinalSuccess(line: string) {
    StartsWithAny(line, FINAL_SUCCESS)
  }

  predicate IsFinalError(line: string) {
    StartsWithAny(line, FINAL_ERROR)
  }

  predicate IsFinal(line: string) {
    IsFinalSuccess(line) || IsFinalError(line)
  }

  predicate StartsWithDigit(line: string) {
    line != "" && '0' <= line[0] <= '9'
  }

  // ---- The reader's step ----

  function Unsolicited(s: Channel, line: string): Channel {
    s.(unsolicited := s.unsolicited + [line])
  }

  function Finished(s: Channel, r: Response, line: string, success: bool): Channel {
    var s1 := if s.proxy then Unsolicited(s, line) else s;
    s1.(pending := Some(r.(final := Some(line), success := success)))
  }

  /** Whether a line that is not final belongs to the response. */
  predicate Takes(command: Command, lines: seq<string>, line: string) {
    match command.kind
    case NoResult => false
    case Numeric => lines == [] && StartsWithDigit(line)
    case SingleLine => lines == [] && command.prefix <= line
    case MultiLine => command.prefix <= line
  }

  /** processLine. */
  function OnLine(s0: Channel, line: string): Channel {
    var s := if s0.waiting then s0.(handed := s0.handed + [line]) else s0;
    if s.pending.None? then Unsolicited(s, line)
    else if s.raw.Some? && line == "CONNECT" then Write(s, s.raw.value).(raw := None)
    else OnAwaited(s, line)
  }

  /** Writes to the modem, unless the channel is closed. */
  function Write(s: Channel, text: string): Channel {
    if s.closed then s else s.(written := s.written + [text])
  }

  /** A line for the pending command that does not ask for its raw data. */
  function OnAwaited(s: Channel, line: string): Channel
    requires s.pending.Some?
  {
    var r := s.pending.value;
    if IsFinalSuccess(line) then Finished(s, r, line, true)
    else if IsFinalError(line) then Finished(s, r, line, false)
    else if s.pdu.Some? && line == "> " then Write(s, s.pdu.value).(pdu := None)
    else if Takes(s.command, r.lines, line) then s.(pending := Some(r.(lines := [line] + r.lines)))
    else Unsolicited(s, line)
  }

  // ---- The command thread's steps ----

  function Reverse(lines: seq<string>): seq<string> {
    if lines == [] then [] else Reverse(lines[1..]) + [lines[0]]
  }

  /** clearPendingCommand: whatever is still pending is freed. */
  function Clear(s: Channel): Channel {
    s.(pending := None, pdu := None, waiting := false,
       freed := if s.pending.Some? then s.freed + {s.pending.value.id} else s.freed)
  }

  function Report(s: Channel, error: Error, response: Option<Response>): Channel {
    s.(outcomes := s.outcomes + [Outcome(s.command, s.rawAtSend, s.handed, error, response)])
  }

  /** The wait is over: the response goes to the caller, lines in arrival order, or is freed. */
  function Complete(s: Channel): Channel
    requires s.pending.Some?
  {
    var r := s.pending.value;
    var error := if s.closed then ChannelClosed else Done;
    if s.command.wants
    then Clear(Report(s, error, Some(r.(lines := Reverse(r.lines)))).(pending := None))
    else Clear(Report(s, error, None).(pending := None, freed := s.freed + {r.id}))
  }

  predicate MayReturn(s: Channel) {
    s.pending.Some? && (s.pending.value.final.Some? || s.closed)
  }

  /** at_send_command_full up to its wait; `writes` says whether writing the command succeeded. */
  function OnSend(s0: Channel, command: Command, raw: Option<string>, writes: bool): Channel {
    var s := if raw.Some? then s0.(raw := raw) else s0;
    if s.pending.Some? then Clear(Report(s, CommandPending, None))
    else if !command.silent && (!writes || s.closed)
      then Clear(Report(s.(command := command, handed := []), NotWritten, None))
    else
      s.(command := command, pdu := command.pdu, waiting := true, handed := [], rawAtSend := s.raw.Some?,
         pending := Some(Response(s.issued, [], None, false)), issued := s.issued + 1)
  }

  /** The wait returned without timing out: a signal, or a spurious wake-up. */
  function OnWake(s: Channel): Channel {
    if MayReturn(s) then Complete(s) else s
  }

  function OnTimeout(s: Channel): Channel {
    Clear(Report(s, TimedOut, None))
  }

  function OnClosed(s: Channel): Channel {
    s.(closed := true)
  }

  datatype Event = Send(command: Command, raw: Option<string>,
    writes: bool) | Line(line: string) | Wake | Timeout | Closed

  /** One command thread: it sends when it is not waiting, and wakes or times out only when it is. */
  predicate Enabled(s: Channel, e: Event) {
    match e
    case Send(_, _, _) => !s.waiting
    case Wake => s.waiting
    case Timeout => s.waiting
    case Line(_) => true
    case Closed => true
  }

  function Step(s: Channel, e: Event): Channel {
    match e
    case Send(command, raw, writes) => OnSend(s, command, raw, writes)
    case Line(line) => OnLine(s, line)
    case Wake => OnWake(s)
    case Timeout => OnTimeout(s)
    case Closed => OnClosed(s)
  }

  function Run(s: Channel, events: seq<Event>): Channel
    decreases |events|
  {
    if events == [] then s else Run(Step(s, events[0]), events[1..])
  }

  predicate EnabledRun(s: Channel, events: seq<Event>)
    decreases |events|
  {
    events == [] || (Enabled(s, events[0]) && EnabledRun(Step(s, events[0]), events[1..]))
  }
}

/** What every interleaving of the command thread and the reader keeps. */
module AtCommandProofs {
  import opened Common
  import opened AtCommandSpec

  function DropFirst(lines: seq<string>, line: string): seq<string> {
    if lines == [] then [] else if lines[0] == line then lines[1..] else [lines[0]] + DropFirst(lines[1..], line)
  }

  /** The handed lines less the prompt that sends the raw data and the prompt that sends the PDU. */
  function Effective(handed: seq<string>, raw: bool, pdu: bool): seq<string> {
    var h := if raw then DropFirst(handed, "CONNECT") else handed;
    if pdu then DropFirst(h, "> ") else h
  }

  predicate Candidate(command: Command, line: string) {
    !IsFinal(line) && if command.kind.Numeric? then StartsWithDigit(line) else command.prefix <= line
  }

  function Candidates(command: Command, lines: seq<string>): seq<string> {
    if lines == [] then []
    else
      var last := lines[|lines| - 1];
      Candidates(command, lines[..|lines| - 1]) + if Candidate(command, last) then [last] else []
  }

  /** What the response should hold, in arrival order. */
  function Expected(command: Command, lines: seq<string>): seq<string> {
    var all := Candidates(command, lines);
    match command.kind
    case NoResult => []
    case MultiLine => all
    case SingleLine => if all == [] then [] else [all[0]]
    case Numeric => if all == [] then [] else [all[0]]
  }

  function LastFinal(lines: seq<string>): Option<string> {
    if lines == [] then None
    else if IsFinal(lines[|lines| - 1]) then Some(lines[|lines| - 1])
    else LastFinal(lines[..|lines| - 1])
  }

  ghost predicate Faithful(command: Command, raw: bool, handed: seq<string>, r: Response, arrival: seq<string>) {
    var lines := Effective(handed, raw, command.pdu.Some?);
    && arrival == Expected(command, lines)
    && r.final == LastFinal(lines)
    && (r.final.Some? ==> (r.success <==> IsFinalSuccess(r.final.value)))
  }

  /** The command thread waits exactly while a response is pending, and the response tells what was handed over. */
  ghost predicate PendingOk(s: Channel) {
    && (s.waiting <==> s.pending.Some?)
    && (s.pending.Some? ==>
        && Faithful(s.command, s.rawAtSend, s.handed, s.pending.value, Reverse(s.pending.value.lines))
        && (s.pdu.Some? <==> s.command.pdu.Some? && "> " !in s.handed) && (s.pdu.Some? ==> s.pdu == s.command.pdu)
        && (s.raw.Some? <==> s.rawAtSend && "CONNECT" !in s.handed))
  }

  /** The last final line among the lines that count for a command. */
  ghost function FinalOf(command: Command, raw: bool, handed: seq<string>): Option<string> {
    LastFinal(Effective(handed, raw, command.pdu.Some?))
  }

  /**
   A command is done only once a final line came, and ends for a closed channel only if it
   is closed; whoever asked for the response then gets it, and only then.
   */
  ghost predicate OutcomeOk(o: Outcome, closed: bool) {
    && (o.response.Some? ==> Faithful(o.command, o.raw, o.handed, o.response.value, o.response.value.lines))
    && o.error != CommandPending
    && (o.error == Done ==> FinalOf(o.command, o.raw, o.handed).Some?)
    && (o.error == ChannelClosed ==> closed)
    && (o.response.Some? <==> o.command.wants && (o.error == Done || o.error == ChannelClosed))
  }

  ghost predicate OutcomesOk(s: Channel) {
    forall i :: 0 <= i < |s.outcomes| ==> OutcomeOk(s.outcomes[i], s.closed)
  }

  ghost function Delivered(outcomes: seq<Outcome>): seq<nat> {
    if outcomes == [] then []
    else
      var o := outcomes[|outcomes| - 1];
      Delivered(outcomes[..|outcomes| - 1]) + if o.response.Some? then [o.response.value.id] else []
  }

  ghost predicate NoRepeat(ids: seq<nat>) {
    forall i, j :: 0 <= i < j < |ids| ==> ids[i] != ids[j]
  }

  /** Every response ever allocated has one owner: it is pending, freed, or with the caller that got it. */
  ghost predicate OneOwner(s: Channel) {
    var given := Delivered(s.outcomes);
    && NoRepeat(given)
    && (forall n: nat :: n < s.issued <==>
        n in s.freed || n in given || (s.pending.Some? && s.pending.value.id == n))
    && (forall n :: n in given ==> n !in s.freed)
    && (s.pending.Some? ==> s.pending.value.id !in s.freed && s.pending.value.id !in given)
  }

  ghost predicate Kept(s: Channel) {
    PendingOk(s) && OutcomesOk(s) && OneOwner(s)
  }

  // ---- Lines ----

  lemma {:induction false} DropFirstAppend(lines: seq<string>, line: string, x: string)
    ensures DropFirst(lines + [x], line) ==
      if x == line && line !in lines then lines else DropFirst(lines, line) + [x]
  {
    if lines == [] {
      assert lines + [x] == [x];
    } else {
      DropFirstAppend(lines[1..], line, x);
      assert (lines + [x])[1..] == lines[1..] + [x];
      assert [lines[0]] + lines[1..] == lines;
    }
  }

  lemma {:induction false} DropFirstOther(lines: seq<string>, line: string, x: string)
    requires x != line
    ensures x in DropFirst(lines, line) <==> x in lines
  {
    if lines != [] {
      assert lines == [lines[0]] + lines[1..];
      DropFirstOther(lines[1..], line, x);
    }
  }

  lemma {:induction false} DropFirstAbsent(lines: seq<string>, line: string)
    requires line !in lines
    ensures DropFirst(lines, line) == lines
  {
    if lines != [] {
      DropFirstAbsent(lines[1..], line);
      assert lines == [lines[0]] + lines[1..];
    }
  }

  /** A handed line reaches the response unless it is the first of its prompt. */
  lemma {:induction false} EffectiveAppend(handed: seq<string>, raw: bool, pdu: bool, x: string)
    ensures var before := Effective(handed, raw, pdu);
      Effective(handed + [x], raw, pdu) ==
        if (raw && x == "CONNECT" && "CONNECT" !in handed)
          || (pdu && x == "> " && "> " !in handed) then before else before + [x]
  {
    hide DropFirst;
    var h := if raw then DropFirst(handed, "CONNECT") else handed;
    DropFirstAppend(handed, "CONNECT", x);
    DropFirstAppend(h, "> ", x);
    DropFirstOther(handed, "CONNECT", "> ");
    if "CONNECT" !in handed { DropFirstAbsent(handed, "CONNECT"); }
    if "> " !in h { DropFirstAbsent(h, "> "); }
  }

  lemma {:induction false} CandidatesAppend(command: Command, lines: seq<string>, x: string)
    ensures Candidates(command, lines + [x]) == Candidates(command, lines) + if Candidate(command, x) then [x] else []
    ensures LastFinal(lines + [x]) == if IsFinal(x) then Some(x) else LastFinal(lines)
  {
    assert (lines + [x])[..|lines + [x]| - 1] == lines;
  }

  lemma {:induction false} ReverseLength(lines: seq<string>)
    ensures |Reverse(lines)| == |lines|
  {
    if lines != [] { ReverseLength(lines[1..]); }
  }

  lemma {:induction false} ReverseCons(line: string, lines: seq<string>)
    ensures Reverse([line] + lines) == Reverse(lines) + [line]
  {
    assert ([line] + lines)[1..] == lines;
  }

  lemma {:induction false} ExpectedAppend(command: Command, lines: seq<string>, got: seq<string>, x: string)
    requires Reverse(got) == Expected(command, lines) && !IsFinal(x)
    ensures Reverse(if Takes(command, got, x) then [x] + got else got) == Expected(command, lines + [x])
  {
    hide IsFinal;
    CandidatesAppend(command, lines, x);
    ReverseCons(x, got);
    ReverseLength(got);
  }

  lemma {:induction false} ExpectedFinal(command: Command, lines: seq<string>, x: string)
    requires IsFinal(x)
    ensures Expected(command, lines + [x]) == Expected(command, lines)
  {
    hide IsFinal;
    CandidatesAppend(command, lines, x);
  }

  // ---- Steps ----

  lemma {:induction false} FinalsDisjoint(line: string)
    ensures line == "> " ==> !IsFinal(line)
    ensures line == "CONNECT" ==> IsFinalSuccess(line)
  {
    assert FINAL_SUCCESS[2] <= "CONNECT";
    assert forall i :: 0 <= i < |FINAL_SUCCESS| ==> FINAL_SUCCESS[i][0] != '>';
    assert forall i :: 0 <= i < |FINAL_ERROR| ==> FINAL_ERROR[i][0] != '>';
  }

  lemma {:induction false} LineKeeps(s: Channel, line: string)
    requires PendingOk(s) && s.pending.Some?
    ensures PendingOk(OnLine(s, line))
  {
    hide IsFinalSuccess, IsFinalError, Effective, Expected, Candidates, LastFinal, Reverse, Takes;
    var r := s.pending.value;
    var lines := Effective(s.handed, s.rawAtSend, s.command.pdu.Some?);
    EffectiveAppend(s.handed, s.rawAtSend, s.command.pdu.Some?, line);
    FinalsDisjoint(line);
    CandidatesAppend(s.command, lines, line);
    if IsFinal(line) {
      ExpectedFinal(s.command, lines, line);
    } else {
      ExpectedAppend(s.command, lines, r.lines, line);
    }
  }

  lemma {:induction false} StepKeepsPending(s: Channel, e: Event)
    requires PendingOk(s) && Enabled(s, e)
    ensures PendingOk(Step(s, e))
  {
    match e
    case Line(line) => if s.pending.Some? { LineKeeps(s, line); }
    case Send(_, _, _) =>
    case Wake =>
    case Timeout =>
    case Closed =>
  }

  /** The reader touches nothing but the response being filled. */
  lemma {:induction false} LineLeaves(s: Channel, line: string)
    ensures var after := OnLine(s, line);
      && after.outcomes == s.outcomes && after.freed == s.freed && after.issued == s.issued
      && (after.pending.Some? <==> s.pending.Some?)
      && (s.pending.Some? ==> after.pending.value.id == s.pending.value.id)
      && after.closed == s.closed
  {
    if s.pending.Some? {
      AwaitedLeaves(if s.waiting then s.(handed := s.handed + [line]) else s, line);
    }
    hide OnAwaited;
  }

  lemma {:induction false} AwaitedLeaves(s: Channel, line: string)
    requires s.pending.Some?
    ensures var after := OnAwaited(s, line);
      && after.outcomes == s.outcomes && after.freed == s.freed && after.issued == s.issued
      && after.pending.Some? && after.pending.value.id == s.pending.value.id && after.closed == s.closed
  {
    var r := s.pending.value;
    PassedOnLeaves(s, line);
    FinishedLeaves(s, r, line, true);
    FinishedLeaves(s, r, line, false);
    hide IsFinalSuccess, IsFinalError, Takes, Finished, Unsolicited;
  }

  lemma {:induction false} PassedOnLeaves(s: Channel, line: string)
    ensures var after := Unsolicited(s, line);
      && after.outcomes == s.outcomes && after.freed == s.freed && after.issued == s.issued
      && after.pending == s.pending && after.closed == s.closed
  {
  }

  lemma {:induction false} FinishedLeaves(s: Channel, r: Response, line: string, success: bool)
    requires s.pending == Some(r)
    ensures var after := Finished(s, r, line, success);
      && after.outcomes == s.outcomes && after.freed == s.freed && after.issued == s.issued
      && after.pending.Some? && after.pending.value.id == r.id && after.closed == s.closed
  {
    PassedOnLeaves(s, line);
    hide Unsolicited;
  }

  lemma {:induction false} StepKeepsOutcomes(s: Channel, e: Event)
    requires PendingOk(s) && OutcomesOk(s) && Enabled(s, e)
    ensures OutcomesOk(Step(s, e)) && s.outcomes <= Step(s, e).outcomes
  {
    hide Faithful, FinalOf, OnLine, Reverse, OnSend, OnWake, OnTimeout;
    match e {
      case Line(line) => LineLeaves(s, line);
      case Send(command, raw, writes) => SendReports(s, command, raw, writes);
      case Timeout => TimeoutReports(s);
      case Wake => WakeReports(s);
      case Closed =>
    }
  }

  lemma {:induction false} SendReports(s: Channel, command: Command, raw: Option<string>, writes: bool)
    requires OutcomesOk(s) && s.pending.None?
    ensures OutcomesOk(OnSend(s, command, raw, writes)) && s.outcomes <= OnSend(s, command, raw, writes).outcomes
  {
    hide Faithful, FinalOf;
  }

  lemma {:induction false} TimeoutReports(s: Channel)
    requires OutcomesOk(s)
    ensures OutcomesOk(OnTimeout(s)) && s.outcomes <= OnTimeout(s).outcomes
  {
    hide Faithful, FinalOf;
  }

  lemma {:induction false} WakeReports(s: Channel)
    requires PendingOk(s) && OutcomesOk(s) && s.waiting
    ensures OutcomesOk(OnWake(s)) && s.outcomes <= OnWake(s).outcomes
  {
    hide Faithful, Reverse, OutcomesOk;
    if MayReturn(s) {
      var r := s.pending.value;
      var error := if s.closed then ChannelClosed else Done;
      var given := if s.command.wants then Some(r.(lines := Reverse(r.lines))) else None;
      FaithfulReordered(s.command, s.rawAtSend, s.handed, r, Reverse(r.lines));
      FinalSeen(s);
      OneMoreOutcome(s, OnWake(s), Outcome(s.command, s.rawAtSend, s.handed, error, given));
    }
  }

  lemma {:induction false} OneMoreOutcome(s: Channel, after: Channel, o: Outcome)
    requires OutcomesOk(s) && after.outcomes == s.outcomes + [o] && OutcomeOk(o, s.closed) && after.closed == s.closed
    ensures OutcomesOk(after)
  {
    hide OutcomeOk;
  }

  /** The pending response has a final line exactly if one was handed over. */
  lemma {:induction false} FinalSeen(s: Channel)
    requires PendingOk(s) && s.pending.Some?
    ensures s.pending.value.final == FinalOf(s.command, s.rawAtSend, s.handed)
  {
  }

  /** A wake-up ends the wait if and only if a final line was handed over or the channel is closed. */
  lemma {:induction false} WakeEndsIff(s: Channel)
    requires PendingOk(s) && s.waiting
    ensures var t := Step(s, Wake); var over := FinalOf(s.command, s.rawAtSend, s.handed).Some? || s.closed;
      if over then !t.waiting && Ended(s, t, if s.closed then ChannelClosed else Done) else t == s
  {
    hide FinalOf, Complete;
    FinalSeen(s);
    hide PendingOk;
    if s.pending.Some? { CompleteReports(s); }
  }

  lemma {:induction false} CompleteReports(s: Channel)
    requires s.pending.Some?
    ensures var t := Complete(s);
      && !t.waiting && Ended(s, t, if s.closed then ChannelClosed else Done)
      && t.unsolicited == s.unsolicited && t.written == s.written
  {
    hide Reverse;
  }

  /** A command is waited for if and only if it was written or there is nothing to write; else that is reported. */
  lemma {:induction false} SendWaitsIff(s: Channel, command: Command, raw: Option<string>, writes: bool)
    requires PendingOk(s) && !s.waiting
    ensures var t := Step(s, Send(command, raw, writes));
      && t.raw == (if raw.Some? then raw else s.raw)
      && if command.silent || (writes && !s.closed)
         then t.waiting && t.command == command && t.handed == [] && t.pdu == command.pdu && t.outcomes == s.outcomes
         else !t.waiting && |t.outcomes| == |s.outcomes| + 1 && t.outcomes[|s.outcomes|].error == NotWritten
  {
    assert s.pending.None?;
    hide PendingOk;
  }

  /** The channel is closed after a run exactly if it was before or closed in it. */
  lemma {:induction false} ClosedIff(s: Channel, events: seq<Event>)
    ensures Run(s, events).closed <==> s.closed || Closed in events
    decreases |events|
  {
    if events != [] {
      ClosedStep(s, events[0]);
      assert events == [events[0]] + events[1..];
      hide Step;
      ClosedIff(Step(s, events[0]), events[1..]);
    }
  }

  lemma {:induction false} ClosedStep(s: Channel, e: Event)
    ensures Step(s, e).closed <==> s.closed || e == Closed
  {
    hide OnLine, Reverse;
    if e.Line? { LineLeaves(s, e.line); }
  }

  /** A time-out ends the wait with nothing given out. */
  lemma {:induction false} TimeoutEnds(s: Channel)
    ensures !Step(s, Timeout).waiting && Ended(s, Step(s, Timeout), TimedOut)
  {
  }

  ghost predicate Ended(s: Channel, t: Channel, error: Error) {
    && |t.outcomes| == |s.outcomes| + 1 && s.outcomes <= t.outcomes
    && var o := t.outcomes[|s.outcomes|];
    o.command == s.command && o.raw == s.rawAtSend && o.handed == s.handed && o.error == error
  }

  lemma {:induction false} FaithfulReordered(command: Command, raw: bool, handed: seq<string>, r: Response,
      arrival: seq<string>)
    requires Faithful(command, raw, handed, r, arrival)
    ensures Faithful(command, raw, handed, r.(lines := arrival), arrival)
  {
  }

  lemma {:induction false} DeliveredAppend(outcomes: seq<Outcome>, o: Outcome)
    ensures Delivered(outcomes + [o]) == Delivered(outcomes) + if o.response.Some? then [o.response.value.id] else []
  {
    assert (outcomes + [o])[..|outcomes + [o]| - 1] == outcomes;
  }

  lemma {:induction false} GivenAppend(given: seq<nat>, id: nat)
    requires NoRepeat(given) && id !in given
    ensures NoRepeat(given + [id])
    ensures forall n :: n in given + [id] <==> n in given || n == id
  {
  }

  lemma {:induction false} CompleteKeepsOwner(s: Channel)
    requires OneOwner(s) && s.pending.Some?
    ensures OneOwner(Complete(s))
  {
    hide Reverse, Delivered;
    var after := Complete(s);
    DeliveredAppend(s.outcomes, after.outcomes[|s.outcomes|]);
    if s.command.wants {
      GivenAppend(Delivered(s.outcomes), s.pending.value.id);
    } else {
      assert Delivered(after.outcomes) == Delivered(s.outcomes);
    }
  }

  lemma {:induction false} ClearKeepsOwner(s: Channel, error: Error)
    requires OneOwner(s)
    ensures OneOwner(Clear(Report(s, error, None)))
  {
    hide Delivered;
    var after := Clear(Report(s, error, None));
    DeliveredAppend(s.outcomes, after.outcomes[|s.outcomes|]);
    assert Delivered(after.outcomes) == Delivered(s.outcomes);
  }

  lemma {:induction false} IssueKeepsOwner(s: Channel, after: Channel)
    requires OneOwner(s) && s.pending.None?
    requires after.outcomes == s.outcomes && after.freed == s.freed && after.issued == s.issued + 1
    requires after.pending.Some? && after.pending.value.id == s.issued
    ensures OneOwner(after)
  {
    hide Delivered;
    assert !(s.issued < s.issued);
  }

  lemma {:induction false} StepKeepsOwner(s: Channel, e: Event)
    requires PendingOk(s) && OneOwner(s) && Enabled(s, e)
    ensures OneOwner(Step(s, e))
  {
    hide Faithful, OnLine, Complete, Delivered;
    match e
    case Line(line) => LineLeaves(s, line);
    case Send(command, raw, writes) =>
      var s1 := if raw.Some? then s.(raw := raw) else s;
      if !command.silent && (!writes || s.closed) {
        ClearKeepsOwner(s1.(command := command, handed := []), NotWritten);
      } else {
        IssueKeepsOwner(s, Step(s, e));
      }
    case Wake => if MayReturn(s) { CompleteKeepsOwner(s); }
    case Timeout => ClearKeepsOwner(s, TimedOut);
    case Closed =>
  }

  lemma {:induction false} StepKeeps(s: Channel, e: Event)
    requires Kept(s) && Enabled(s, e)
    ensures Kept(Step(s, e))
  {
    hide PendingOk, OutcomesOk, OneOwner;
    StepKeepsPending(s, e);
    StepKeepsOutcomes(s, e);
    StepKeepsOwner(s, e);
  }

  lemma {:induction false} RunKeeps(s: Channel, events: seq<Event>)
    requires Kept(s) && EnabledRun(s, events)
    ensures Kept(Run(s, events))
    decreases |events|
  {
    if events != [] {
      hide Kept, Step;
      StepKeeps(s, events[0]);
      RunKeeps(Step(s, events[0]), events[1..]);
    }
  }

  /**
   For every interleaving from the moment the channel opens: each response given out holds
   exactly the expected lines in arrival order and the last final line, a command is done
   only once a final line came, the pending-command error never occurs, and every response
   has one owner.
   */
  lemma {:induction false} ResponsesFaithful(proxy: bool, events: seq<Event>)
    requires EnabledRun(Open(proxy), events)
    ensures var s := Run(Open(proxy), events);
      && (forall i :: 0 <= i < |s.outcomes| && s.outcomes[i].response.Some? ==>
          var o := s.outcomes[i];
          var lines := Effective(o.handed, o.raw, o.command.pdu.Some?);
          && o.response.value.lines == Expected(o.command, lines)
          && o.response.value.final == LastFinal(lines))
      && (forall i :: 0 <= i < |s.outcomes| ==>
          var o := s.outcomes[i];
          && o.error != CommandPending
          && (o.error == Done ==> LastFinal(Effective(o.handed, o.raw, o.command.pdu.Some?)).Some?)
          && (o.error == ChannelClosed ==> s.closed)
          && (o.response.Some? <==> o.command.wants && (o.error == Done || o.error == ChannelClosed)))
      && OneOwner(s)
      && (!s.waiting ==> s.pending.None?)
  {
    RunKeeps(Open(proxy), events);
  }
}
