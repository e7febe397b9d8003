/**
 Where every line of the AT channel goes, over every interleaving: it answers a prompt, ends
 the pending command, becomes part of its response, or is passed on as unsolicited.
 */
module AtCommandLines {
  import opened Common
  import opened AtCommandSpec
  import opened AtCommandProofs

  /** The line is the first CONNECT for a command with raw data to send. */
  ghost predicate AsksRaw(s: Channel, line: string) {
    s.rawAtSend && line == "CONNECT" && "CONNECT" !in s.handed
  }

  /** The line is the first prompt for a command with a PDU to send. */
  ghost predicate AsksPdu(s: Channel, line: string) {
    s.command.pdu.Some? && line == "> " && "> " !in s.handed
  }

  /** The line belongs to the response: it fits, and it is the first to fit where only one is wanted. */
  ghost predicate Belongs(s: Channel, line: string) {
    && Candidate(s.command, line) && s.command.kind != NoResult
    && (s.command.kind == MultiLine
        || Expected(s.command, Effective(s.handed, s.rawAtSend, s.command.pdu.Some?)) == [])
  }

  /** What a line makes the channel pass on and write, by the command it finds and the lines handed over for it. */
  ghost predicate Placed(s: Channel, line: string, passed: seq<string>, wrote: seq<string>) {
    if !s.waiting then passed == [line] && wrote == []
    else if AsksRaw(s, line) then passed == [] && s.raw.Some? && wrote == if s.closed then [] else [s.raw.value]
    else if IsFinal(line) then passed == (if s.proxy then [line] else []) && wrote == []
    else if AsksPdu(s, line) then passed == [] && wrote == if s.closed then [] else [s.command.pdu.value]
    else passed == (if Belongs(s, line) then [] else [line]) && wrote == []
  }

  ghost predicate Told(s: Channel, e: Event, passed: seq<string>, wrote: seq<string>) {
    if e.Line? then Placed(s, e.line, passed, wrote) else passed == [] && wrote == []
  }

  ghost predicate AllTold(s: Channel, events: seq<Event>, passed: seq<string>, wrote: seq<string>)
    decreases |events|
  {
    if events == [] then passed == [] && wrote == []
    else exists i: nat, j: nat ::
      && i <= |passed| && j <= |wrote| && Told(s, events[0], passed[..i], wrote[..j])
      && AllTold(Step(s, events[0]), events[1..], passed[i..], wrote[j..])
  }

  /** The response takes a line exactly if it belongs. */
  lemma {:induction false} TakesIff(s: Channel, line: string)
    requires PendingOk(s) && s.pending.Some? && !IsFinal(line)
    ensures Takes(s.command, s.pending.value.lines, line) <==> Belongs(s, line)
  {
    hide IsFinal, Effective, Candidates;
    ReverseLength(s.pending.value.lines);
  }

  lemma {:induction false} LineTold(s: Channel, line: string) returns (passed: seq<string>, wrote: seq<string>)
    requires PendingOk(s)
    ensures OnLine(s, line).unsolicited == s.unsolicited + passed && OnLine(s, line).written == s.written + wrote
    ensures Placed(s, line, passed, wrote)
  {
    passed, wrote := [], [];
    assert s.unsolicited + [] == s.unsolicited && s.written + [] == s.written;
    if !s.waiting {
      passed := [line];
    } else if AsksRaw(s, line) {
      if !s.closed { wrote := [s.raw.value]; }
    } else {
      FinalsDisjoint(line);
      passed, wrote := AwaitedTold(s, line);
    }
  }

  lemma {:induction false} AwaitedTold(s: Channel, line: string) returns (passed: seq<string>, wrote: seq<string>)
    requires PendingOk(s) && s.waiting && !AsksRaw(s, line) && (line == "> " ==> !IsFinal(line))
    ensures OnLine(s, line).unsolicited == s.unsolicited + passed && OnLine(s, line).written == s.written + wrote
    ensures Placed(s, line, passed, wrote)
  {
    if !IsFinal(line) { TakesIff(s, line); }
    hide Faithful, Takes, Belongs, IsFinalSuccess, IsFinalError;
    passed, wrote := [], [];
    assert s.unsolicited + [] == s.unsolicited && s.written + [] == s.written;
    if IsFinal(line) {
      if s.proxy { passed := [line]; }
    } else if AsksPdu(s, line) {
      if !s.closed { wrote := [s.command.pdu.value]; }
    } else if !Belongs(s, line) {
      passed := [line];
    }
  }

  lemma {:induction false} StepTells(s: Channel, e: Event) returns (passed: seq<string>, wrote: seq<string>)
    requires PendingOk(s) && Enabled(s, e)
    ensures Step(s, e).unsolicited == s.unsolicited + passed && Step(s, e).written == s.written + wrote
    ensures Told(s, e, passed, wrote)
  {
    if e.Line? {
      hide PendingOk, OnLine, Placed;
      passed, wrote := LineTold(s, e.line);
    } else {
      hide Complete, PendingOk;
      if s.pending.Some? { CompleteReports(s); }
      passed, wrote := [], [];
      assert s.unsolicited + [] == s.unsolicited && s.written + [] == s.written;
    }
  }

  /** Over every interleaving: each line answers a prompt, ends the command, is kept or is passed on, in order. */
  lemma {:induction false} EveryLine(s: Channel, events: seq<Event>) returns (passed: seq<string>, wrote: seq<string>)
    requires Kept(s) && EnabledRun(s, events)
    ensures Run(s, events).unsolicited == s.unsolicited + passed && Run(s, events).written == s.written + wrote
    ensures AllTold(s, events, passed, wrote)
    decreases |events|
  {
    hide Step, Told, PendingOk, OutcomesOk, OneOwner;
    if events == [] {
      passed, wrote := [], [];
    } else {
      var p, w := StepTells(s, events[0]);
      StepKeeps(s, events[0]);
      var later, more := EveryLine(Step(s, events[0]), events[1..]);
      passed, wrote := p + later, w + more;
      assert passed[..|p|] == p && passed[|p|..] == later && wrote[..|w|] == w && wrote[|w|..] == more;
    }
  }
}
