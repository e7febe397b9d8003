/**
 The AT channel as the program keeps it: the response under construction is a linked list
 that the reader grows at its head and the command thread reverses in place.
 */
module AtChannel {
  import opened Common
  import opened AtCommandSpec

  class LineNode {
    const text: string
    var next: LineNode?

    constructor (text: string, next: LineNode?)
      ensures this.text == text && this.next == next
    {
      this.text, this.next := text, next;
    }
  }

  ghost function Texts(nodes: seq<LineNode>): seq<string> {
    if nodes == [] then [] else [nodes[0].text] + Texts(nodes[1..])
  }

  ghost function NodeAt(nodes: seq<LineNode>, i: int): LineNode? {
    if 0 <= i < |nodes| then nodes[i] else null
  }

  ghost predicate Distinct(nodes: seq<LineNode>) {
    forall i, j :: 0 <= i < j < |nodes| ==> nodes[i] != nodes[j]
  }

  ghost predicate Linked(head: LineNode?, nodes: seq<LineNode>)
    reads nodes
  {
    && Distinct(nodes)
    && head == NodeAt(nodes, 0)
    && forall i :: 0 <= i < |nodes| ==> nodes[i].next == NodeAt(nodes, i + 1)
  }

  ghost function Backwards(nodes: seq<LineNode>): (r: seq<LineNode>)
    ensures |r| == |nodes|
    ensures forall i :: 0 <= i < |nodes| ==> r[i] == nodes[|nodes| - 1 - i]
  {
    if nodes == [] then [] else Backwards(nodes[1..]) + [nodes[0]]
  }

  lemma {:induction false} TextsAppend(nodes: seq<LineNode>, n: LineNode)
    ensures Texts(nodes + [n]) == Texts(nodes) + [n.text]
  {
    if nodes == [] {
      assert nodes + [n] == [n];
    } else {
      TextsAppend(nodes[1..], n);
      assert (nodes + [n])[1..] == nodes[1..] + [n];
    }
  }

  lemma {:induction false} TextsBackwards(nodes: seq<LineNode>)
    ensures Texts(Backwards(nodes)) == Reverse(Texts(nodes))
  {
    if nodes != [] {
      TextsBackwards(nodes[1..]);
      TextsAppend(Backwards(nodes[1..]), nodes[0]);
      assert Texts(nodes)[1..] == Texts(nodes[1..]);
    }
  }

  /** The loop of reverseIntermediates: every node is made to point to the one before it. */
  method TurnRound(head: LineNode?, ghost all: seq<LineNode>) returns (last: LineNode?)
    requires Linked(head, all)
    modifies all
    ensures last == NodeAt(all, |all| - 1)
    ensures forall i :: 0 <= i < |all| ==> all[i].next == NodeAt(all, i - 1)
  {
    ghost var k := 0;
    var cur := head;
    last := null;
    while cur != null
      invariant 0 <= k <= |all|
      invariant cur == NodeAt(all, k) && last == NodeAt(all, k - 1)
      invariant forall i :: 0 <= i < k ==> all[i].next == NodeAt(all, i - 1)
      invariant forall i :: k <= i < |all| ==> all[i].next == NodeAt(all, i + 1)
      decreases |all| - k
    {
      var next := cur.next;
      cur.next := last;
      last := cur;
      cur := next;
      k := k + 1;
    }
  }

  lemma {:induction false} LinkedBackwards(all: seq<LineNode>)
    requires Distinct(all) && forall i :: 0 <= i < |all| ==> all[i].next == NodeAt(all, i - 1)
    ensures Linked(NodeAt(all, |all| - 1), Backwards(all))
  {
    var r := Backwards(all);
    forall i | 0 <= i < |r| ensures r[i].next == NodeAt(r, i + 1) {
      assert r[i] == all[|all| - 1 - i];
    }
  }

  lemma {:induction false} BackwardsMembers(all: seq<LineNode>)
    ensures forall n :: n in Backwards(all) <==> n in all
  {
    forall n | n in all ensures n in Backwards(all) {
      var i :| 0 <= i < |all| && all[i] == n;
      assert Backwards(all)[|all| - 1 - i] == n;
    }
  }

  class AtResponse {
    const id: nat
    var success: bool
    var finalResponse: Option<string>
    var intermediates: LineNode?
    ghost var nodes: seq<LineNode>

    ghost predicate Valid()
      reads this, nodes
    {
      Linked(intermediates, nodes)
    }

    ghost function Value(): Response
      reads this
    {
      Response(id, Texts(nodes), finalResponse, success)
    }

    constructor (id: nat)
      ensures Valid() && nodes == [] && Value() == Response(id, [], None, false)
    {
      this.id := id;
      success, finalResponse, intermediates, nodes := false, None, null, [];
    }

    /** addIntermediate: the new line goes to the head. */
    method AddIntermediate(line: string)
      requires Valid()
      modifies this`intermediates, this`nodes
      ensures Valid() && Value() == old(Value()).(lines := [line] + old(Value()).lines)
      ensures fresh(set n | n in nodes && n !in old(nodes))
    {
      var node := new LineNode(line, intermediates);
      ghost var rest := nodes;
      intermediates := node;
      nodes := [node] + nodes;
      assert nodes[1..] == rest;
      assert forall i :: 0 <= i < |nodes| ==> nodes[i].next == NodeAt(nodes, i + 1);
    }

    /** reverseIntermediates: the links are turned round one by one. */
    method ReverseIntermediates()
      requires Valid()
      modifies this`intermediates, this`nodes, nodes
      ensures Valid() && Value() == old(Value()).(lines := Reverse(old(Value()).lines))
      ensures forall n :: n in nodes <==> n in old(nodes)
    {
      ghost var all := nodes;
      intermediates := TurnRound(intermediates, all);
      nodes := Backwards(all);
      LinkedBackwards(all);
      TextsBackwards(all);
      BackwardsMembers(all);
    }
  }

  class At {
    const proxy: bool
    var command: Command
    var response: AtResponse?
    var pdu: Option<string>
    var raw: Option<string>
    var closed: bool
    ghost var waiting: bool
    ghost var unsolicited: seq<string>
    ghost var written: seq<string>
    var issued: nat
    ghost var freed: set<nat>
    ghost var handed: seq<string>
    ghost var rawAtSend: bool
    ghost var outcomes: seq<Outcome>

    ghost predicate Valid()
      reads this, response, if response == null then [] else response.nodes
    {
      response != null ==> response.Valid()
    }

    /** The objects the pending response is made of. */
    ghost function Footprint(): set<object>
      reads this, response
    {
      if response == null then {} else {response} + set n | n in response.nodes :: n as object
    }

    ghost function State(): Channel
      reads this, response
    {
      Channel(proxy, command, if response == null then None else Some(response.Value()), pdu, raw, closed, waiting,
              unsolicited, written, issued, freed, handed, rawAtSend, outcomes)
    }

    constructor (proxy: bool)
      ensures Valid() && State() == Open(proxy)
    {
      this.proxy := proxy;
      command, response, pdu, raw, closed, issued := IDLE, null, None, None, false, 0;
      waiting, unsolicited, written, freed, handed, rawAtSend, outcomes := false, [], [], {}, [], false, [];
    }

    method HandleUnsolicited(line: string)
      modifies this`unsolicited
      ensures State() == Unsolicited(old(State()), line)
    {
      unsolicited := unsolicited + [line];
    }

    /** writeraw and writeCtrlZ: nothing is written once the channel is closed. */
    method WriteRaw(text: string)
      modifies this`written
      ensures State() == Write(old(State()), text)
    {
      if !closed {
        written := written + [text];
      }
    }

    method HandleFinal(line: string, success: bool)
      requires Valid() && response != null
      modifies this`unsolicited, response`success, response`finalResponse
      ensures Valid() && State() == Finished(old(State()), old(response.Value()), line, success)
    {
      if proxy {
        HandleUnsolicited(line);
      }
      response.success := success;
      response.finalResponse := Some(line);
    }

    method Matches(line: string, prefixes: seq<string>) returns (found: bool)
      ensures found <==> StartsWithAny(line, prefixes)
    {
      found := false;
      for i := 0 to |prefixes|
        invariant !found && forall j :: 0 <= j < i ==> !(prefixes[j] <= line)
      {
        if prefixes[i] <= line {
          return true;
        }
      }
    }

    /** The lines that are neither final nor a prompt. */
    method HandleOther(line: string)
      requires Valid() && response != null
      modifies this`unsolicited, response`intermediates, response`nodes
      ensures Valid() && response == old(response)
      ensures State() == if Takes(command, old(response.Value()).lines, line)
        then old(State()).(pending := Some(old(response.Value()).(lines := [line] + old(response.Value()).lines)))
        else Unsolicited(old(State()), line)
      ensures fresh(Footprint() - old(Footprint()))
    {
      var takes := Wants(line);
      if takes {
        response.AddIntermediate(line);
      } else {
        HandleUnsolicited(line);
      }
    }

    method Wants(line: string) returns (takes: bool)
      requires Valid() && response != null
      ensures takes <==> Takes(command, response.Value().lines, line)
    {
      assert response.nodes == [] <==> Texts(response.nodes) == [];
      match command.kind {
        case NoResult => takes := false;
        case Numeric => takes := response.intermediates == null && line != "" && '0' <= line[0] <= '9';
        case SingleLine => takes := response.intermediates == null && command.prefix <= line;
        case MultiLine => takes := command.prefix <= line;
      }
    }

    method Finals(line: string) returns (success: bool, error: bool)
      ensures success == IsFinalSuccess(line) && error == IsFinalError(line)
    {
      success := Matches(line, FINAL_SUCCESS);
      error := Matches(line, FINAL_ERROR);
    }

    /** processLine. */
    method ProcessLine(line: string)
      requires Valid()
      modifies this, response
      ensures Valid() && response == old(response)
      ensures State() == OnLine(old(State()), line)
      ensures fresh(Footprint() - old(Footprint()))
    {
      hide OnAwaited, AtResponse.Valid, Texts;
      if waiting {
        handed := handed + [line];
      }
      if response == null {
        HandleUnsolicited(line);
        return;
      }
      if raw.Some? && line == "CONNECT" {
        WriteRaw(raw.value);
        raw := None;
        return;
      }
      ProcessAwaited(line);
    }

    /** The rest of processLine, for a line that does not ask for raw data. */
    method ProcessAwaited(line: string)
      requires Valid() && response != null
      modifies this`unsolicited, this`written, this`pdu, response
      ensures Valid() && response == old(response)
      ensures State() == OnAwaited(old(State()), line)
      ensures fresh(Footprint() - old(Footprint()))
    {
      hide IsFinalSuccess, IsFinalError, Takes, AtResponse.Valid, Texts;
      var success, error := Finals(line);
      if success {
        HandleFinal(line, true);
      } else if error {
        HandleFinal(line, false);
      } else if pdu.Some? && line == "> " {
        WriteRaw(pdu.value);
        pdu := None;
      } else {
        HandleOther(line);
      }
    }

    /** clearPendingCommand. */
    method ClearPending()
      requires Valid()
      modifies this`response, this`pdu, this`waiting, this`freed
      ensures Valid() && State() == Clear(old(State()))
    {
      if response != null {
        freed := freed + {response.id};
      }
      response := null;
      pdu := None;
      waiting := false;
    }

    /** The end of at_send_command_full_nolock, once the wait is over. */
    method Return() returns (error: Error, out: AtResponse?)
      requires Valid() && response != null
      modifies this, response, response.nodes
      ensures Valid() && State() == Complete(old(State()))
      ensures error == (if closed then ChannelClosed else Done) && response == null
      ensures if command.wants
        then out == old(response) && out != null && out.Valid()
          && out.Value() == old(response.Value()).(lines := Reverse(old(response.Value()).lines))
        else out == null
    {
      error := if closed then ChannelClosed else Done;
      if !command.wants {
        freed := freed + {response.id};
        out := null;
        outcomes := outcomes + [Outcome(command, rawAtSend, handed, error, None)];
      } else {
        response.ReverseIntermediates();
        out := response;
        outcomes := outcomes + [Outcome(command, rawAtSend, handed, error, Some(response.Value()))];
      }
      response := null;
      ClearPending();
    }

    /** The error exit of at_send_command_full_nolock; a wait that timed out takes it too. */
    method Fail(error: Error)
      requires Valid()
      modifies this
      ensures Valid() && State() == Clear(Report(old(State()), error, None))
      ensures closed == old(closed) && response == null
    {
      outcomes := outcomes + [Outcome(command, rawAtSend, handed, error, None)];
      ClearPending();
    }

    /** The start of at_send_command_full_nolock, up to its wait. */
    method Begin(newCommand: Command, rawData: Option<string>, writes: bool) returns (error: Option<Error>)
      requires Valid()
      modifies this
      ensures Valid() && State() == OnSend(old(State()), newCommand, rawData, writes)
      ensures error ==
        if old(response) != null then Some(CommandPending)
        else if !newCommand.silent && (!writes || closed) then Some(NotWritten) else None
      ensures fresh(Footprint() - old(Footprint()))
    {
      hide Texts, AtResponse.Valid;
      if rawData.Some? {
        raw := rawData;
      }
      if response != null {
        Fail(CommandPending);
        return Some(CommandPending);
      }
      command := newCommand;
      handed := [];
      if !command.silent && (!writes || closed) {
        Fail(NotWritten);
        return Some(NotWritten);
      }
      Arm();
      return None;
    }

    /** A fresh response to fill, and the command's text to send after the prompt. */
    method Arm()
      modifies this`response, this`issued, this`pdu, this`rawAtSend, this`waiting
      ensures Valid() && State() == old(State()).(pdu := command.pdu, rawAtSend := raw.Some?, waiting := true,
        pending := Some(Response(old(issued), [], None, false)), issued := old(issued) + 1)
      ensures fresh(Footprint())
    {
      hide Texts, AtResponse.Valid;
      var empty := new AtResponse(issued);
      assert empty.nodes == [] && empty.Value() == Response(issued, [], None, false);
      pdu := command.pdu;
      rawAtSend := raw.Some?;
      waiting := true;
      response := empty;
      issued := issued + 1;
    }

    /** One atomic step of either thread. */
    method Dispatch(e: Event)
      requires Valid() && Enabled(State(), e) && (e.Wake? ==> response != null)
      modifies this, Footprint()
      ensures Valid() && State() == Step(old(State()), e)
      ensures fresh(Footprint() - old(Footprint()))
    {
      hide OnLine, OnSend, Complete, Texts, AtResponse.Valid;
      match e {
        case Send(newCommand, rawData, writes) => var _ := Begin(newCommand, rawData, writes);
        case Line(line) => ProcessLine(line);
        case Wake =>
          if response.finalResponse.Some? || closed {
            assert forall n: LineNode :: n in response.nodes ==> n in Footprint();
            var _, _ := Return();
          }
        case Timeout => Fail(TimedOut);
        case Closed => closed := true;
      }
    }
  }
}

/** The two threads together, and what the run theorems say of the channel after any interleaving. */
module AtInterleaving {
  import opened AtCommandSpec
  import opened AtCommandProofs
  import opened AtCommandLines
  import opened AtChannel

  /**
   Any interleaving of the two threads' steps, from the moment the channel opens: each
   response given out holds exactly the lines expected, in arrival order, and the last
   final line, every response has one owner, and every other line went where it should.
   */
  method Interleave(at: At, events: seq<Event>)
    requires at.response == null && at.State() == Open(at.proxy) && EnabledRun(at.State(), events)
    modifies at
    ensures at.Valid() && at.State() == Run(Open(at.proxy), events)
    ensures forall i :: 0 <= i < |at.outcomes| && at.outcomes[i].response.Some? ==>
      var o := at.outcomes[i];
      var lines := Effective(o.handed, o.raw, o.command.pdu.Some?);
      o.response.value.lines == Expected(o.command, lines) && o.response.value.final == LastFinal(lines)
    ensures forall i :: 0 <= i < |at.outcomes| ==>
      var o := at.outcomes[i];
      && (o.error == Done ==> LastFinal(Effective(o.handed, o.raw, o.command.pdu.Some?)).Some?)
      && (o.error == ChannelClosed ==> at.closed)
      && (o.response.Some? <==> o.command.wants && (o.error == Done || o.error == ChannelClosed))
    ensures OneOwner(at.State()) && (!at.waiting ==> at.response == null)
    ensures AllTold(Open(at.proxy), events, at.unsolicited, at.written)
  {
    hide AllTold, Step, Effective, Expected, LastFinal, OneOwner, Faithful, OutcomesOk, Texts, AtResponse.Valid;
    ghost var start := at.State();
    var i := 0;
    assert events[0..] == events;
    OpenKept(at.proxy);
    while i < |events|
      invariant 0 <= i <= |events| && at.Valid() && fresh(at.Footprint())
      invariant EnabledRun(at.State(), events[i..]) && Run(at.State(), events[i..]) == Run(start, events)
      invariant Kept(at.State())
    {
      assert events[i..][0] == events[i] && events[i..][1..] == events[i + 1..];
      StepKeeps(at.State(), events[i]);
      at.Dispatch(events[i]);
      i := i + 1;
    }
    assert events[i..] == [];
    ResponsesFaithful(at.proxy, events);
    ghost var passed, wrote := EveryLine(start, events);
    assert [] + passed == passed && [] + wrote == wrote;
  }

  lemma {:induction false} OpenKept(proxy: bool)
    ensures Kept(Open(proxy))
  {
  }
}
