/**
 Line reassembly of the AT channel (`atchannel.c`, readline) on values: what a stream
 means, and what successive reads deliver however the stream was split into chunks.
 */
module AtLines {
  import opened Common

  const MAX_AT_RESPONSE: nat := 4096

  predicate IsEol(c: char) {
    c == '\r' || c == '\n'
  }

  // ---- What a stream means ----

  function EolIndex(t: string): (i: nat)
    ensures i <= |t|
    ensures i < |t| ==> IsEol(t[i])
    ensures forall j :: 0 <= j < i ==> !IsEol(t[j])
  {
    if t == "" || IsEol(t[0]) then 0 else 1 + EolIndex(t[1..])
  }

  /** The segments that a CR or LF terminates, empty ones included. */
  function Terminated(t: string): seq<string>
    decreases |t|
  {
    var i := EolIndex(t);
    if i == |t| then [] else [t[..i]] + Terminated(t[i + 1..])
  }

  function NonEmpty(s: seq<string>): seq<string> {
    if s == [] then [] else (if s[0] == "" then [] else [s[0]]) + NonEmpty(s[1..])
  }

  /** The lines of a stream: its non-empty terminated segments. */
  function Lines(t: string): seq<string> {
    NonEmpty(Terminated(t))
  }

  function Flatten(chunks: seq<string>): string {
    if chunks == [] then "" else chunks[0] + Flatten(chunks[1..])
  }

  // ---- What the reader does ----

  function SkipEols(t: string): (r: string)
    ensures |r| <= |t|
    ensures r == "" || !IsEol(r[0])
    ensures t[|t| - |r|..] == r && forall j :: 0 <= j < |t| - |r| ==> IsEol(t[j])
    decreases |t|
  {
    if t == "" || !IsEol(t[0]) then t else SkipEols(t[1..])
  }

  /** Where findNextEOL stops: the SMS prompt counts as a line when it is all there is. */
  function LineEnd(t: string): (i: nat)
    ensures i <= |t|
  {
    if t == "> " then 2 else EolIndex(t)
  }

  predicate HasLine(t: string) {
    t == "> " || EolIndex(t) < |t|
  }

  datatype ReadResult = ReadResult(line: Option<string>, text: string, chunks: seq<string>)

  /**
   One readline call. `text` is what is buffered from the cursor on, `used` how much of
   the buffer is in use, `chunks` what the coming reads return. A full buffer without a
   line is thrown away. A returned prompt leaves nothing here; what the next call finds
   behind it depends on the bytes of the buffer, which only the reader object has.
   */
  function Gather(text: string, used: nat, chunks: seq<string>): ReadResult
    decreases |chunks|
  {
    if HasLine(text) then
      var i := LineEnd(text);
      ReadResult(Some(text[..i]), if i < |text| then text[i + 1..] else "", chunks)
    else if chunks == [] then ReadResult(None, text, [])
    else if used == MAX_AT_RESPONSE then Gather(SkipEols(chunks[0]), |chunks[0]|, chunks[1..])
    else Gather(SkipEols(text + chunks[0]), used + |chunks[0]|, chunks[1..])
  }

  /** The kernel returns at least one byte per read and never more than the space asked for. */
  predicate Deliverable(text: string, used: nat, chunks: seq<string>)
    decreases |chunks|
  {
    HasLine(text) || chunks == [] ||
    (var room := if used == MAX_AT_RESPONSE then MAX_AT_RESPONSE else MAX_AT_RESPONSE - used;
     && 0 < |chunks[0]| <= room
     && if used == MAX_AT_RESPONSE then Deliverable(SkipEols(chunks[0]), |chunks[0]|, chunks[1..])
        else Deliverable(SkipEols(text + chunks[0]), used + |chunks[0]|, chunks[1..]))
  }

  /** The SMS prompt alone is never what is buffered when the reader looks for a line. */
  predicate PromptFree(text: string, used: nat, chunks: seq<string>)
    decreases |chunks|
  {
    text != "> " &&
    (HasLine(text) || chunks == [] ||
     (if used == MAX_AT_RESPONSE then PromptFree(SkipEols(chunks[0]), |chunks[0]|, chunks[1..])
      else PromptFree(SkipEols(text + chunks[0]), used + |chunks[0]|, chunks[1..])))
  }

  function ReadLine(text: string, chunks: seq<string>): ReadResult {
    var t := SkipEols(text);
    Gather(t, |t|, chunks)
  }

  lemma {:induction false} GatherNow(text: string, used: nat, chunks: seq<string>)
    requires HasLine(text)
    ensures var i := LineEnd(text);
      Gather(text, used, chunks) == ReadResult(Some(text[..i]), if i < |text| then text[i + 1..] else "", chunks)
    ensures PromptFree(text, used, chunks) <==> text != "> "
    ensures LineEnd(text) == |text| <==> text == "> "
  {
    hide EolIndex;
  }

  lemma {:induction false} GatherNone(text: string, used: nat)
    requires !HasLine(text)
    ensures Gather(text, used, []) == ReadResult(None, text, []) && PromptFree(text, used, [])
  {
    hide EolIndex;
  }

  lemma {:induction false} GatherMore(text: string, used: nat, chunks: seq<string>)
    requires !HasLine(text) && chunks != []
    ensures Gather(text, used, chunks) ==
      if used == MAX_AT_RESPONSE then Gather(SkipEols(chunks[0]), |chunks[0]|, chunks[1..])
      else Gather(SkipEols(text + chunks[0]), used + |chunks[0]|, chunks[1..])
  {
    hide LineEnd, HasLine, SkipEols;
  }

  lemma {:induction false} GatherShrinks(text: string, used: nat, chunks: seq<string>)
    ensures var r := Gather(text, used, chunks);
      && (r.line.Some? ==> |r.chunks| < |chunks| || (r.chunks == chunks && |r.text| < |text|))
      && |r.chunks| <= |chunks|
    decreases |chunks|
  {
    hide EolIndex, SkipEols;
    if !HasLine(text) && chunks != [] {
      if used == MAX_AT_RESPONSE {
        GatherShrinks(SkipEols(chunks[0]), |chunks[0]|, chunks[1..]);
      } else {
        GatherShrinks(SkipEols(text + chunks[0]), used + |chunks[0]|, chunks[1..]);
      }
    }
  }

  /** Calling readline until the channel closes. */
  function ReadAll(text: string, chunks: seq<string>): seq<string>
    decreases |chunks|, |text|
  {
    var r := ReadLine(text, chunks);
    GatherShrinks(SkipEols(text), |SkipEols(text)|, chunks);
    if r.line.None? then [] else [r.line.value] + ReadAll(r.text, r.chunks)
  }

  /** The buffered bytes stay below the limit in every read of these calls. */
  ghost predicate FitsLine(text: string, used: nat, chunks: seq<string>)
    decreases |chunks|
  {
    HasLine(text) || chunks == [] ||
    (used + |chunks[0]| < MAX_AT_RESPONSE && FitsLine(SkipEols(text + chunks[0]), used + |chunks[0]|, chunks[1..]))
  }

  ghost predicate Fits(text: string, chunks: seq<string>)
    decreases |chunks|, |text|
  {
    var t := SkipEols(text);
    var r := Gather(t, |t|, chunks);
    GatherShrinks(t, |t|, chunks);
    FitsLine(t, |t|, chunks) && (r.line.None? || Fits(r.text, r.chunks))
  }

  /** No line begins like the SMS prompt. */
  ghost predicate NoPrompt(t: string) {
    forall i :: 0 <= i < |t| - 1 && t[i] == '>' && t[i + 1] == ' ' ==> i > 0 && !IsEol(t[i - 1])
  }

  // ---- Chunk independence ----

  lemma {:induction false} EolIndexIs(t: string, k: nat)
    requires k < |t| && IsEol(t[k]) && forall j :: 0 <= j < k ==> !IsEol(t[j])
    ensures EolIndex(t) == k
  {
  }

  lemma {:induction false} LinesSkip(t: string)
    ensures Lines(SkipEols(t)) == Lines(t)
    decreases |t|
  {
    if t != "" && IsEol(t[0]) {
      assert t[0 + 1..] == t[1..];
      assert Terminated(t) == [""] + Terminated(t[1..]);
      assert NonEmpty(Terminated(t)) == NonEmpty(Terminated(t[1..])) by {
        assert ([""] + Terminated(t[1..]))[1..] == Terminated(t[1..]);
      }
      LinesSkip(t[1..]);
    }
  }

  lemma {:induction false} NonEmptyCons(head: string, tail: seq<string>)
    ensures NonEmpty([head] + tail) == (if head == "" then [] else [head]) + NonEmpty(tail)
  {
    assert ([head] + tail)[1..] == tail;
  }

  lemma {:induction false} TerminatedStep(t: string)
    requires EolIndex(t) < |t|
    ensures Terminated(t) == [t[..EolIndex(t)]] + Terminated(t[EolIndex(t) + 1..])
  {
    hide EolIndex, NonEmpty;
  }

  /** A complete line at the front is the first line of the stream; the rest follows after it. */
  lemma {:induction false} LinesFirst(t: string, more: string)
    requires t != "" && !IsEol(t[0]) && EolIndex(t) < |t|
    ensures Lines(t + more) == [t[..EolIndex(t)]] + Lines(t[EolIndex(t) + 1..] + more)
  {
    hide EolIndex, NonEmpty, Terminated;
    var i := EolIndex(t);
    var all := t + more;
    EolIndexIs(all, i);
    TerminatedStep(all);
    assert all[..i] == t[..i];
    assert all[i + 1..] == t[i + 1..] + more;
    NonEmptyCons(t[..i], Terminated(t[i + 1..] + more));
  }

  lemma {:induction false} NoLines(t: string)
    requires EolIndex(t) == |t|
    ensures Lines(t) == []
  {
  }

  lemma {:induction false} SkipConcat(a: string, b: string)
    ensures Lines(SkipEols(a) + b) == Lines(a + b)
    decreases |a|
  {
    hide Lines, EolIndex;
    if a != "" && IsEol(a[0]) {
      SkipConcat(a[1..], b);
      assert (a + b)[1..] == a[1..] + b;
      LinesSkip(a + b);
      LinesSkip(a[1..] + b);
    }
  }

  lemma {:induction false} NoPromptSuffix(t: string, k: nat)
    requires NoPrompt(t) && k <= |t| && (k == 0 || IsEol(t[k - 1]))
    ensures NoPrompt(t[k..])
  {
    var u := t[k..];
    forall i | 0 <= i < |u| - 1 && u[i] == '>' && u[i + 1] == ' ' ensures i > 0 && !IsEol(u[i - 1]) {
      assert t[k + i] == '>' && t[k + i + 1] == ' ';
    }
  }

  lemma {:induction false} NoPromptSkip(t: string, more: string)
    requires NoPrompt(t + more)
    ensures NoPrompt(SkipEols(t) + more)
    ensures SkipEols(t) != "> "
  {
    hide NoPrompt, SkipEols;
    var k := |t| - |SkipEols(t)|;
    assert (t + more)[k..] == SkipEols(t) + more;
    NoPromptSuffix(t + more, k);
    StartsWithPrompt(more);
  }

  lemma {:induction false} StartsWithPrompt(more: string)
    ensures !NoPrompt("> " + more)
  {
    var u := "> " + more;
    assert u[0] == '>' && u[1] == ' ';
  }

  lemma {:induction false} NoPromptRest(t: string, more: string)
    requires NoPrompt(t + more) && EolIndex(t) < |t|
    ensures NoPrompt(t[EolIndex(t) + 1..] + more)
  {
    hide NoPrompt, EolIndex;
    var i := EolIndex(t);
    assert (t + more)[i] == t[i];
    assert (t + more)[i + 1..] == t[i + 1..] + more;
    NoPromptSuffix(t + more, i + 1);
  }

  lemma {:induction false} GrownBy(text: string, chunks: seq<string>)
    requires chunks != []
    ensures text + chunks[0] + Flatten(chunks[1..]) == text + Flatten(chunks)
  {
  }

  /** One call returns the first line of what is buffered and still to come, and leaves the rest. */
  lemma {:induction false} GatherFirst(text: string, used: nat, chunks: seq<string>)
    requires text == "" || !IsEol(text[0])
    requires FitsLine(text, used, chunks)
    requires NoPrompt(text + Flatten(chunks)) && text != "> "
    ensures PromptFree(text, used, chunks)
    ensures var r := Gather(text, used, chunks);
      match r.line
      case Some(line) =>
        && Lines(text + Flatten(chunks)) == [line] + Lines(r.text + Flatten(r.chunks))
        && NoPrompt(r.text + Flatten(r.chunks))
      case None => Lines(text + Flatten(chunks)) == []
    decreases |chunks|
  {
    hide Lines, NoPrompt, EolIndex, SkipEols;
    if HasLine(text) {
      LinesFirst(text, Flatten(chunks));
      NoPromptRest(text, Flatten(chunks));
    } else if chunks == [] {
      assert text + Flatten(chunks) == text;
      NoLines(text);
    } else {
      var grown := text + chunks[0];
      var later := Flatten(chunks[1..]);
      GrownBy(text, chunks);
      hide Flatten;
      NoPromptSkip(grown, later);
      SkipConcat(grown, later);
      GatherFirst(SkipEols(grown), used + |chunks[0]|, chunks[1..]);
    }
  }

  /**
   However a stream without prompt lines is split into reads that stay below the buffer
   limit, the lines returned are the non-empty terminated segments of the stream, in order.
   */
  lemma {:induction false} ChunkIndependent(text: string, chunks: seq<string>)
    requires Fits(text, chunks) && NoPrompt(text + Flatten(chunks))
    ensures ReadAll(text, chunks) == Lines(text + Flatten(chunks))
    decreases |chunks|, |text|
  {
    var t := SkipEols(text);
    var r := ReadLine(text, chunks);
    GatherShrinks(t, |t|, chunks);
    NoPromptSkip(text, Flatten(chunks));
    SkipConcat(text, Flatten(chunks));
    GatherFirst(t, |t|, chunks);
    if r.line.Some? {
      ChunkIndependent(r.text, r.chunks);
    }
  }

  /**
   Why prompt lines are excluded: a line that starts with "> " and goes on is returned
   whole when it arrives in one read, and cut after the prompt when the read ends there.
   */
  lemma {:induction false} PromptCutsLine(line: string)
    requires line != "" && forall i :: 0 <= i < |line| ==> !IsEol(line[i])
    ensures ReadLine("", ["> " + line + "\r"]).line == Some("> " + line)
    ensures ReadLine("", ["> ", line + "\r"]).line == Some("> ")
  {
    hide EolIndex, SkipEols, Gather, ReadLine;
    var whole := "> " + line + "\r";
    assert forall j :: 2 <= j < |line| + 2 ==> whole[j] == line[j - 2];
    EolIndexIs(whole, |line| + 2);
    assert whole[..|line| + 2] == "> " + line;
    OneChunk(whole, []);
    assert [whole] + [] == [whole];
    OneChunk("> ", [line + "\r"]);
    assert ["> "] + [line + "\r"] == ["> ", line + "\r"];
    assert "> "[..2] == "> ";
  }

  lemma {:induction false} OneChunk(chunk: string, later: seq<string>)
    requires chunk != "" && !IsEol(chunk[0]) && HasLine(chunk)
    ensures ReadLine("", [chunk] + later).line == Some(chunk[..LineEnd(chunk)])
  {
    hide EolIndex;
    assert "" + chunk == chunk;
    assert ([chunk] + later)[1..] == later;
    assert Gather("", 0, [chunk] + later) == Gather(SkipEols("" + chunk), |chunk|, later);
  }
}
