/**
 The AT reader as the program runs it: one fixed buffer, a cursor, lines cut in place.
 The array has one byte more than the buffer, which stands for the byte behind it: the
 terminator of a read that fills the buffer lands there, and nothing else does.
 */
module AtReader {
  import opened Common
  import opened AtLines

  ghost predicate NulFree(chunks: seq<string>) {
    forall k :: 0 <= k < |chunks| ==> '\0' !in chunks[k]
  }

  ghost predicate AllNonEmpty(chunks: seq<string>) {
    forall k :: 0 <= k < |chunks| ==> chunks[k] != ""
  }

  /** The buffered text and the bytes in use after one more read. */
  ghost function TextAfter(text: string, used: nat, chunk: string): string {
    SkipEols(if used == MAX_AT_RESPONSE then chunk else text + chunk)
  }

  ghost function UsedAfter(used: nat, chunk: string): nat {
    (if used == MAX_AT_RESPONSE then 0 else used) + |chunk|
  }

  lemma {:induction false} NulFreeTail(chunks: seq<string>)
    requires NulFree(chunks) && chunks != []
    ensures '\0' !in chunks[0] && NulFree(chunks[1..])
  {
  }

  lemma {:induction false} SkipIs(t: string, k: nat)
    requires k <= |t| && (forall i :: 0 <= i < k ==> IsEol(t[i])) && (k < |t| ==> !IsEol(t[k]))
    ensures SkipEols(t) == t[k..]
    decreases k
  {
    if k > 0 {
      SkipIs(t[1..], k - 1);
      assert t[1..][k - 1..] == t[k..];
    }
  }

  lemma {:induction false} FirstNul(b: string, from: nat) returns (e: nat)
    requires from <= |b| && '\0' in b[from..]
    ensures from <= e < |b| && b[e] == '\0' && forall i :: from <= i < e ==> b[i] != '\0'
    decreases |b| - from
  {
    if b[from] == '\0' { e := from; } else { e := FirstNul(b, from + 1); }
  }

  /** The lines returned and those still to come make up the whole. */
  ghost predicate Reading(lines: seq<string>, text: string, input: seq<string>, all: seq<string>) {
    Fits(text, input) && NoPrompt(text + Flatten(input)) && lines + Lines(text + Flatten(input)) == all
  }

  lemma {:induction false} ReadOne(lines: seq<string>, text: string, chunks: seq<string>, all: seq<string>)
    requires Reading(lines, text, chunks, all) && AllNonEmpty(chunks)
    ensures var t := SkipEols(text);
      Deliverable(t, |t|, chunks) && PromptFree(t, |t|, chunks) && FitsLine(t, |t|, chunks)
    ensures var r := ReadLine(text, chunks);
      && |r.chunks| <= |chunks| && AllNonEmpty(r.chunks)
      && (r.line.None? ==> lines == all)
      && (r.line.Some? ==>
            && Reading(lines + [r.line.value], r.text, r.chunks, all)
            && (|r.chunks| < |chunks| || (r.chunks == chunks && |r.text| < |text|)))
  {
    hide SkipEols, Deliverable, PromptFree, FitsLine, Gather, Fits, NoPrompt, Lines, Flatten, AllNonEmpty, ReadLine;
    ReadyToRead(text, chunks);
    var r := ReadLine(text, chunks);
    if r.line.Some? {
      var later := Lines(r.text + Flatten(r.chunks));
      assert lines + ([r.line.value] + later) == lines + [r.line.value] + later;
    }
  }

  class Reader {
    const buf: array<char>
    var cur: nat
    var input: seq<string>
    ghost var end: nat

    ghost predicate Valid()
      reads this, buf
    {
      && buf.Length == MAX_AT_RESPONSE + 1
      && cur <= end <= MAX_AT_RESPONSE
      && buf[end] == '\0'
      && (forall i :: cur <= i < end ==> buf[i] != '\0')
    }

    /** What is buffered and not yet returned. */
    ghost function Text(): string
      reads this, buf
      requires Valid()
    {
      buf[cur..end]
    }

    /** `chunks` is what the coming reads of the descriptor return, in order. */
    constructor (chunks: seq<string>)
      ensures Valid() && fresh(buf) && Text() == "" && input == chunks
    {
      buf := new char[MAX_AT_RESPONSE + 1](_ => '\0');
      cur, end, input := 0, 0, chunks;
    }

    method SkipNewlines()
      requires Valid()
      modifies this`cur
      ensures Valid() && Text() == SkipEols(old(Text()))
    {
      hide SkipEols;
      ghost var from := cur;
      while buf[cur] == '\r' || buf[cur] == '\n'
        invariant from <= cur && Valid()
        invariant forall i :: from <= i < cur ==> IsEol(buf[i])
        decreases end - cur
      {
        cur := cur + 1;
      }
      SkipIs(buf[from..end], cur - from);
      assert buf[from..end][cur - from..] == buf[cur..end];
    }

    /** findNextEOL: -1 for the null pointer. */
    method FindNextEol() returns (eol: int)
      requires Valid()
      ensures if HasLine(Text()) then eol == cur + LineEnd(Text()) else eol == -1
    {
      assert |Text()| == 2 ==> Text()[0] == buf[cur] && Text()[1] == buf[cur + 1] && buf[cur + 2] == '\0';
      if buf[cur] == '>' && buf[cur + 1] == ' ' && buf[cur + 2] == '\0' {
        assert end == cur + 2;
        assert Text() == "> ";
        return cur + 2;
      }
      var i := cur;
      while buf[i] != '\0' && buf[i] != '\r' && buf[i] != '\n'
        invariant cur <= i <= end
        invariant forall j :: cur <= j < i ==> !IsEol(buf[j])
        decreases end - i
      {
        i := i + 1;
      }
      ghost var k := EolIndex(Text());
      assert k < |Text()| ==> IsEol(buf[cur + k]);
      if buf[i] == '\0' {
        assert i == end;
        return -1;
      }
      assert Text()[i - cur] == buf[i];
      return i;
    }

    /** A partial line moves to the front of the buffer. */
    method MoveUp() returns (len: nat)
      requires Valid()
      modifies this`cur, this`end, buf
      ensures Valid() && Text() == old(Text()) && cur == 0 && len == end == |Text()| && end <= old(end)
      ensures buf[MAX_AT_RESPONSE] == old(buf[MAX_AT_RESPONSE])
      ensures forall i :: end < i <= MAX_AT_RESPONSE ==> buf[i] == old(buf[i])
    {
      len := 0;
      while buf[cur + len] != '\0'
        invariant cur + len <= end
        decreases end - len
      {
        len := len + 1;
      }
      forall i | 0 <= i <= len {
        buf[i] := buf[cur + i];
      }
      cur, end := 0, len;
    }

    /** The buffer starts over, empty. */
    method Restart()
      requires Valid()
      modifies this`cur, this`end, buf
      ensures Valid() && Text() == "" && cur == end == 0
      ensures buf[MAX_AT_RESPONSE] == old(buf[MAX_AT_RESPONSE])
      ensures forall i :: end < i <= MAX_AT_RESPONSE ==> buf[i] == old(buf[i])
    {
      cur, end := 0, 0;
      buf[0] := '\0';
    }

    /** What read() delivers is appended at the end and terminated, all inside the buffer unless it fills it. */
    method Append(at: nat, chunk: string)
      requires Valid() && at == end && at + |chunk| <= MAX_AT_RESPONSE && '\0' !in chunk
      modifies this`end, buf
      ensures Valid() && Text() == old(Text()) + chunk && end == old(end) + |chunk|
      ensures at + |chunk| < MAX_AT_RESPONSE ==> buf[MAX_AT_RESPONSE] == old(buf[MAX_AT_RESPONSE])
      ensures forall i :: end < i <= MAX_AT_RESPONSE ==> buf[i] == old(buf[i])
    {
      forall i | 0 <= i < |chunk| {
        buf[at + i] := chunk[i];
      }
      buf[at + |chunk|] := '\0';
      assert buf[cur..at] == old(Text());
      assert buf[at..at + |chunk|] == chunk;
      assert buf[cur..at + |chunk|] == buf[cur..at] + buf[at..at + |chunk|];
      assert forall i :: at <= i < at + |chunk| ==> buf[i] == chunk[i - at];
      end := end + |chunk|;
    }

    /** Every read of the coming call leaves room for the terminator. */
    ghost predicate Fitting()
      reads this, buf
      requires Valid()
    {
      FitsLine(SkipEols(Text()), |SkipEols(Text())|, input)
    }

    /** The coming call does not return the prompt. */
    ghost predicate Promptless()
      reads this, buf
      requires Valid()
    {
      PromptFree(SkipEols(Text()), |SkipEols(Text())|, input)
    }

    /** A terminator follows the cursor. */
    ghost predicate Ends()
      reads this, buf
    {
      '\0' in buf[if cur <= buf.Length then cur else buf.Length..]
    }

    /** The next call starts on what is in the buffer from the cursor on: on nothing if there is a NUL. */
    ghost predicate Continues()
      reads this, buf
    {
      Ends() ==> Valid() && (Text() == "" <==> buf[cur] == '\0')
    }

    /**
     The line before `eol` is cut out and the cursor moves past it. The prompt has no line
     end: its terminator is passed over instead, onto whatever earlier reads left there.
     */
    method Cut(eol: nat) returns (line: string)
      requires Valid() && cur <= eol && (eol < end || (eol == end && Text() == "> "))
      modifies this`cur, this`end, buf
      ensures line == old(Text())[..eol - old(cur)] && cur == eol + 1 && buf[eol] == '\0'
      ensures eol < old(end) ==> Valid() && Text() == old(Text())[eol - old(cur) + 1..]
      ensures eol == old(end) ==> buf[..] == old(buf[..]) && Continues()
      ensures buf[MAX_AT_RESPONSE] == old(buf[MAX_AT_RESPONSE])
    {
      line := buf[cur..eol];
      buf[eol] := '\0';
      cur := eol + 1;
      if eol < end {
        assert forall i :: cur <= i < end ==> buf[i] == old(buf[i]);
        assert buf[cur..end] == old(buf[cur..end])[eol - old(cur) + 1..];
      } else {
        assert buf[..] == old(buf[..]);
        if Ends() {
          end := FirstNul(buf[..], cur);
          assert Text() != "" ==> Text()[0] == buf[cur];
        }
      }
    }

    /** What readline does before it reads: look for a line in what is buffered. */
    method Prepare() returns (eol: int, pRead: nat)
      requires Valid()
      modifies this`cur, this`end, buf
      ensures Valid() && Text() == SkipEols(old(Text()))
      ensures if HasLine(Text()) then eol == cur + LineEnd(Text()) else eol == -1
      ensures eol == -1 ==> pRead == end == |Text()|
      ensures buf[MAX_AT_RESPONSE] == old(buf[MAX_AT_RESPONSE])
      ensures forall i :: end < i <= MAX_AT_RESPONSE ==> buf[i] == old(buf[i])
    {
      pRead := 0;
      if buf[cur] == '\0' {
        Restart();
        eol := -1;
      } else {
        SkipNewlines();
        eol := FindNextEol();
        if eol == -1 {
          pRead := MoveUp();
        }
      }
    }

    /** One read: a full buffer is thrown away first. */
    method ReadMore(pRead: nat) returns (eol: int, pNext: nat)
      requires Valid() && pRead == end && input != [] && '\0' !in input[0]
      requires UsedAfter(pRead, input[0]) <= MAX_AT_RESPONSE
      modifies this, buf
      ensures Valid() && input == old(input)[1..]
      ensures Text() == TextAfter(old(Text()), pRead, old(input)[0])
      ensures pNext == end == UsedAfter(pRead, old(input)[0])
      ensures if HasLine(Text()) then eol == cur + LineEnd(Text()) else eol == -1
      ensures UsedAfter(pRead, old(input)[0]) < MAX_AT_RESPONSE ==> buf[MAX_AT_RESPONSE] == old(buf[MAX_AT_RESPONSE])
      ensures pRead < MAX_AT_RESPONSE ==> pRead <= end
      ensures pRead < MAX_AT_RESPONSE ==> forall i :: end < i <= MAX_AT_RESPONSE ==> buf[i] == old(buf[i])
    {
      pNext := pRead;
      if pRead == MAX_AT_RESPONSE {
        Restart();
        pNext := 0;
      }
      var chunk := input[0];
      Append(pNext, chunk);
      assert "" + chunk == chunk;
      pNext := pNext + |chunk|;
      input := input[1..];
      SkipNewlines();
      eol := FindNextEol();
    }

    /**
     The reads of one call, until a line is there or the channel closes. Behind what is then
     buffered the bytes are those of earlier calls, if nothing was thrown away.
     */
    method Fetch() returns (eol: int)
      requires Valid()
      requires NulFree(input)
      requires Deliverable(SkipEols(Text()), |SkipEols(Text())|, input)
      modifies this, buf
      ensures Valid() && NulFree(input)
      ensures if HasLine(Text()) then eol == cur + LineEnd(Text()) else eol == -1 && input == []
      ensures exists used: nat ::
        && Gather(Text(), used, input) == ReadLine(old(Text()), old(input))
        && PromptFree(Text(), used, input) == old(Promptless())
      ensures old(Fitting()) ==> buf[MAX_AT_RESPONSE] == old(buf[MAX_AT_RESPONSE])
      ensures old(Fitting()) ==> forall i :: end < i <= MAX_AT_RESPONSE ==> buf[i] == old(buf[i])
    {
      hide EolIndex, LineEnd, HasLine, SkipEols, Gather, Deliverable, PromptFree, NulFree, TextAfter, UsedAfter,
        FitsLine;
      ghost var fits, free := Fitting(), Promptless();
      ghost var result := ReadLine(Text(), input);
      var pRead: nat;
      eol, pRead := Prepare();
      ghost var used: nat := |Text()|;
      while eol == -1 && input != []
        invariant Valid() && NulFree(input)
        invariant if HasLine(Text()) then eol == cur + LineEnd(Text()) else eol == -1
        invariant eol == -1 ==> pRead == end == used
        invariant Deliverable(Text(), used, input) && PromptFree(Text(), used, input) == free
        invariant Gather(Text(), used, input) == result
        invariant fits ==> FitsLine(Text(), used, input) && buf[MAX_AT_RESPONSE] == old(buf[MAX_AT_RESPONSE])
        invariant fits ==> forall i :: end < i <= MAX_AT_RESPONSE ==> buf[i] == old(buf[i])
        decreases |input|
      {
        ghost var text, chunks := Text(), input;
        GatherStep(text, used, chunks);
        NulFreeTail(input);
        FitsStep(text, used, chunks);
        eol, pRead := ReadMore(pRead);
        used := UsedAfter(used, chunks[0]);
      }
    }

    /**
     readline. None is the null pointer: the channel is closed. If every read of the call
     leaves room for the terminator, no write goes outside the buffer, and after a prompt
     the cursor is on what was there when the call began.
     */
    method ReadNext() returns (line: Option<string>)
      requires Valid()
      requires NulFree(input)
      requires Deliverable(SkipEols(Text()), |SkipEols(Text())|, input)
      modifies this, buf
      ensures var r := ReadLine(old(Text()), old(input)); line == r.line && input == r.chunks
      ensures old(Promptless()) ==> Valid() && Text() == ReadLine(old(Text()), old(input)).text
      ensures old(!Promptless()) ==>
        line == Some("> ") && 0 < cur <= buf.Length && buf[cur - 1] == '\0' && Continues()
      ensures NulFree(input)
      ensures old(Fitting()) ==> buf[MAX_AT_RESPONSE] == old(buf[MAX_AT_RESPONSE])
      ensures old(Fitting() && !Promptless()) ==> forall i :: cur <= i <= MAX_AT_RESPONSE ==> buf[i] == old(buf[i])
    {
      hide EolIndex, LineEnd, HasLine, SkipEols, Gather, Deliverable, PromptFree, NulFree, TextAfter, UsedAfter,
        FitsLine, Continues;
      var eol := Fetch();
      ghost var used: nat :|
        && Gather(Text(), used, input) == ReadLine(old(Text()), old(input))
        && PromptFree(Text(), used, input) == old(Promptless());
      if eol == -1 {
        GatherNone(Text(), used);
        return None;
      }
      GatherNow(Text(), used, input);
      assert Text()[..|Text()|] == Text();
      var cut := Cut(eol);
      line := Some(cut);
    }

    /** The reader loop: every line until the channel closes. */
    method ReadLines() returns (lines: seq<string>)
      requires Valid() && Text() == ""
      requires NulFree(input)
      requires Fits("", input) && NoPrompt(Flatten(input)) && AllNonEmpty(input)
      modifies this, buf
      ensures Valid()
      ensures lines == Lines(Flatten(old(input)))
      ensures buf[MAX_AT_RESPONSE] == old(buf[MAX_AT_RESPONSE])
    {
      hide SkipEols, Gather, Deliverable, PromptFree, Lines, Fits, NoPrompt, FitsLine, Flatten, NulFree, AllNonEmpty;
      ghost var all := Lines(Flatten(input));
      lines := [];
      var line := Some("");
      assert "" + Flatten(input) == Flatten(input) && [] + all == all;
      assert Reading(lines, Text(), input, all);
      hide Reading;
      while line.Some?
        invariant Valid() && NulFree(input) && AllNonEmpty(input) && buf[MAX_AT_RESPONSE] == old(buf[MAX_AT_RESPONSE])
        invariant line.Some? ==> Reading(lines, Text(), input, all)
        invariant line.None? ==> lines == all
        decreases line.Some?, |input|, |Text()|
      {
        ReadOne(lines, Text(), input, all);
        line := ReadNext();
        if line.Some? {
          lines := lines + [line.value];
        }
      }
    }
  }

  /** One more read of what readline does. */
  lemma {:induction false} GatherStep(text: string, used: nat, chunks: seq<string>)
    requires Deliverable(text, used, chunks) && !HasLine(text) && chunks != []
    ensures var text' := TextAfter(text, used, chunks[0]);
      var used' := UsedAfter(used, chunks[0]);
      && used' <= MAX_AT_RESPONSE
      && Deliverable(text', used', chunks[1..])
      && PromptFree(text, used, chunks) == PromptFree(text', used', chunks[1..])
      && Gather(text, used, chunks) == Gather(text', used', chunks[1..])
  {
    hide SkipEols, HasLine, Gather, Deliverable, PromptFree;
    GatherMore(text, used, chunks);
    DeliverableMore(text, used, chunks);
    PromptFreeMore(text, used, chunks);
  }

  lemma {:induction false} DeliverableMore(text: string, used: nat, chunks: seq<string>)
    requires Deliverable(text, used, chunks) && !HasLine(text) && chunks != []
    ensures UsedAfter(used, chunks[0]) <= MAX_AT_RESPONSE
    ensures Deliverable(TextAfter(text, used, chunks[0]), UsedAfter(used, chunks[0]), chunks[1..])
  {
    hide SkipEols, HasLine;
  }

  lemma {:induction false} PromptFreeMore(text: string, used: nat, chunks: seq<string>)
    requires !HasLine(text) && chunks != []
    ensures PromptFree(text, used, chunks)
      == PromptFree(TextAfter(text, used, chunks[0]), UsedAfter(used, chunks[0]), chunks[1..])
  {
    hide SkipEols, EolIndex;
  }

  lemma {:induction false} FitsStep(text: string, used: nat, chunks: seq<string>)
    requires !HasLine(text) && chunks != []
    ensures FitsLine(text, used, chunks) ==>
      && used < MAX_AT_RESPONSE && UsedAfter(used, chunks[0]) < MAX_AT_RESPONSE
      && FitsLine(TextAfter(text, used, chunks[0]), UsedAfter(used, chunks[0]), chunks[1..])
  {
    hide SkipEols, HasLine;
  }

  /** Reads that fit are ones the kernel can deliver, and one call takes the first line off. */
  lemma {:induction false} ReadyToRead(text: string, chunks: seq<string>)
    requires Fits(text, chunks) && NoPrompt(text + Flatten(chunks))
    requires AllNonEmpty(chunks)
    ensures var t := SkipEols(text);
      Deliverable(t, |t|, chunks) && PromptFree(t, |t|, chunks) && FitsLine(t, |t|, chunks)
    ensures var r := ReadLine(text, chunks);
      && |r.chunks| <= |chunks| && AllNonEmpty(r.chunks)
      && match r.line
        case Some(line) =>
          && Fits(r.text, r.chunks) && NoPrompt(r.text + Flatten(r.chunks))
          && Lines(text + Flatten(chunks)) == [line] + Lines(r.text + Flatten(r.chunks))
          && (|r.chunks| < |chunks| || (r.chunks == chunks && |r.text| < |text|))
        case None => Lines(text + Flatten(chunks)) == []
  {
    var t := SkipEols(text);
    NoPromptSkip(text, Flatten(chunks));
    SkipConcat(text, Flatten(chunks));
    GatherFirst(t, |t|, chunks);
    GatherShrinks(t, |t|, chunks);
    FitsDeliverable(t, |t|, chunks);
  }

  lemma {:induction false} FitsDeliverable(text: string, used: nat, chunks: seq<string>)
    requires FitsLine(text, used, chunks) && AllNonEmpty(chunks)
    ensures Deliverable(text, used, chunks)
    ensures AllNonEmpty(Gather(text, used, chunks).chunks)
    decreases |chunks|
  {
    hide SkipEols, EolIndex;
    if !HasLine(text) && chunks != [] {
      assert AllNonEmpty(chunks[1..]);
      FitsDeliverable(SkipEols(text + chunks[0]), used + |chunks[0]|, chunks[1..]);
      assert Gather(text, used, chunks) == Gather(SkipEols(text + chunks[0]), used + |chunks[0]|, chunks[1..]);
    }
  }
}
