/**
 The SMS prompt in the AT reader (`atchannel.c`, findNextEOL): when "> " is all that is
 buffered it is returned as a line without waiting for a line end. This is exactly what
 keeps the lines returned from being the terminated segments of the stream.
 */
module AtPrompt {
  import opened Common
  import opened AtLines

  /** A line of the stream begins with the prompt at `i`. */
  ghost predicate PromptAt(t: string, i: nat) {
    i + 1 < |t| && t[i] == '>' && t[i + 1] == ' ' && (i == 0 || IsEol(t[i - 1]))
  }

  lemma {:induction false} PromptSomewhere(t: string)
    ensures NoPrompt(t) <==> forall i: nat :: !PromptAt(t, i)
  {
    if forall i: nat :: !PromptAt(t, i) {
      forall i | 0 <= i < |t| - 1 && t[i] == '>' && t[i + 1] == ' ' ensures i > 0 && !IsEol(t[i - 1]) {
        assert !PromptAt(t, i);
      }
    }
  }

  ghost predicate Chunks(chunks: seq<string>) {
    forall k :: 0 <= k < |chunks| ==> chunks[k] != ""
  }

  lemma {:induction false} FlattenNone(chunks: seq<string>)
    requires Chunks(chunks) && chunks != []
    ensures Flatten(chunks) != ""
  {
    assert Flatten(chunks) == chunks[0] + Flatten(chunks[1..]);
  }

  // ---- A stream that ends in its first prompt ----

  ghost predicate EndsInPrompt(s: string) {
    |s| >= 2 && PromptAt(s, |s| - 2) && NoPrompt(s[..|s| - 1])
  }

  /** From a line start on, it still does. */
  lemma {:induction false} EndsSuffix(s: string, k: nat)
    requires EndsInPrompt(s) && k <= |s| && (k == 0 || IsEol(s[k - 1]))
    ensures k <= |s| - 2 && EndsInPrompt(s[k..])
  {
    assert k != |s| && k != |s| - 1 by {
      assert !IsEol(s[|s| - 1]) && !IsEol(s[|s| - 2]);
    }
    var u := s[k..];
    var front := s[..|s| - 1];
    assert k == 0 || IsEol(front[k - 1]);
    NoPromptSuffix(front, k);
    assert u[..|u| - 1] == front[k..];
    assert u[|u| - 2] == s[|s| - 2] && u[|u| - 1] == s[|s| - 1];
    if |u| > 2 { assert u[|u| - 3] == s[|s| - 3]; }
  }

  /** Nothing comes after the prompt when it is all that is buffered. */
  lemma {:induction false} PromptIsLast(rest: string)
    requires EndsInPrompt("> " + rest)
    ensures rest == ""
  {
    hide NoPrompt;
    var s := "> " + rest;
    if rest != "" {
      assert s[..|s| - 1] == "> " + rest[..|rest| - 1];
      StartsWithPrompt(rest[..|rest| - 1]);
    }
  }

  lemma {:induction false} NoEolIsPrompt(s: string)
    requires EndsInPrompt(s) && EolIndex(s) == |s|
    ensures s == "> "
  {
    hide EolIndex, NoPrompt;
    assert |s| == 2;
    assert s == [s[0], s[1]];
  }

  lemma {:induction false} SkipEnds(grown: string, later: string)
    requires EndsInPrompt(grown + later)
    ensures EndsInPrompt(SkipEols(grown) + later)
  {
    hide SkipEols, EndsInPrompt;
    var k := |grown| - |SkipEols(grown)|;
    assert (grown + later)[k..] == SkipEols(grown) + later;
    EndsSuffix(grown + later, k);
  }

  lemma {:induction false} AfterLine(text: string, later: string)
    requires EndsInPrompt(text + later) && EolIndex(text) < |text|
    ensures EndsInPrompt(text[EolIndex(text) + 1..] + later)
  {
    hide EolIndex, EndsInPrompt;
    var k := EolIndex(text) + 1;
    assert (text + later)[k - 1] == text[k - 1];
    assert (text + later)[k..] == text[k..] + later;
    EndsSuffix(text + later, k);
  }

  /** The prompt itself was returned, as the last of the stream. */
  ghost predicate Prompted(r: ReadResult, s: string, more: seq<string>) {
    r == ReadResult(Some("> "), "", more) && Lines(s) == []
  }

  /** A line was taken off, and what is left still ends in the prompt. */
  ghost predicate Shortened(r: ReadResult, s: string, rest: seq<string>, more: seq<string>) {
    && r.line.Some? && r.chunks == rest + more && Chunks(rest) && EndsInPrompt(r.text + Flatten(rest))
    && Lines(s) == [r.line.value] + Lines(r.text + Flatten(rest))
  }

  /**
   One call on such a stream: the first line is taken off, or the prompt itself is
   returned, with the chunks behind it untouched.
   */
  lemma {:induction false} GatherPrompt(text: string, used: nat, chunks: seq<string>, more: seq<string>)
    returns (rest: seq<string>)
    requires text == "" || !IsEol(text[0])
    requires FitsLine(text, used, chunks + more) && Chunks(chunks) && EndsInPrompt(text + Flatten(chunks))
    ensures var s := text + Flatten(chunks); var r := Gather(text, used, chunks + more);
      Prompted(r, s, more) || Shortened(r, s, rest, more)
    decreases |chunks|
  {
    hide Lines, EolIndex, SkipEols, EndsInPrompt;
    rest := chunks;
    if text == "> " {
      PromptIsLast(Flatten(chunks));
      if chunks != [] { FlattenNone(chunks); }
      assert text + Flatten(chunks) == "> " && [] + more == more;
      PromptHasNoEol();
      NoLines("> ");
    } else if HasLine(text) {
      LinesFirst(text, Flatten(chunks));
      AfterLine(text, Flatten(chunks));
    } else if chunks == [] {
      assert text + Flatten(chunks) == text;
      NoEolIsPrompt(text);
    } else {
      var grown, later := text + chunks[0], Flatten(chunks[1..]);
      assert (chunks + more)[0] == chunks[0] && (chunks + more)[1..] == chunks[1..] + more;
      GrownBy(text, chunks);
      hide Flatten;
      SkipEnds(grown, later);
      SkipConcat(grown, later);
      rest := GatherPrompt(SkipEols(grown), used + |chunks[0]|, chunks[1..], more);
    }
  }

  lemma {:induction false} PromptHasNoEol()
    ensures EolIndex("> ") == 2
  {
    var i := EolIndex("> ");
    if i < 2 { assert IsEol("> "[i]); }
  }

  lemma {:induction false} CallOnPrompt(text: string, chunks: seq<string>, more: seq<string>)
    returns (rest: seq<string>)
    requires Fits(text, chunks + more) && Chunks(chunks) && EndsInPrompt(text + Flatten(chunks))
    ensures var r := ReadLine(text, chunks + more); var s := text + Flatten(chunks);
      Prompted(r, s, more) || (Shortened(r, s, rest, more) && Fits(r.text, rest + more))
    ensures var r := ReadLine(text, chunks + more);
      r.chunks == rest + more && r.line.Some? ==> |rest| < |chunks| || (rest == chunks && |r.text| < |text|)
  {
    hide Lines, EndsInPrompt, SkipEols, Gather, FitsLine, Flatten, Chunks, Fits, Prompted;
    var t := SkipEols(text);
    FitsCall(text, chunks + more);
    SkipEnds(text, Flatten(chunks));
    SkipConcat(text, Flatten(chunks));
    GatherShrinks(t, |t|, chunks + more);
    rest := GatherPrompt(t, |t|, chunks, more);
    SamePrompted(Gather(t, |t|, chunks + more), t + Flatten(chunks), text + Flatten(chunks), more);
    if |rest| == |chunks| { SameRest(rest, chunks, more); }
  }

  lemma {:induction false} SamePrompted(r: ReadResult, s: string, s': string, more: seq<string>)
    requires Lines(s) == Lines(s')
    ensures Prompted(r, s, more) == Prompted(r, s', more)
  {
  }

  lemma {:induction false} FitsCall(text: string, chunks: seq<string>)
    requires Fits(text, chunks)
    ensures var t := SkipEols(text); |t| <= |text| && FitsLine(t, |t|, chunks)
    ensures var r := ReadLine(text, chunks); r.line.Some? ==> Fits(r.text, r.chunks)
  {
    hide FitsLine, Gather, SkipEols;
  }

  /** Reading such a stream returns its lines and then the prompt, which is not one of them. */
  lemma {:induction false} PromptThenMore(text: string, chunks: seq<string>, more: seq<string>)
    requires Fits(text, chunks + more) && Chunks(chunks) && EndsInPrompt(text + Flatten(chunks))
    ensures Lines(text + Flatten(chunks)) + ["> "] <= ReadAll(text, chunks + more)
    decreases |chunks|, |text|
  {
    hide Lines, EndsInPrompt, Flatten, Chunks, Fits, ReadAll, ReadLine;
    var rest := CallOnPrompt(text, chunks, more);
    var r := ReadLine(text, chunks + more);
    ReadAllStep(text, chunks + more);
    if Prompted(r, text + Flatten(chunks), more) {
      assert [] + ["> "] == ["> "];
    } else {
      PromptThenMore(r.text, rest, more);
      Behind(r.line.value, Lines(r.text + Flatten(rest)), ReadAll(r.text, r.chunks));
    }
  }

  lemma {:induction false} ReadAllStep(text: string, chunks: seq<string>)
    ensures var r := ReadLine(text, chunks);
      r.line.Some? ==> ReadAll(text, chunks) == [r.line.value] + ReadAll(r.text, r.chunks)
  {
    hide Gather, SkipEols;
  }

  lemma {:induction false} Behind(line: string, later: seq<string>, all: seq<string>)
    requires later + ["> "] <= all
    ensures [line] + later + ["> "] <= [line] + all
  {
    assert [line] + (later + ["> "]) == [line] + later + ["> "];
  }

  lemma {:induction false} SameRest(rest: seq<string>, chunks: seq<string>, more: seq<string>)
    requires |rest| == |chunks|
    ensures rest + more == chunks + more ==> rest == chunks
  {
    if rest + more == chunks + more {
      assert rest == (rest + more)[..|rest|] && chunks == (chunks + more)[..|chunks|];
    }
  }

  // ---- Cutting a split short ----

  /** The reads that bring the first `n` characters. */
  function Take(chunks: seq<string>, n: nat): seq<string>
    decreases |chunks|
  {
    if n == 0 || chunks == [] then []
    else if |chunks[0]| <= n then [chunks[0]] + Take(chunks[1..], n - |chunks[0]|)
    else [chunks[0][..n]]
  }

  lemma {:induction false} TakeFlattens(chunks: seq<string>, n: nat)
    requires Chunks(chunks) && n <= |Flatten(chunks)|
    ensures Flatten(Take(chunks, n)) == Flatten(chunks)[..n] && Chunks(Take(chunks, n))
    decreases |chunks|
  {
    if n > 0 {
      var c, later := chunks[0], Flatten(chunks[1..]);
      assert Flatten(chunks) == c + later;
      if |c| <= n {
        TakeFlattens(chunks[1..], n - |c|);
        var rest := Take(chunks[1..], n - |c|);
        assert ([c] + rest)[1..] == rest;
        assert (c + later)[..n] == c + later[..n - |c|];
      } else {
        assert [c[..n]][1..] == [] && c[..n] + "" == c[..n];
        assert (c + later)[..n] == c[..n];
      }
    }
  }

  lemma {:induction false} TakeFitsLine(text: string, used: nat, chunks: seq<string>, n: nat)
    requires FitsLine(text, used, chunks)
    ensures FitsLine(text, used, Take(chunks, n))
    decreases |chunks|
  {
    hide HasLine, SkipEols;
    if !HasLine(text) && Take(chunks, n) != [] {
      var c := chunks[0];
      if |c| <= n {
        TakeFitsLine(SkipEols(text + c), used + |c|, chunks[1..], n - |c|);
        assert Take(chunks, n)[1..] == Take(chunks[1..], n - |c|);
      } else {
        assert Take(chunks, n)[1..] == [];
      }
    }
  }

  /** A call on fewer reads does the same, or uses them all up. */
  lemma {:induction false} GatherTake(text: string, used: nat, chunks: seq<string>, n: nat) returns (m: nat)
    ensures var r := Gather(text, used, chunks); var r' := Gather(text, used, Take(chunks, n));
      r'.chunks == [] || (r'.line == r.line && r'.text == r.text && r'.chunks == Take(r.chunks, m))
    decreases |chunks|
  {
    hide SkipEols, LineEnd, HasLine, Gather;
    m := n;
    if HasLine(text) {
      GatherNow(text, used, chunks);
      GatherNow(text, used, Take(chunks, n));
    } else if Take(chunks, n) == [] {
      GatherNone(text, used);
    } else if |chunks[0]| <= n {
      var c, rest := chunks[0], Take(chunks[1..], n - |chunks[0]|);
      assert Take(chunks, n) == [c] + rest;
      hide Take;
      assert ([c] + rest)[1..] == rest;
      GatherMore(text, used, chunks);
      GatherMore(text, used, [c] + rest);
      if used == MAX_AT_RESPONSE {
        m := GatherTake(SkipEols(c), |c|, chunks[1..], n - |c|);
      } else {
        m := GatherTake(SkipEols(text + c), used + |c|, chunks[1..], n - |c|);
      }
    } else {
      GatherLast(text, used, chunks[0][..n]);
    }
  }

  lemma {:induction false} GatherLast(text: string, used: nat, chunk: string)
    requires !HasLine(text)
    ensures Gather(text, used, [chunk]).chunks == []
  {
    hide HasLine, SkipEols;
    assert [chunk][1..] == [];
  }

  lemma {:induction false} FitsNothing(text: string)
    ensures Fits(text, [])
    decreases |text|
  {
    hide HasLine, SkipEols;
    var t := SkipEols(text);
    GatherShrinks(t, |t|, []);
    var r := Gather(t, |t|, []);
    if r.line.Some? { FitsNothing(r.text); }
  }

  lemma {:induction false} TakeFits(text: string, chunks: seq<string>, n: nat)
    requires Fits(text, chunks)
    ensures Fits(text, Take(chunks, n))
    decreases |chunks|, |text|
  {
    hide HasLine, SkipEols, Gather, FitsLine, Take;
    var t := SkipEols(text);
    GatherShrinks(t, |t|, chunks);
    GatherShrinks(t, |t|, Take(chunks, n));
    TakeFitsLine(t, |t|, chunks, n);
    var m := GatherTake(t, |t|, chunks, n);
    var r, r' := Gather(t, |t|, chunks), Gather(t, |t|, Take(chunks, n));
    if r'.line.Some? {
      if r'.chunks == [] {
        FitsNothing(r'.text);
      } else {
        TakeFits(r.text, r.chunks, m);
      }
    }
  }

  // ---- The exact condition, as the stream arrives ----

  /** Reads that fit the buffer and bring a beginning of the stream. */
  ghost predicate Arrived(chunks: seq<string>, t: string) {
    Chunks(chunks) && Fits("", chunks) && Flatten(chunks) <= t
  }

  ghost predicate ReadRight(chunks: seq<string>) {
    ReadAll("", chunks) == Lines(Flatten(chunks))
  }

  /** The first prompt of a stream that has one. */
  lemma {:induction false} FirstPrompt(t: string) returns (i: nat)
    requires !NoPrompt(t)
    ensures PromptAt(t, i) && NoPrompt(t[..i + 1]) && EndsInPrompt(t[..i + 2])
  {
    PromptSomewhere(t);
    var j: nat :| PromptAt(t, j);
    i := FirstFrom(t, 0, j);
    var u := t[..i + 1];
    forall k | 0 <= k < |u| - 1 && u[k] == '>' && u[k + 1] == ' ' ensures k > 0 && !IsEol(u[k - 1]) {
      assert !PromptAt(t, k);
      assert u[k] == t[k] && u[k + 1] == t[k + 1];
    }
    var s := t[..i + 2];
    assert s[..|s| - 1] == u;
  }

  lemma {:induction false} FirstFrom(t: string, from: nat, j: nat) returns (i: nat)
    requires from <= j && PromptAt(t, j) && forall k: nat :: k < from ==> !PromptAt(t, k)
    ensures PromptAt(t, i) && forall k: nat :: k < i ==> !PromptAt(t, k)
    decreases j - from
  {
    if PromptAt(t, from) { i := from; } else { i := FirstFrom(t, from + 1, j); }
  }

  lemma {:induction false} NoPromptBegins(t: string, s: string)
    requires NoPrompt(t) && s <= t
    ensures NoPrompt(s)
  {
    forall k | 0 <= k < |s| - 1 && s[k] == '>' && s[k + 1] == ' ' ensures k > 0 && !IsEol(s[k - 1]) {
      assert t[k] == '>' && t[k + 1] == ' ';
    }
  }

  /**
   For every stream that can be read within the buffer at all: whatever part of it has
   arrived in whatever fitting reads, the lines returned so far are exactly the non-empty
   terminated segments of that part, if and only if no line begins with the prompt.
   */
  lemma {:induction false} ArrivingIff(t: string, some: seq<string>)
    requires Chunks(some) && Fits("", some) && Flatten(some) == t
    ensures (forall chunks: seq<string> :: Arrived(chunks, t) ==> ReadRight(chunks)) <==> NoPrompt(t)
  {
    hide NoPrompt, Arrived, ReadRight;
    if NoPrompt(t) {
      forall chunks: seq<string> | Arrived(chunks, t) ensures ReadRight(chunks) {
        ArrivedRight(chunks, t);
      }
    } else {
      var chunks := ArrivedWrong(t, some);
    }
  }

  lemma {:induction false} ArrivedRight(chunks: seq<string>, t: string)
    requires NoPrompt(t) && Arrived(chunks, t)
    ensures ReadRight(chunks)
  {
    hide NoPrompt, Fits, ReadAll, Lines;
    NoPromptBegins(t, Flatten(chunks));
    assert "" + Flatten(chunks) == Flatten(chunks);
    ChunkIndependent("", chunks);
  }

  lemma {:induction false} ArrivedWrong(t: string, some: seq<string>) returns (chunks: seq<string>)
    requires !NoPrompt(t) && Chunks(some) && Fits("", some) && Flatten(some) == t
    ensures Arrived(chunks, t) && !ReadRight(chunks)
  {
    hide NoPrompt, PromptAt, Fits, ReadAll, Lines, Take, Flatten, Chunks, EndsInPrompt;
    var i := FirstPrompt(t);
    assert i + 2 <= |t| by { PromptWithin(t, i); }
    chunks := Take(some, i + 2);
    TakeFlattens(some, i + 2);
    TakeFits("", some, i + 2);
    assert chunks + [] == chunks && "" + Flatten(chunks) == Flatten(chunks);
    PromptThenMore("", chunks, []);
    assert |ReadAll("", chunks)| > |Lines(Flatten(chunks))|;
  }

  lemma {:induction false} PromptWithin(t: string, i: nat)
    requires PromptAt(t, i)
    ensures i + 2 <= |t|
  {
  }

  // ---- The exact condition, for the stream as a whole ----

  /** No prompt is a whole line by itself. */
  ghost predicate NoBarePrompt(t: string) {
    forall i: nat :: PromptAt(t, i) && i + 2 < |t| ==> !IsEol(t[i + 2])
  }

  ghost predicate SplitOf(chunks: seq<string>, t: string) {
    Chunks(chunks) && Fits("", chunks) && Flatten(chunks) == t
  }

  lemma {:induction false} SmallFitsLine(text: string, used: nat, chunks: seq<string>)
    requires used + |Flatten(chunks)| < MAX_AT_RESPONSE
    ensures FitsLine(text, used, chunks)
    ensures var r := Gather(text, used, chunks); |r.text| + |Flatten(r.chunks)| <= |text| + |Flatten(chunks)|
    decreases |chunks|
  {
    hide EolIndex;
    if !HasLine(text) && chunks != [] {
      assert Flatten(chunks) == chunks[0] + Flatten(chunks[1..]);
      SmallFitsLine(SkipEols(text + chunks[0]), used + |chunks[0]|, chunks[1..]);
    }
  }

  /** A stream shorter than the buffer fits in any split. */
  lemma {:induction false} SmallFits(text: string, chunks: seq<string>)
    requires |text| + |Flatten(chunks)| < MAX_AT_RESPONSE
    ensures Fits(text, chunks)
    decreases |chunks|, |text|
  {
    hide HasLine, SkipEols, Gather, FitsLine, Flatten;
    var t := SkipEols(text);
    SmallFitsLine(t, |t|, chunks);
    GatherShrinks(t, |t|, chunks);
    var r := Gather(t, |t|, chunks);
    if r.line.Some? { SmallFits(r.text, r.chunks); }
  }

  /** Lines up to a line start and from it on. */
  lemma {:induction false} LinesConcat(v: string, w: string)
    requires v == "" || IsEol(v[|v| - 1])
    ensures Lines(v + w) == Lines(v) + Lines(w)
    decreases |v|
  {
    hide Lines, EolIndex, SkipEols;
    var u := SkipEols(v);
    SkipConcat(v, w);
    SkipConcat(v, "");
    assert v + "" == v && u + "" == u;
    if u == "" {
      assert "" + w == w;
      NothingIn();
    } else {
      assert u[|u| - 1] == v[|v| - 1];
      var rest := OffFirst(u, w);
      LinesConcat(rest, w);
      var first := u[..EolIndex(u)];
      assert [first] + (Lines(rest) + Lines(w)) == [first] + Lines(rest) + Lines(w);
    }
  }

  lemma {:induction false} OffFirst(u: string, w: string) returns (rest: string)
    requires u != "" && !IsEol(u[0]) && IsEol(u[|u| - 1])
    ensures EolIndex(u) < |u| && |rest| < |u| && (rest == "" || IsEol(rest[|rest| - 1]))
    ensures Lines(u + w) == [u[..EolIndex(u)]] + Lines(rest + w)
    ensures Lines(u) == [u[..EolIndex(u)]] + Lines(rest)
  {
    hide Lines, EolIndex;
    var k := EolIndex(u);
    LinesFirst(u, w);
    LinesFirst(u, "");
    rest := u[k + 1..];
    assert u + "" == u && rest + "" == rest;
  }

  lemma {:induction false} NothingIn()
    ensures Lines("") == []
  {
  }

  /** A line that begins with the prompt and goes on is not the prompt. */
  lemma {:induction false} GoesOn(w: string)
    requires |w| >= 2 && w[..2] == "> " && (|w| > 2 ==> !IsEol(w[2]))
    ensures Lines(w) == [] || |Lines(w)[0]| > 2
  {
    hide Lines, EolIndex;
    assert w[0] == w[..2][0] && w[1] == w[..2][1];
    if EolIndex(w) < |w| {
      LinesFirst(w, "");
      assert w + "" == w;
    } else {
      NoLines(w);
    }
  }

  /** Some split of a short stream is read wrong where a line begins with the prompt and goes on. */
  lemma {:induction false} SomeSplitWrong(t: string) returns (chunks: seq<string>)
    requires |t| < MAX_AT_RESPONSE && !NoPrompt(t) && NoBarePrompt(t)
    ensures SplitOf(chunks, t) && ReadAll("", chunks) != Lines(t)
  {
    hide NoPrompt, PromptAt, NoBarePrompt, Lines, EndsInPrompt, Flatten, Chunks, Fits, ReadAll;
    var i := FirstPrompt(t);
    PromptWithin(t, i);
    var v, w, p, q := t[..i], t[i..], t[..i + 2], t[i + 2..];
    PartsAt(t, i);
    var more := if q == "" then [] else [q];
    chunks := [p] + more;
    FlattenTwo(p, q);
    FlattenTwo(p, "");
    assert [p] + [] == [p] && p + "" == p && "" + p == p;
    SmallFits("", chunks);
    PromptThenMore("", [p], more);
    WrongLines(Lines(v), Lines(w), ReadAll("", chunks));
  }

  /** A short stream at its first prompt. */
  lemma {:induction false} PartsAt(t: string, i: nat)
    requires PromptAt(t, i) && NoBarePrompt(t)
    ensures var v, w, p, q := t[..i], t[i..], t[..i + 2], t[i + 2..];
      && p != "" && p + q == t
      && Lines(t) == Lines(v) + Lines(w) && Lines(p) == Lines(v) + []
      && (Lines(w) == [] || |Lines(w)[0]| > 2)
  {
    hide Lines;
    var v, w := t[..i], t[i..];
    PromptSlices(t, i);
    GoesOn(w);
    LinesConcat(v, w);
    LinesConcat(v, "> ");
    PromptHasNoEol();
    NoLines("> ");
  }

  lemma {:induction false} PromptSlices(t: string, i: nat)
    requires PromptAt(t, i) && NoBarePrompt(t)
    ensures var v, w, p, q := t[..i], t[i..], t[..i + 2], t[i + 2..];
      && v + w == t && p + q == t && v + "> " == p && (v == "" || IsEol(v[|v| - 1]))
      && |w| >= 2 && w[..2] == "> " && (|w| > 2 ==> !IsEol(w[2]))
  {
    var w, p := t[i..], t[..i + 2];
    assert w[0] == t[i] && w[1] == t[i + 1];
    assert p[i] == t[i] && p[i + 1] == t[i + 1];
  }

  lemma {:induction false} FlattenTwo(p: string, q: string)
    requires p != ""
    ensures Flatten([p] + if q == "" then [] else [q]) == p + q
    ensures Chunks([p] + if q == "" then [] else [q])
  {
    if q == "" {
      assert [p] + [] == [p] && [p][1..] == [] && p + "" == p;
    } else {
      var two := [p] + [q];
      assert two[0] == p && two[1..] == [q] && [q][1..] == [] && q + "" == q;
      assert Flatten([q]) == q;
      assert Flatten(two) == p + Flatten(two[1..]);
    }
  }

  lemma {:induction false} WrongLines(before: seq<string>, after: seq<string>, got: seq<string>)
    requires before + [] + ["> "] <= got && (after == [] || |after[0]| > 2)
    ensures got != before + after
  {
    assert got[|before|] == (before + [] + ["> "])[|before|] == "> ";
    if after != [] { assert (before + after)[|before|] == after[0]; }
  }

  /**
   For every stream shorter than the buffer in which no prompt is a line by itself: all
   splits are read as the stream's lines if and only if no line begins with the prompt.
   */
  lemma {:induction false} SplitsIff(t: string)
    requires |t| < MAX_AT_RESPONSE && NoBarePrompt(t)
    ensures (forall chunks: seq<string> :: SplitOf(chunks, t) ==> ReadAll("", chunks) == Lines(t)) <==> NoPrompt(t)
  {
    if NoPrompt(t) {
      forall chunks: seq<string> | SplitOf(chunks, t) ensures ReadAll("", chunks) == Lines(t) {
        assert "" + Flatten(chunks) == Flatten(chunks);
        ChunkIndependent("", chunks);
      }
    } else {
      var chunks := SomeSplitWrong(t);
    }
  }
}
