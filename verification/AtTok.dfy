/**
 The tokenizer for AT responses (`at_tok.c`): a cursor moves through a static line buffer and
 separators are overwritten as tokens are cut out.
 */
module AtTokSpec {
  import opened Common

  const LINE: nat := 1024
  const NUL: char := '\0'

  predicate IsSpace(c: char) {
    c in {' ', '\t', '\n', '\r', 11 as char, 12 as char}
  }

  /** The first place of a character, or the length. */
  function Index(s: string, c: char): (k: nat)
    ensures k <= |s|
    ensures k < |s| ==> s[k] == c
    ensures forall j :: 0 <= j < k ==> s[j] != c
  {
    if s == "" || s[0] == c then 0 else 1 + Index(s[1..], c)
  }

  function SkipSpace(s: string): (r: string)
    ensures |r| <= |s| && s[|s| - |r|..] == r
    ensures forall j :: 0 <= j < |s| - |r| ==> IsSpace(s[j])
    ensures r == "" || !IsSpace(r[0])
  {
    if s == "" || !IsSpace(s[0]) then s else SkipSpace(s[1..])
  }

  /** What follows the next comma; nothing if there is none. */
  function AfterComma(s: string): string {
    var k := Index(s, ',');
    if k == |s| then "" else s[k + 1..]
  }

  /** Cuts at the first delimiter; without one there is no rest. */
  function Cut(s: string, delimiter: char): (string, Option<string>) {
    var k := Index(s, delimiter);
    (s[..k], if k == |s| then None else Some(s[k + 1..]))
  }

  /** nextTok on the text under the cursor. */
  function NextTok(s0: string): (string, Option<string>) {
    var s := SkipSpace(s0);
    if s != "" && s[0] == '"' then
      var (tok, rest) := Cut(s[1..], '"');
      (tok, if rest.None? then None else Some(AfterComma(rest.value)))
    else Cut(s, ',')
  }

  predicate HasMore(cursor: Option<string>) {
    cursor.Some? && cursor.value != ""
  }

  predicate Dash(s: string) {
    |s| >= 2 && s[0] == '-' && s[1] == ','
  }

  /**
   at_tok_scanf with `n` strings to read: one entry per string counted, None where a dash
   leaves the caller's pointer as it was.
   */
  function Scan(cursor: Option<string>, n: nat): seq<Option<string>>
    decreases n
  {
    if n == 0 || !HasMore(cursor) then []
    else if Dash(cursor.value) then [None] + Scan(Some(cursor.value[2..]), n - 1)
    else
      var (tok, rest) := NextTok(cursor.value);
      [Some(tok)] + Scan(rest, n - 1)
  }

  /** at_tok_start: what follows the first colon. */
  function Start(line: string): Option<string> {
    var k := Index(line, ':');
    if k == |line| then None else Some(line[k + 1..])
  }

  /** The line as the static buffer holds it. */
  function Buffered(line: string): string {
    if |line| < LINE then line else line[..LINE - 1]
  }

  // ---- Printing ----

  datatype Token = Quoted(text: string) | Bare(text: string)

  function Show(t: Token): string {
    if t.Quoted? then "\"" + t.text + "\"" else t.text
  }

  function Print(tokens: seq<Token>): string {
    if tokens == [] then ""
    else if |tokens| == 1 then Show(tokens[0])
    else Show(tokens[0]) + "," + Print(tokens[1..])
  }

  /** Tokens that can be told apart again. */
  predicate Printable(t: Token) {
    match t
    case Quoted(text) => '"' !in text
    case Bare(text) => ',' !in text && (text == "" || (!IsSpace(text[0]) && text[0] != '"'))
  }

  predicate AllPrintable(tokens: seq<Token>) {
    && (forall i :: 0 <= i < |tokens| ==> Printable(tokens[i]))
    && (tokens != [] ==> tokens[|tokens| - 1] != Bare(""))
  }

  /** What scanning gives for each token: its text, or nothing for a bare dash before another token. */
  function Read(tokens: seq<Token>): seq<Option<string>> {
    if tokens == [] then []
    else [if |tokens| > 1 && tokens[0] == Bare("-") then None else Some(tokens[0].text)] + Read(tokens[1..])
  }

  // ---- Proofs ----

  /** Cutting a text that goes on with the delimiter. */
  lemma {:induction false} IndexAt(a: string, c: char, b: string)
    requires c !in a
    ensures Index(a + [c] + b, c) == |a| && Index(a, c) == |a|
  {
    if a == "" {
      assert a + [c] + b == [c] + b;
    } else {
      assert (a + [c] + b)[1..] == a[1..] + [c] + b;
      IndexAt(a[1..], c, b);
    }
  }

  lemma {:induction false} NoSkip(s: string)
    requires s == "" || !IsSpace(s[0])
    ensures SkipSpace(s) == s
  {
  }

  lemma {:induction false} NextQuoted(text: string, rest: string)
    requires '"' !in text
    ensures NextTok("\"" + text + "\"" + rest) == (text, Some(AfterComma(rest)))
  {
    var s := "\"" + text + "\"" + rest;
    NoSkip(s);
    assert s[1..] == text + ['"'] + rest;
    IndexAt(text, '"', rest);
    assert (text + ['"'] + rest)[..|text|] == text;
    assert (text + ['"'] + rest)[|text| + 1..] == rest;
  }

  lemma {:induction false} NextBare(text: string, rest: string)
    requires Printable(Bare(text))
    ensures NextTok(text + "," + rest) == (text, Some(rest))
  {
    var s := text + "," + rest;
    NoSkip(s);
    IndexAt(text, ',', rest);
    assert s == text + [','] + rest;
    assert s[..|text|] == text && s[|text| + 1..] == rest;
  }

  lemma {:induction false} LastBare(text: string)
    requires Printable(Bare(text)) && text != ""
    ensures NextTok(text) == (text, None)
  {
    NoSkip(text);
    IndexAt(text, ',', "");
    assert text[..|text|] == text;
  }

  lemma {:induction false} CommaFirst(rest: string)
    ensures AfterComma("," + rest) == rest && AfterComma("") == ""
  {
    assert ("," + rest)[1..] == rest;
  }

  lemma {:induction false} NotDash(t: Token, rest: string)
    requires Printable(t) && t != Bare("-")
    ensures !Dash(Show(t) + "," + rest) && !Dash(Show(t))
  {
    var s := Show(t) + "," + rest;
    if t.Bare? && |t.text| >= 2 {
      assert s[1] == t.text[1];
      assert t.text[1] in t.text;
    }
  }

  /** As many of the entries as were asked for. */
  function UpTo(read: seq<Option<string>>, n: nat): seq<Option<string>> {
    if n < |read| then read[..n] else read
  }

  /** Scanning a printed list for any number of strings reads that many tokens, or all there are. */
  lemma {:induction false} ScanPrinted(tokens: seq<Token>, n: nat)
    requires AllPrintable(tokens)
    ensures Scan(Some(Print(tokens)), n) == UpTo(Read(tokens), n)
    decreases |tokens|
  {
    hide AllPrintable, Scan, Print, Read, Show, Printable;
    if tokens == [] || n == 0 {
      ScanNone(tokens, n);
    } else if |tokens| == 1 {
      ScanLast(tokens, n);
    } else {
      Tail(tokens);
      Cons(tokens);
      ScanPrinted(tokens[1..], n - 1);
      ScanOne(tokens[0], Print(tokens[1..]), n - 1);
    }
  }

  lemma {:induction false} ScanNone(tokens: seq<Token>, n: nat)
    requires tokens == [] || n == 0
    ensures Scan(Some(Print(tokens)), n) == UpTo(Read(tokens), n)
  {
    assert n == 0 && Read(tokens) != [] ==> Read(tokens)[..0] == [];
  }

  lemma {:induction false} Cons(tokens: seq<Token>)
    requires |tokens| > 1
    ensures Print(tokens) == Show(tokens[0]) + "," + Print(tokens[1..])
    ensures Read(tokens) == [if tokens[0] == Bare("-") then None else Some(tokens[0].text)] + Read(tokens[1..])
  {
    hide Show;
  }

  lemma {:induction false} Tail(tokens: seq<Token>)
    requires AllPrintable(tokens) && |tokens| > 1
    ensures AllPrintable(tokens[1..]) && Printable(tokens[0])
  {
    assert tokens[1..][|tokens| - 2] == tokens[|tokens| - 1];
  }

  lemma {:induction false} ScanLast(tokens: seq<Token>, n: nat)
    requires AllPrintable(tokens) && |tokens| == 1 && n > 0
    ensures Scan(Some(Print(tokens)), n) == Read(tokens) && |Read(tokens)| == 1
  {
    hide NextTok, AfterComma;
    var t := tokens[0];
    assert Read(tokens) == [Some(t.text)] + Read(tokens[1..]) == [Some(t.text)];
    var s := Show(t);
    if t.Quoted? {
      NextQuoted(t.text, "");
      CommaFirst("");
      assert "\"" + t.text + "\"" + "" == s;
    } else {
      LastBare(t.text);
    }
    assert !Dash(s) by { if t != Bare("-") { NotDash(t, ""); } }
    var (tok, rest) := NextTok(s);
    assert Scan(Some(s), n) == [Some(tok)] + Scan(rest, n - 1);
  }

  /** One token that another follows. */
  lemma {:induction false} ScanOne(t: Token, rest: string, n: nat)
    requires Printable(t)
    ensures Scan(Some(Show(t) + "," + rest), n + 1)
      == [if t == Bare("-") then None else Some(t.text)] + Scan(Some(rest), n)
  {
    hide NextTok, AfterComma;
    var s := Show(t) + "," + rest;
    if t == Bare("-") {
      assert s[2..] == rest && Dash(s);
    } else {
      NotDash(t, rest);
      if t.Quoted? {
        NextQuoted(t.text, "," + rest);
        CommaFirst(rest);
        assert "\"" + t.text + "\"" + ("," + rest) == s;
      } else {
        NextBare(t.text, rest);
      }
    }
  }

  lemma {:induction false} StartsAfterColon(prefix: string, body: string)
    requires ':' !in prefix
    ensures Start(prefix + ":" + body) == Some(body)
  {
    IndexAt(prefix, ':', body);
    assert prefix + ":" + body == prefix + [':'] + body;
    assert (prefix + ":" + body)[|prefix| + 1..] == body;
  }

  /**
   Tokenizer round trip: a printed response that fits the buffer is read back token by
   token, as many as were asked for, or all of them.
   */
  lemma {:induction false} RoundTrip(prefix: string, tokens: seq<Token>, n: nat)
    requires ':' !in prefix && AllPrintable(tokens) && |prefix| + 1 + |Print(tokens)| < LINE
    ensures var line := prefix + ":" + Print(tokens);
      Scan(Start(Buffered(line)), n) == UpTo(Read(tokens), n)
  {
    StartsAfterColon(prefix, Print(tokens));
    ScanPrinted(tokens, n);
  }

  /** Without a colon there is nothing to start from, and only then. */
  lemma {:induction false} StartsIff(line: string)
    ensures Start(line).None? <==> ':' !in line
  {
    hide Index;
  }

  /** White space in front of a token does not matter. */
  lemma {:induction false} SpaceIgnored(w: string, s: string)
    requires forall i :: 0 <= i < |w| ==> IsSpace(w[i])
    ensures NextTok(w + s) == NextTok(s)
  {
    hide SkipSpace, Cut, AfterComma;
    SkipAll(w, s);
  }

  lemma {:induction false} SkipAll(w: string, s: string)
    requires forall i :: 0 <= i < |w| ==> IsSpace(w[i])
    ensures SkipSpace(w + s) == SkipSpace(s)
  {
    if w == "" {
      assert w + s == s;
    } else {
      assert (w + s)[1..] == w[1..] + s;
      SkipAll(w[1..], s);
    }
  }

  /** What stands between a quoted token and the comma behind it is dropped, and all of it if there is no comma. */
  lemma {:induction false} JunkDropped(text: string, junk: string, rest: string)
    requires '"' !in text && ',' !in junk
    ensures NextTok("\"" + text + "\"" + junk) == (text, Some(""))
    ensures NextTok("\"" + text + "\"" + (junk + "," + rest)) == (text, Some(rest))
  {
    hide NextTok;
    NextQuoted(text, junk);
    NextQuoted(text, junk + "," + rest);
    IndexAt(junk, ',', rest);
    assert junk + "," + rest == junk + [','] + rest;
    assert (junk + [','] + rest)[|junk| + 1..] == rest;
  }

  lemma {:induction false} ReadTexts(tokens: seq<Token>)
    ensures |Read(tokens)| == |tokens|
    ensures (forall i :: 0 <= i < |tokens| ==> Read(tokens)[i] == Some(tokens[i].text))
      <==> (forall i :: 0 <= i < |tokens| - 1 ==> tokens[i] != Bare("-"))
  {
    if tokens != [] {
      var rest := tokens[1..];
      ReadTexts(rest);
      assert forall i :: 0 <= i < |rest| ==> Read(tokens)[i + 1] == Read(rest)[i] && tokens[i + 1] == rest[i];
      if forall i :: 0 <= i < |tokens| ==> Read(tokens)[i] == Some(tokens[i].text) {
        forall i | 0 <= i < |rest| ensures Read(rest)[i] == Some(rest[i].text) {
          assert Read(tokens)[i + 1] == Some(tokens[i + 1].text);
        }
        assert Read(tokens)[0] == Some(tokens[0].text);
        forall i | 0 <= i < |tokens| - 1 ensures tokens[i] != Bare("-") {
          if i > 0 { assert tokens[i] == rest[i - 1]; }
        }
      }
      if forall i :: 0 <= i < |tokens| - 1 ==> tokens[i] != Bare("-") {
        forall i | 0 <= i < |rest| - 1 ensures rest[i] != Bare("-") {
          assert tokens[i + 1] == rest[i];
        }
        forall i | 0 <= i < |tokens| ensures Read(tokens)[i] == Some(tokens[i].text) {
          if i > 0 { assert Read(tokens)[i] == Read(rest)[i - 1]; }
        }
      }
    }
  }

  /**
   Scanning a printed response that fits the buffer gives every token's text back, and
   counts them all, if and only if no bare dash stands before another token.
   */
  lemma {:induction false} AllTextsIff(prefix: string, tokens: seq<Token>)
    requires ':' !in prefix && AllPrintable(tokens) && |prefix| + 1 + |Print(tokens)| < LINE
    ensures var got := Scan(Start(Buffered(prefix + ":" + Print(tokens))), |tokens|);
      && |got| == |tokens|
      && ((forall i :: 0 <= i < |tokens| ==> got[i] == Some(tokens[i].text))
          <==> (forall i :: 0 <= i < |tokens| - 1 ==> tokens[i] != Bare("-")))
  {
    hide Scan, Print, AllPrintable, Buffered, Start, Read;
    RoundTrip(prefix, tokens, |tokens|);
    ReadTexts(tokens);
  }
}

/** The same in the line buffer: cursors and tokens are positions in it. */
module AtTok {
  import opened Common
  import opened AtTokSpec

  /** The text at a position, up to the next NUL. */
  function Text(b: seq<char>, p: nat): string
    requires p <= |b|
  {
    b[p..][..Index(b[p..], NUL)]
  }

  /** A position with a NUL at or after it. */
  ghost predicate InLine(b: seq<char>, p: nat) {
    p < |b| && b[|b| - 1] == NUL
  }

  ghost function Under(b: seq<char>, cursor: Option<nat>): Option<string>
    requires cursor.Some? ==> cursor.value <= |b|
  {
    if cursor.None? then None else Some(Text(b, cursor.value))
  }

  lemma {:induction false} TextHere(b: seq<char>, p: nat)
    requires InLine(b, p)
    ensures b[p] == NUL <==> Text(b, p) == ""
    ensures b[p] != NUL ==> Text(b, p)[0] == b[p] && InLine(b, p + 1) && Text(b, p + 1) == Text(b, p)[1..]
    ensures p + |Text(b, p)| < |b| && b[p + |Text(b, p)|] == NUL
    ensures forall j :: 0 <= j < |Text(b, p)| ==> b[p + j] == Text(b, p)[j]
  {
    var r := b[p..];
    assert r[|r| - 1] == NUL;
    if b[p] != NUL {
      assert b[p + 1..] == r[1..];
    }
  }

  /** A text is found by where its NUL is. */
  lemma {:induction false} TextIs(b: seq<char>, p: nat, s: string)
    requires p + |s| < |b| && b[p..p + |s|] == s && b[p + |s|] == NUL && NUL !in s
    ensures Text(b, p) == s
  {
    var r := b[p..];
    assert r == s + [NUL] + r[|s| + 1..];
    IndexAt(s, NUL, r[|s| + 1..]);
    assert r[..|s|] == s;
  }

  lemma {:induction false} NoNul(b: seq<char>, p: nat)
    requires p <= |b|
    ensures NUL !in Text(b, p)
  {
  }

  lemma {:induction false} TextFrom(b: seq<char>, p: nat, k: nat)
    requires InLine(b, p) && k <= |Text(b, p)|
    ensures InLine(b, p + k) && Text(b, p + k) == Text(b, p)[k..]
    decreases k
  {
    if k > 0 {
      TextHere(b, p);
      TextFrom(b, p + 1, k - 1);
      assert Text(b, p)[1..][k - 1..] == Text(b, p)[k..];
    } else {
      assert Text(b, p)[0..] == Text(b, p);
    }
  }

  /** What was written from `q` on does not reach a text that ends before it. */
  lemma {:induction false} TextKept(b: seq<char>, c: seq<char>, p: nat, q: nat)
    requires InLine(b, p) && |c| == |b| && q <= |b| && p + |Text(b, p)| < q && b[..q] == c[..q]
    ensures Text(c, p) == Text(b, p)
  {
    TextHere(b, p);
    NoNul(b, p);
    var s := Text(b, p);
    assert forall j :: 0 <= j < q ==> b[..q][j] == c[..q][j];
    assert forall j :: 0 <= j < q ==> b[j] == c[j];
    assert c[p..p + |s|] == s;
    TextIs(c, p, s);
  }

  method SkipWhiteSpace(b: array<char>, p0: nat) returns (p: nat)
    requires InLine(b[..], p0)
    ensures p0 <= p && InLine(b[..], p) && Text(b[..], p) == SkipSpace(Text(b[..], p0))
  {
    hide Text, SkipSpace;
    p := p0;
    ghost var line := b[..];
    while b[p] != NUL && IsSpace(b[p])
      invariant p0 <= p && InLine(line, p)
      invariant SkipSpace(Text(line, p)) == SkipSpace(Text(line, p0))
      decreases b.Length - p
    {
      TextHere(line, p);
      SpaceLater(Text(line, p));
      p := p + 1;
    }
    TextHere(line, p);
    SpaceEnds(Text(line, p));
  }

  method SkipNextComma(b: array<char>, p0: nat) returns (p: nat)
    requires InLine(b[..], p0)
    ensures p0 <= p && InLine(b[..], p) && Text(b[..], p) == AfterComma(Text(b[..], p0))
  {
    hide Text, AfterComma;
    p := p0;
    while b[p] != NUL && b[p] != ','
      invariant p0 <= p && InLine(b[..], p)
      invariant AfterComma(Text(b[..], p)) == AfterComma(Text(b[..], p0))
      decreases b.Length - p
    {
      TextHere(b[..], p);
      CommaLater(Text(b[..], p));
      p := p + 1;
    }
    TextHere(b[..], p);
    CommaHere(Text(b[..], p));
    if b[p] == ',' {
      p := p + 1;
    }
  }

  lemma {:induction false} CommaHere(s: string)
    ensures s == "" ==> AfterComma(s) == s
    ensures s != "" && s[0] == ',' ==> AfterComma(s) == s[1..]
  {
  }

  lemma {:induction false} SpaceLater(s: string)
    requires s != "" && IsSpace(s[0])
    ensures SkipSpace(s) == SkipSpace(s[1..])
  {
  }

  lemma {:induction false} SpaceEnds(s: string)
    requires s == "" || !IsSpace(s[0])
    ensures SkipSpace(s) == s
  {
  }

  lemma {:induction false} CommaLater(s: string)
    requires s != "" && s[0] != ','
    ensures AfterComma(s) == AfterComma(s[1..])
  {
    if Index(s[1..], ',') < |s| - 1 {
      assert s[1..][Index(s[1..], ',') + 1..] == s[Index(s, ',') + 1..];
    }
  }

  /** strsep with one delimiter. */
  method StrSep(b: array<char>, p: nat, delimiter: char) returns (next: Option<nat>)
    requires InLine(b[..], p) && delimiter != NUL
    modifies b
    ensures InLine(b[..], p) && b[..p] == old(b[..p])
    ensures next.Some? ==> p < next.value <= b.Length && InLine(b[..], next.value)
    ensures (Text(b[..], p), Under(b[..], next)) == Cut(old(Text(b[..], p)), delimiter)
    ensures next.Some? ==> p + |Text(b[..], p)| < next.value
  {
    hide Text, Index;
    ghost var was := b[..];
    ghost var s := Text(was, p);
    NoNul(was, p);
    TextHere(was, p);
    var k := FindStop(b, p, delimiter);
    if b[p + k] == NUL {
      assert s[..k] == s;
      next := None;
    } else {
      TextFrom(was, p, k);
      TextFrom(was, p, k + 1);
      NotLast(was, p + k);
      b[p + k] := NUL;
      next := Some(p + k + 1);
      Overwritten(was, b[..], p, k);
    }
  }

  /** How far the text goes without the delimiter. */
  method FindStop(b: array<char>, p: nat, delimiter: char) returns (k: nat)
    requires InLine(b[..], p) && delimiter != NUL
    ensures k == Index(Text(b[..], p), delimiter) && p + k < b.Length
    ensures b[p + k] == NUL <==> k == |Text(b[..], p)|
  {
    ghost var s := Text(b[..], p);
    hide Text, Index;
    TextHere(b[..], p);
    NoNul(b[..], p);
    k := 0;
    while b[p + k] != NUL && b[p + k] != delimiter
      invariant 0 <= k <= |s| && p + k < b.Length
      invariant forall j :: 0 <= j < k ==> s[j] != delimiter
      decreases |s| - k
    {
      assert s[k] == b[p + k];
      k := k + 1;
    }
    if k < |s| {
      assert s[k] == b[p + k] && s[k] in s;
    }
  }

  /** Writing a NUL over the delimiter cuts the text in two. */
  lemma {:induction false} Overwritten(was: seq<char>, b: seq<char>, p: nat, k: nat)
    requires InLine(was, p) && k < |Text(was, p)| && p + k < |was| && b == was[p + k := NUL]
    ensures Text(b, p) == Text(was, p)[..k] && Text(b, p + k + 1) == Text(was, p + k + 1) && b[..p] == was[..p]
  {
    var s := Text(was, p);
    NoNul(was, p);
    TextHere(was, p);
    hide Text;
    assert b[p..p + k] == s[..k];
    TextIs(b, p, s[..k]);
    Beyond(was, b, p + k + 1);
  }

  lemma {:induction false} NotLast(b: seq<char>, p: nat)
    requires InLine(b, p) && b[p] != NUL
    ensures p + 1 < |b|
  {
  }

  lemma {:induction false} Beyond(b: seq<char>, c: seq<char>, q: nat)
    requires q <= |b| == |c| && b[q..] == c[q..]
    ensures Text(c, q) == Text(b, q)
  {
  }

  /** nextTok: the token's position and the cursor after it. */
  method Next(b: array<char>, p: nat) returns (tok: nat, next: Option<nat>)
    requires InLine(b[..], p)
    modifies b
    ensures p <= tok && InLine(b[..], tok) && b[..p] == old(b[..p])
    ensures next.Some? ==> InLine(b[..], next.value) && tok + |Text(b[..], tok)| < next.value
    ensures (Text(b[..], tok), Under(b[..], next)) == NextTok(old(Text(b[..], p)))
  {
    hide Text, Cut, SkipSpace, AfterComma;
    ghost var was := b[..];
    tok := SkipWhiteSpace(b, p);
    TextHere(was, tok);
    if b[tok] == '"' {
      tok := tok + 1;
      next := StrSep(b, tok, '"');
      assert b[..p] == b[..tok][..p] == was[..p];
      if next.Some? {
        var q := SkipNextComma(b, next.value);
        next := Some(q);
      }
    } else {
      next := StrSep(b, tok, ',');
      assert b[..p] == b[..tok][..p] == was[..p];
    }
  }

  /** Every token found so far still reads as it should, below the cursor. */
  ghost predicate Reads(b: seq<char>, found: seq<Option<nat>>, texts: seq<Option<string>>, cursor: Option<nat>) {
    && |found| == |texts|
    && forall i :: 0 <= i < |found| ==>
         && found[i].Some? == texts[i].Some?
         && (found[i].Some? ==>
               && InLine(b, found[i].value) && Text(b, found[i].value) == texts[i].value
               && (cursor.Some? ==> found[i].value + |Text(b, found[i].value)| < cursor.value))
  }

  lemma {:induction false} ReadsKept(b: seq<char>, c: seq<char>, found: seq<Option<nat>>,
      texts: seq<Option<string>>, p: nat,
      next: Option<nat>)
    requires Reads(b, found, texts, Some(p)) && p <= |b| == |c| && b[..p] == c[..p] && |c| > 0 && c[|c| - 1] == NUL
    requires next.Some? ==> p <= next.value
    ensures Reads(c, found, texts, next)
  {
    hide Text;
    forall i | 0 <= i < |found| && found[i].Some?
      ensures InLine(c, found[i].value) && Text(c, found[i].value) == texts[i].value
    {
      TextKept(b, c, found[i].value, p);
    }
  }

  /** strncpy into the static line. */
  method Copy(b: array<char>, line: string)
    requires b.Length == LINE && NUL !in line && b[LINE - 1] == NUL
    modifies b
    ensures InLine(b[..], 0) && Text(b[..], 0) == Buffered(line)
  {
    forall i | 0 <= i < LINE - 1 {
      b[i] := if i < |line| then line[i] else NUL;
    }
    var n := |Buffered(line)|;
    assert b[..][0..n] == Buffered(line);
    TextIs(b[..], 0, Buffered(line));
  }

  /** at_tok_start. */
  method TokStart(b: array<char>) returns (cursor: Option<nat>)
    requires InLine(b[..], 0)
    ensures cursor.Some? ==> InLine(b[..], cursor.value)
    ensures Under(b[..], cursor) == Start(Text(b[..], 0))
  {
    hide Text, Index;
    TextHere(b[..], 0);
    var k := FindStop(b, 0, ':');
    if b[k] == NUL {
      cursor := None;
    } else {
      TextFrom(b[..], 0, k + 1);
      cursor := Some(k + 1);
    }
  }

  /** at_tok_scanf with `n` strings to read: positions of the tokens, which end up in the buffer. */
  method Scanf(b: array<char>, line: string, n: nat) returns (found: seq<Option<nat>>)
    requires b.Length == LINE && NUL !in line && b[LINE - 1] == NUL
    modifies b
    ensures Reads(b[..], found, Scan(Start(Buffered(line)), n), None)
  {
    Copy(b, line);
    hide Text, Reads, Scan, Start, Buffered, Under;
    var cursor := TokStart(b);
    found := ScanAll(b, cursor, n);
  }

  /** The loop over the format. */
  method ScanAll(b: array<char>, start: Option<nat>, n: nat) returns (found: seq<Option<nat>>)
    requires b.Length > 0 && b[b.Length - 1] == NUL && (start.Some? ==> InLine(b[..], start.value))
    modifies b
    ensures Reads(b[..], found, old(Scan(Under(b[..], start), n)), None)
  {
    hide Text, Reads, Scan, Under, HasMore;
    found := [];
    ghost var texts: seq<Option<string>> := [];
    var cursor := start;
    ghost var all := Scan(Under(b[..], start), n);
    var i := 0;
    NothingYet(b[..], cursor);
    while i < n
      invariant 0 <= i <= n
      invariant b[b.Length - 1] == NUL
      invariant cursor.Some? ==> InLine(b[..], cursor.value)
      invariant Reads(b[..], found, texts, cursor)
      invariant texts + Scan(Under(b[..], cursor), n - i) == all
    {
      if cursor.None? || b[cursor.value] == NUL {
        MoreHere(b[..], cursor);
        break;
      }
      ghost var before := texts;
      ghost var text;
      var entry, next;
      entry, next, text := ScanStep(b, cursor.value, found, texts, n - i - 1);
      found := found + [entry];
      texts := texts + [text];
      cursor := next;
      i := i + 1;
      assert before + ([text] + Scan(Under(b[..], cursor), n - i)) == texts + Scan(Under(b[..], cursor), n - i);
    }
    ScanDone(Under(b[..], cursor), n - i);
    assert texts + [] == texts;
    Finished(b[..], found, texts, cursor);
  }

  lemma {:induction false} ScanDone(cursor: Option<string>, n: nat)
    ensures n == 0 || !HasMore(cursor) ==> Scan(cursor, n) == []
  {
  }

  /** One string read: a dash leaves the caller's pointer alone, anything else is a token. */
  method ScanStep(b: array<char>, p: nat, ghost found: seq<Option<nat>>, ghost texts: seq<Option<string>>, ghost m: nat)
    returns (entry: Option<nat>, next: Option<nat>, ghost text: Option<string>)
    requires InLine(b[..], p) && b[p] != NUL && Reads(b[..], found, texts, Some(p))
    modifies b
    ensures b[b.Length - 1] == NUL && (next.Some? ==> InLine(b[..], next.value))
    ensures Reads(b[..], found + [entry], texts + [text], next)
    ensures old(Scan(Under(b[..], Some(p)), m + 1)) == [text] + Scan(Under(b[..], next), m)
  {
    hide Text, Reads, NextTok, Dash;
    ghost var was := b[..];
    IsDash(was, p);
    TextHere(was, p);
    if b[p] == '-' && b[p + 1] == ',' {
      entry, next, text := None, Some(p + 2), None;
      OneMoreDash(was, found, texts, p);
    } else {
      var tok;
      tok, next := Next(b, p);
      OneMoreToken(was, b[..], found, texts, p, tok, next);
      entry, text := Some(tok), Some(Text(b[..], tok));
    }
  }

  lemma {:induction false} NothingYet(b: seq<char>, cursor: Option<nat>)
    ensures Reads(b, [], [], cursor)
  {
  }

  lemma {:induction false} MoreHere(b: seq<char>, cursor: Option<nat>)
    requires cursor.Some? ==> InLine(b, cursor.value)
    ensures HasMore(Under(b, cursor)) <==> cursor.Some? && b[cursor.value] != NUL
  {
    if cursor.Some? { TextHere(b, cursor.value); }
  }

  lemma {:induction false} IsDash(b: seq<char>, p: nat)
    requires InLine(b, p) && b[p] != NUL
    ensures p + 1 < |b| && (Dash(Text(b, p)) <==> b[p] == '-' && b[p + 1] == ',')
    ensures Dash(Text(b, p)) ==> InLine(b, p + 2) && Text(b, p + 2) == Text(b, p)[2..]
  {
    TextHere(b, p);
    TextHere(b, p + 1);
    if Dash(Text(b, p)) { TextFrom(b, p, 2); }
  }

  lemma {:induction false} OneMoreDash(b: seq<char>, found: seq<Option<nat>>, texts: seq<Option<string>>, p: nat)
    requires Reads(b, found, texts, Some(p))
    ensures Reads(b, found + [None], texts + [None], Some(p + 2))
  {
  }

  lemma {:induction false} OneMoreToken(b: seq<char>, c: seq<char>, found: seq<Option<nat>>,
      texts: seq<Option<string>>, p: nat,
      tok: nat, next: Option<nat>)
    requires Reads(b, found, texts, Some(p)) && p <= |b| == |c| && b[..p] == c[..p]
    requires p <= tok && InLine(c, tok) && (next.Some? ==> InLine(c, next.value) && tok + |Text(c, tok)| < next.value)
    ensures Reads(c, found + [Some(tok)], texts + [Some(Text(c, tok))], next)
  {
    ReadsKept(b, c, found, texts, p, next);
  }

  lemma {:induction false} Finished(b: seq<char>, found: seq<Option<nat>>, texts: seq<Option<string>>,
      cursor: Option<nat>)
    requires Reads(b, found, texts, cursor)
    ensures Reads(b, found, texts, None)
  {
  }
}
