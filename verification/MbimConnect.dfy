/**
 The data part of an MBIM connect request (`mbim-cm.c`; section 10.5.12 of the MBIM 1.0
 specification): access string, user name and password as 16-bit characters behind a fixed
 structure, each located by an offset and a size.
 */
module MbimConnectSpec {
  import opened Common

  /** The fixed structure in front of the data buffer. */
  const FIXED: nat := 60

  function Align(n: nat): (r: nat)
    ensures n <= r < n + 4 && r % 4 == 0
    ensures n % 2 == 0 ==> r <= n + 2
  {
    if n % 4 == 0 then n else n + (4 - n % 4)
  }

  /** Each byte followed by a zero byte. */
  function Widen(s: seq<byte>): (w: seq<byte>)
    ensures |w| == 2 * |s|
  {
    if s == [] then [] else [s[0], 0] + Widen(s[1..])
  }

  /** Every other byte. */
  function Narrow(w: seq<byte>): seq<byte> {
    seq(|w| / 2, i requires 0 <= i < |w| / 2 => w[2 * i])
  }

  lemma {:induction false} WidenLetter(s: seq<byte>, i: nat)
    requires i < |s|
    ensures Widen(s)[2 * i] == s[i] && Widen(s)[2 * i + 1] == 0
  {
    if i > 0 { WidenLetter(s[1..], i - 1); }
  }

  lemma {:induction false} NarrowWiden(s: seq<byte>)
    ensures Narrow(Widen(s)) == s
  {
    forall i | 0 <= i < |s| ensures Widen(s)[2 * i] == s[i] {
      WidenLetter(s, i);
    }
    hide Widen;
  }

  /** A text's place in the data buffer; nothing is written for an empty one. */
  datatype Range = Range(start: nat, size: nat)

  predicate Disjoint(a: Range, b: Range) {
    a.size == 0 || b.size == 0 || a.start + a.size <= b.start || b.start + b.size <= a.start
  }

  datatype Layout = Layout(apn: Range, user: Range, pd: Range, total: nat)

  /** The space set aside: the three texts one after the other, aligned. */
  function Total(apn: nat, user: nat, pd: nat): nat {
    Align(Align(Align(2 * apn) + 2 * user) + 2 * pd)
  }

  /** Where each text is put, by length; the running offset restarts at every text written. */
  function Place(apn: nat, user: nat, pd: nat): Layout {
    var afterApn := if apn > 0 then Align(2 * apn) else 0;
    var afterUser := if user > 0 then Align(2 * user) else afterApn;
    Layout(Range(0, 2 * apn), Range(afterApn, 2 * user), Range(afterUser, 2 * pd), Total(apn, user, pd))
  }

  /** Overwrites part of a buffer. */
  function Put(buf: seq<byte>, at: nat, bytes: seq<byte>): seq<byte>
    requires at + |bytes| <= |buf|
  {
    buf[..at] + bytes + buf[at + |bytes|..]
  }

  ghost predicate Inside(r: Range, total: nat) {
    r.start + r.size <= total
  }

  /** Every range is aligned and inside the buffer, for all lengths. */
  lemma {:induction false} AlignedInside(apn: nat, user: nat, pd: nat)
    ensures var l := Place(apn, user, pd);
      && (FIXED + l.apn.start) % 4 == 0 && (FIXED + l.user.start) % 4 == 0 && (FIXED + l.pd.start) % 4 == 0
      && Inside(l.apn, l.total) && Inside(l.user, l.total) && Inside(l.pd, l.total)
  {
    AlignMonotone(2 * user, Align(2 * apn) + 2 * user);
    hide Align;
    assert Align(2 * apn) <= Align(Align(2 * apn) + 2 * user) <= Total(apn, user, pd);
    Shifted60(Align(2 * apn));
    Shifted60(Align(2 * user));
  }

  lemma {:induction false} Shifted60(n: nat)
    requires n % 4 == 0
    ensures (FIXED + n) % 4 == 0
  {
  }

  lemma {:induction false} AlignMonotone(a: nat, b: nat)
    requires a <= b
    ensures Align(a) <= Align(b)
  {
    hide Align;
    if Align(b) < Align(a) { Quarters(Align(b), Align(a)); }
  }

  /** The ranges are pairwise disjoint if and only if not all three texts are there. */
  lemma {:induction false} DisjointIff(apn: nat, user: nat, pd: nat)
    ensures var l := Place(apn, user, pd);
      (Disjoint(l.apn, l.user) && Disjoint(l.apn, l.pd) && Disjoint(l.user, l.pd))
        <==> (apn == 0 || user == 0 || pd == 0)
  {
    if apn > 0 && user > 0 && pd > 0 {
      Overlap(apn, user, pd);
    }
  }

  /** With all three the password always runs into one of the others. */
  lemma {:induction false} Overlap(apn: nat, user: nat, pd: nat)
    requires apn > 0 && user > 0 && pd > 0
    ensures var l := Place(apn, user, pd); !Disjoint(l.user, l.pd) || !Disjoint(l.apn, l.pd)
  {
    hide Align, Total;
    var a, p := Align(2 * apn), Align(2 * user);
    Even(apn);
    Even(user);
    if p + 2 * pd <= a {
      Quarters(p, a);
    }
  }

  lemma {:induction false} Even(n: nat)
    ensures 2 * n % 2 == 0
  {
  }

  lemma {:induction false} Quarters(p: nat, a: nat)
    requires p % 4 == 0 && a % 4 == 0 && p < a
    ensures p + 4 <= a
  {
  }

  /** The buffer after the three writes. */
  function Image(apn: seq<byte>, user: seq<byte>, pd: seq<byte>): (buf: seq<byte>)
    ensures |buf| == Total(|apn|, |user|, |pd|)
  {
    var l := Place(|apn|, |user|, |pd|);
    AlignedInside(|apn|, |user|, |pd|);
    var b0: seq<byte> := seq(l.total, _ => 0);
    var b1 := Put(b0, l.apn.start, Widen(apn));
    var b2 := Put(b1, l.user.start, Widen(user));
    Put(b2, l.pd.start, Widen(pd))
  }

  function Part(buf: seq<byte>, r: Range): seq<byte>
    requires r.start + r.size <= |buf|
  {
    buf[r.start..r.start + r.size]
  }

  lemma {:induction false} PutThere(buf: seq<byte>, at: nat, bytes: seq<byte>)
    requires at + |bytes| <= |buf|
    ensures Part(Put(buf, at, bytes), Range(at, |bytes|)) == bytes
  {
  }

  lemma {:induction false} PutElsewhere(buf: seq<byte>, at: nat, bytes: seq<byte>, r: Range)
    requires at + |bytes| <= |buf| && r.start + r.size <= |buf| && Disjoint(Range(at, |bytes|), r)
    ensures Part(Put(buf, at, bytes), r) == Part(buf, r)
  {
    if |bytes| == 0 {
      assert Put(buf, at, bytes) == buf;
    }
  }

  /** Unless all three are there, each text is read back from its range. */
  lemma {:induction false} ReadBack(apn: seq<byte>, user: seq<byte>, pd: seq<byte>)
    requires apn == [] || user == [] || pd == []
    ensures var l := Place(|apn|, |user|, |pd|); var buf := Image(apn, user, pd);
      && Inside(l.apn, |buf|) && Inside(l.user, |buf|) && Inside(l.pd, |buf|)
      && Narrow(Part(buf, l.apn)) == apn && Narrow(Part(buf, l.user)) == user && Narrow(Part(buf, l.pd)) == pd
  {
    hide Place, Put, Part, Widen, Narrow, Disjoint, Total;
    var l := Place(|apn|, |user|, |pd|);
    AlignedInside(|apn|, |user|, |pd|);
    DisjointIff(|apn|, |user|, |pd|);
    assert l.apn == Range(l.apn.start, |Widen(apn)|) && l.user == Range(l.user.start, |Widen(user)|)
      && l.pd == Range(l.pd.start, |Widen(pd)|) by {
      Sizes(|apn|, |user|, |pd|);
    }
    assert l.total == Total(|apn|, |user|, |pd|) by { Sizes(|apn|, |user|, |pd|); }
    var b0: seq<byte> := seq(l.total, _ => 0);
    var b1 := Put(b0, l.apn.start, Widen(apn));
    PutLength(b0, l.apn.start, Widen(apn));
    var b2 := Put(b1, l.user.start, Widen(user));
    PutLength(b1, l.user.start, Widen(user));
    PutThere(b0, l.apn.start, Widen(apn));
    Symmetric(l);
    PutElsewhere(b1, l.user.start, Widen(user), l.apn);
    PutElsewhere(b2, l.pd.start, Widen(pd), l.apn);
    PutThere(b1, l.user.start, Widen(user));
    PutElsewhere(b2, l.pd.start, Widen(pd), l.user);
    PutThere(b2, l.pd.start, Widen(pd));
    NarrowWiden(apn);
    NarrowWiden(user);
    NarrowWiden(pd);
  }

  /** The letters of two texts are the same wherever both would be put. */
  ghost predicate Agree(start: nat, text: seq<byte>, at: nat, over: seq<byte>) {
    forall i, j :: 0 <= i < |text| && 0 <= j < |over| && start + 2 * i == at + 2 * j ==> text[i] == over[j]
  }

  lemma {:induction false} PutLetter(buf: seq<byte>, at: nat, over: seq<byte>, j: int)
    requires at + 2 * |over| <= |buf| && 0 <= at + 2 * j < |buf|
    ensures |Put(buf, at, Widen(over))| == |buf|
    ensures Put(buf, at, Widen(over))[at + 2 * j] == if 0 <= j < |over| then over[j] else buf[at + 2 * j]
  {
    hide Put, Widen;
    PutByte(buf, at, Widen(over), at + 2 * j);
    if 0 <= j < |over| {
      WidenLetter(over, j);
    }
  }

  lemma {:induction false} PutByte(buf: seq<byte>, at: nat, bytes: seq<byte>, q: nat)
    requires at + |bytes| <= |buf| && q < |buf|
    ensures |Put(buf, at, bytes)| == |buf|
    ensures Put(buf, at, bytes)[q] == if at <= q < at + |bytes| then bytes[q - at] else buf[q]
  {
  }

  /** A text that another is written over is read back if and only if the two agree. */
  lemma {:induction false} PutOver(buf: seq<byte>, at: nat, over: seq<byte>, start: nat, text: seq<byte>, d: int)
    requires at + 2 * |over| <= |buf| && start + 2 * |text| <= |buf| && start == at + 2 * d
    requires forall i :: 0 <= i < |text| ==> buf[start + 2 * i] == text[i]
    ensures |Put(buf, at, Widen(over))| == |buf|
    ensures Narrow(Part(Put(buf, at, Widen(over)), Range(start, 2 * |text|))) == text <==> Agree(start, text, at, over)
  {
    hide Widen, Agree, Narrow, Part;
    PutLength(buf, at, Widen(over));
    var after := Put(buf, at, Widen(over));
    hide Put;
    var got := Narrow(Part(after, Range(start, 2 * |text|)));
    PartLength(after, start, |text|);
    forall i | 0 <= i < |text| ensures got[i] == if 0 <= d + i < |over| then over[d + i] else text[i] {
      PartLetter(after, start, |text|, i);
      PutLetter(buf, at, over, d + i);
    }
    AgreeIff(got, start, text, at, over, d);
  }

  lemma {:induction false} PartLength(buf: seq<byte>, start: nat, n: nat)
    requires start + 2 * n <= |buf|
    ensures |Narrow(Part(buf, Range(start, 2 * n)))| == n
  {
  }

  lemma {:induction false} PartLetter(buf: seq<byte>, start: nat, n: nat, i: nat)
    requires start + 2 * n <= |buf| && i < n
    ensures |Narrow(Part(buf, Range(start, 2 * n)))| == n
    ensures Narrow(Part(buf, Range(start, 2 * n)))[i] == buf[start + 2 * i]
  {
  }

  lemma {:induction false} AgreeIff(got: seq<byte>, start: nat, text: seq<byte>, at: nat, over: seq<byte>, d: int)
    requires start == at + 2 * d && |got| == |text|
    requires forall i :: 0 <= i < |text| ==> got[i] == if 0 <= d + i < |over| then over[d + i] else text[i]
    ensures got == text <==> Agree(start, text, at, over)
  {
    if Agree(start, text, at, over) {
      forall i | 0 <= i < |text| ensures got[i] == text[i] {
        if 0 <= d + i < |over| { assert start + 2 * i == at + 2 * (d + i); }
      }
    } else {
      var i, j :| 0 <= i < |text| && 0 <= j < |over| && start + 2 * i == at + 2 * j && text[i] != over[j];
      assert j == d + i;
    }
  }

  lemma {:induction false} WrittenAt(buf: seq<byte>, at: nat, text: seq<byte>)
    requires at + 2 * |text| <= |buf|
    ensures var after := Put(buf, at, Widen(text));
      |after| == |buf| && forall i :: 0 <= i < |text| ==> after[at + 2 * i] == text[i]
  {
    PutLength(buf, at, Widen(text));
    hide Put, Widen;
    var after := Put(buf, at, Widen(text));
    forall i | 0 <= i < |text| ensures after[at + 2 * i] == text[i] {
      PutByte(buf, at, Widen(text), at + 2 * i);
      WidenLetter(text, i);
    }
  }

  lemma {:induction false} StillAt(buf: seq<byte>, at: nat, over: seq<byte>, start: nat, text: seq<byte>)
    requires at + 2 * |over| <= |buf| && start + 2 * |text| <= at
    requires forall i :: 0 <= i < |text| ==> buf[start + 2 * i] == text[i]
    ensures var after := Put(buf, at, Widen(over));
      |after| == |buf| && forall i :: 0 <= i < |text| ==> after[start + 2 * i] == text[i]
  {
    hide Widen;
  }

  /**
   For all texts: the password is always read back, and the access string and the user name
   each if and only if their letters agree with the password's where their ranges overlap it.
   */
  lemma {:induction false} ReadBackIff(apn: seq<byte>, user: seq<byte>, pd: seq<byte>)
    ensures var l := Place(|apn|, |user|, |pd|); var buf := Image(apn, user, pd);
      && Inside(l.apn, |buf|) && Inside(l.user, |buf|) && Inside(l.pd, |buf|)
      && Narrow(Part(buf, l.pd)) == pd
      && (Narrow(Part(buf, l.apn)) == apn <==> Agree(l.apn.start, apn, l.pd.start, pd))
      && (Narrow(Part(buf, l.user)) == user <==> Agree(l.user.start, user, l.pd.start, pd))
  {
    var l := Place(|apn|, |user|, |pd|);
    AlignedInside(|apn|, |user|, |pd|);
    InOrder(|apn|, |user|, |pd|);
    hide Place, Put, Part, Widen, Narrow, Agree, Align, Total;
    var b0: seq<byte> := seq(l.total, _ => 0);
    var b1 := Put(b0, l.apn.start, Widen(apn));
    WrittenAt(b0, l.apn.start, apn);
    var b2 := Put(b1, l.user.start, Widen(user));
    StillAt(b1, l.user.start, user, l.apn.start, apn);
    WrittenAt(b1, l.user.start, user);
    var p, u := l.pd.start / 4, l.user.start / 4;
    PutOver(b2, l.pd.start, pd, l.apn.start, apn, -2 * p);
    PutOver(b2, l.pd.start, pd, l.user.start, user, 2 * u - 2 * p);
    PutThere(b2, l.pd.start, Widen(pd));
    NarrowWiden(pd);
  }

  lemma {:induction false} InOrder(apn: nat, user: nat, pd: nat)
    ensures var l := Place(apn, user, pd);
      && l.apn == Range(0, 2 * apn) && l.user.size == 2 * user && l.pd.size == 2 * pd && l.total == Total(apn, user, pd)
      && 2 * apn <= l.user.start && l.user.start == 4 * (l.user.start / 4) && l.pd.start == 4 * (l.pd.start / 4)
  {
    hide Align, Total;
  }

  /** With all three a text can be lost: of one letter each, the password lands on the user name. */
  lemma {:induction false} Damaged()
    ensures var l := Place(1, 1, 1); var buf := Image([97], [98], [99]);
      Inside(l.user, |buf|) && Narrow(Part(buf, l.user)) == [99]
  {
    var l := Place(1, 1, 1);
    assert l.user == Range(4, 2) && l.pd == Range(4, 2) && l.apn == Range(0, 2) && l.total == 12;
    NarrowWiden([99]);
  }

  lemma {:induction false} Sizes(apn: nat, user: nat, pd: nat)
    ensures var l := Place(apn, user, pd);
      l.apn.size == 2 * apn && l.user.size == 2 * user && l.pd.size == 2 * pd && l.total == Total(apn, user, pd)
  {
  }

  lemma {:induction false} PutLength(buf: seq<byte>, at: nat, bytes: seq<byte>)
    requires at + |bytes| <= |buf|
    ensures |Put(buf, at, bytes)| == |buf|
  {
  }

  lemma {:induction false} Symmetric(l: Layout)
    ensures Disjoint(l.apn, l.user) == Disjoint(l.user, l.apn) && Disjoint(l.apn, l.pd) == Disjoint(l.pd, l.apn)
      && Disjoint(l.user, l.pd) == Disjoint(l.pd, l.user)
  {
  }
}

/** The same, in one buffer. */
module MbimConnect {
  import opened Common
  import opened MbimConnectSpec

  /** char2wchar: as many characters as there is room for. */
  method CharToWchar(src: seq<byte>, dst: array<byte>, at: nat, room: nat) returns (n: nat)
    requires at + room <= dst.Length
    modifies dst
    ensures var count := if |src| > room / 2 then room / 2 else |src|;
      n == 2 * count && dst[..] == Put(old(dst[..]), at, Widen(src[..count]))
  {
    hide Widen, Put;
    var count := if |src| > room / 2 then room / 2 else |src|;
    ghost var before := dst[..];
    var i := 0;
    assert src[..0] == [];
    PutNothing(before, at, src[..0]);
    while i < count
      invariant 0 <= i <= count && dst.Length == |before|
      invariant dst[..] == Put(before, at, Widen(src[..i]))
    {
      PutOneMore(before, at, src[..i], src[i]);
      assert src[..i] + [src[i]] == src[..i + 1];
      ghost var was := dst[..];
      dst[at + 2 * i] := src[i];
      dst[at + 2 * i + 1] := 0;
      assert dst[..] == was[at + 2 * i := src[i]][at + 2 * i + 1 := 0];
      i := i + 1;
    }
    n := 2 * i;
  }

  lemma {:induction false} WidenAppend(s: seq<byte>, c: byte)
    ensures Widen(s + [c]) == Widen(s) + [c, 0]
  {
    if s == [] {
      assert [] + [c] == [c] && [c][1..] == [];
    } else {
      WidenAppend(s[1..], c);
      assert (s + [c])[1..] == s[1..] + [c];
      assert Widen(s + [c]) == [s[0], 0] + Widen(s[1..] + [c]);
      Regroup([s[0], 0], Widen(s[1..]), [c, 0]);
    }
  }

  lemma {:induction false} Regroup(a: seq<byte>, b: seq<byte>, c: seq<byte>)
    ensures a + (b + c) == a + b + c
  {
  }

  lemma {:induction false} PutOneMore(buf: seq<byte>, at: nat, s: seq<byte>, c: byte)
    requires at + 2 * |s| + 2 <= |buf|
    ensures var b := Put(buf, at, Widen(s)); var n := at + 2 * |s|;
      |b| == |buf| && Put(buf, at, Widen(s + [c])) == b[n := c][n + 1 := 0]
  {
    WidenAppend(s, c);
    hide Widen;
  }

  /** wchar2char: narrows, cutting to the room there is, and terminates. */
  method WcharToChar(src: seq<byte>, dst: array<byte>) returns (n: nat)
    requires dst.Length > 0
    modifies dst
    ensures n == if |src| / 2 < dst.Length - 1 then |src| / 2 else dst.Length - 1
    ensures dst[..n] == Narrow(src)[..n] && dst[n] == 0
  {
    n := 0;
    while n < dst.Length - 1 && n < |src| / 2
      invariant 0 <= n <= dst.Length - 1 && n <= |src| / 2
      invariant forall k :: 0 <= k < n ==> dst[k] == src[2 * k]
    {
      dst[n] := src[2 * n];
      n := n + 1;
    }
    dst[n] := 0;
  }

  /** mbim_populate_connect_data. */
  method Populate(apn: seq<byte>, user: seq<byte>, pd: seq<byte>) returns (data: array<byte>, layout: Layout)
    ensures layout.total == data.Length == Total(|apn|, |user|, |pd|)
    ensures data[..] == Image(apn, user, pd)
    ensures var l := Place(|apn|, |user|, |pd|);
      && (apn != [] ==> layout.apn == l.apn) && (user != [] ==> layout.user == l.user)
        && (pd != [] ==> layout.pd == l.pd)
      && (apn == [] ==> layout.apn == Range(0, 0)) && (user == [] ==> layout.user == Range(0, 0))
        && (pd == [] ==> layout.pd == Range(0, 0))
  {
    hide Widen, Align, Put, Total;
    var total := BufferLength(|apn|, |user|, |pd|);
    data := new byte[total](_ => 0);
    ghost var l := Place(|apn|, |user|, |pd|);
    AlignedInside(|apn|, |user|, |pd|);
    ghost var b0: seq<byte> := seq(total, _ => 0);
    assert data[..] == b0;
    PutLength(b0, l.apn.start, Widen(apn));
    ghost var b1 := Put(b0, l.apn.start, Widen(apn));
    PutLength(b1, l.user.start, Widen(user));
    var none := Range(0, 0);
    layout := Layout(none, none, none, total);
    var at, offset := PutText(apn, data, 0);
    if |apn| > 0 { layout := layout.(apn := Range(at, 2 * |apn|)); }
    at, offset := PutText(user, data, offset);
    if |user| > 0 { layout := layout.(user := Range(at, 2 * |user|)); }
    at, offset := PutText(pd, data, offset);
    if |pd| > 0 { layout := layout.(pd := Range(at, 2 * |pd|)); }
  }

  method BufferLength(apn: nat, user: nat, pd: nat) returns (total: nat)
    ensures total == Total(apn, user, pd)
  {
    hide Align;
    total := 0;
    if apn > 0 { total := total + 2 * apn; }
    total := Align(total);
    if user > 0 { total := total + 2 * user; }
    total := Align(total);
    if pd > 0 { total := total + 2 * pd; }
    total := Align(total);
  }

  /** One text, if there is any, at the running offset; the offset then counts this text alone. */
  method PutText(text: seq<byte>, data: array<byte>, offset: nat) returns (at: nat, after: nat)
    requires offset + 2 * |text| <= data.Length
    modifies data
    ensures at == offset && data[..] == Put(old(data[..]), offset, Widen(text))
    ensures after == if text == [] then offset else Align(2 * |text|)
  {
    hide Widen, Align, Put;
    at, after := offset, offset;
    if |text| > 0 {
      after := CharToWchar(text, data, offset, data.Length - offset);
      assert text[..|text|] == text;
      after := Align(after);
    } else {
      PutNothing(data[..], offset, text);
    }
  }

  lemma {:induction false} PutNothing(buf: seq<byte>, at: nat, s: seq<byte>)
    requires s == [] && at <= |buf|
    ensures Put(buf, at, Widen(s)) == buf
  {
  }
}
