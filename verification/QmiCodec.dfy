/**
 The QMI message codec of `QMIThread.c`: type-length-value lists, looking one up, and
 building the StartNetwork request in a fixed buffer.
 */
module QmiTlv {
  import opened Common

  datatype Tlv = Tlv(kind: byte, value: seq<byte>)

  const INDEXED: nat := 0x1000
  const U16: nat := 0x1_0000

  predicate Sized(tlvs: seq<Tlv>) {
    forall i :: 0 <= i < |tlvs| ==> |tlvs[i].value| < U16
  }

  function Low(n: int): byte { n % 256 }

  function High(n: int): byte { (n / 256) % 256 }

  function Word(low: byte, high: byte): nat { low + 256 * high }

  lemma {:induction false} WordOf(n: nat)
    requires n < U16
    ensures Word(Low(n), High(n)) == n
  {
  }

  function Encode(t: Tlv): (bytes: seq<byte>)
    ensures |bytes| == |t.value| + 3
  {
    [t.kind, Low(|t.value|), High(|t.value|)] + t.value
  }

  function EncodeAll(tlvs: seq<Tlv>): seq<byte> {
    if tlvs == [] then [] else Encode(tlvs[0]) + EncodeAll(tlvs[1..])
  }

  /** Reads a list back; None when the bytes do not end with a whole element. */
  function DecodeAll(bytes: seq<byte>): Option<seq<Tlv>>
    decreases |bytes|
  {
    if bytes == [] then Some([])
    else if |bytes| < 3 then None
    else
      var n := Word(bytes[1], bytes[2]);
      if |bytes| < n + 3 then None
      else
        match DecodeAll(bytes[n + 3..])
        case None => None
        case Some(rest) => Some([Tlv(bytes[0], bytes[3..n + 3])] + rest)
  }

  lemma {:induction false} RoundTrip(tlvs: seq<Tlv>)
    requires Sized(tlvs)
    ensures DecodeAll(EncodeAll(tlvs)) == Some(tlvs)
  {
    if tlvs != [] {
      var t := tlvs[0];
      var rest := EncodeAll(tlvs[1..]);
      var bytes := EncodeAll(tlvs);
      WordOf(|t.value|);
      assert bytes[0] == t.kind && bytes[1] == Low(|t.value|) && bytes[2] == High(|t.value|);
      assert bytes[3..|t.value| + 3] == t.value;
      assert bytes[|t.value| + 3..] == rest;
      RoundTrip(tlvs[1..]);
      assert [t] + tlvs[1..] == tlvs;
    }
  }

  /** Does the i-th element answer a lookup of `wanted`: by type, or by position from INDEXED + 1 on. */
  predicate Answers(tlvs: seq<Tlv>, i: nat, wanted: int)
    requires i < |tlvs|
  {
    if wanted > INDEXED then i + 1 + INDEXED == wanted else tlvs[i].kind == wanted
  }

  /** The first element that answers, or the length. */
  function Find(tlvs: seq<Tlv>, wanted: int, from: nat): (i: nat)
    requires from <= |tlvs|
    ensures from <= i <= |tlvs|
    ensures i < |tlvs| ==> Answers(tlvs, i, wanted)
    ensures forall j :: from <= j < i ==> !Answers(tlvs, j, wanted)
    decreases |tlvs| - from
  {
    if from == |tlvs| || Answers(tlvs, from, wanted) then from else Find(tlvs, wanted, from + 1)
  }

  function Lookup(tlvs: seq<Tlv>, wanted: int): Option<Tlv> {
    var i := Find(tlvs, wanted, 0);
    if i == |tlvs| then None else Some(tlvs[i])
  }

  function OffsetOf(tlvs: seq<Tlv>, i: nat): nat
    requires i <= |tlvs|
  {
    |EncodeAll(tlvs[..i])|
  }

  lemma {:induction false} EncodeConcat(a: seq<Tlv>, b: seq<Tlv>)
    ensures EncodeAll(a + b) == EncodeAll(a) + EncodeAll(b)
  {
    hide Encode;
    if a == [] {
      assert a + b == b;
    } else {
      EncodeConcat(a[1..], b);
      assert (a + b)[1..] == a[1..] + b && (a + b)[0] == a[0];
      Associate(Encode(a[0]), EncodeAll(a[1..]), EncodeAll(b));
    }
  }

  lemma {:induction false} Associate(x: seq<byte>, y: seq<byte>, z: seq<byte>)
    ensures x + (y + z) == x + y + z
  {
  }

  lemma {:induction false} EncodeOne(t: Tlv)
    ensures EncodeAll([t]) == Encode(t)
  {
    assert [t][1..] == [];
    assert Encode(t) + [] == Encode(t);
  }

  /** An element within a longer byte sequence. */
  lemma {:induction false} Within(before: seq<byte>, t: Tlv, behind: seq<byte>)
    requires |t.value| < U16
    ensures var bytes := before + (Encode(t) + behind); var at := |before|; var n := |t.value|;
      && at + 3 + n <= |bytes|
      && bytes[at] == t.kind && Word(bytes[at + 1], bytes[at + 2]) == n
      && bytes[at + 3..at + 3 + n] == t.value
  {
    hide Low, High, Word;
    var bytes := before + (Encode(t) + behind);
    var e := Encode(t) + behind;
    WordOf(|t.value|);
    assert bytes[|before|..] == e;
    assert e[0] == t.kind && e[1] == Low(|t.value|) && e[2] == High(|t.value|);
    assert e[3..3 + |t.value|] == t.value;
    assert bytes[|before| + 3..|before| + 3 + |t.value|] == e[3..3 + |t.value|];
  }

  /** Where the i-th element lies and what its header reads. */
  lemma {:induction false} ElementAt(tlvs: seq<Tlv>, i: nat)
    requires Sized(tlvs) && i < |tlvs|
    ensures var at := OffsetOf(tlvs, i); var n := |tlvs[i].value|; var bytes := EncodeAll(tlvs);
      && at + 3 + n <= |bytes| && OffsetOf(tlvs, i + 1) == at + 3 + n
      && bytes[at] == tlvs[i].kind && Word(bytes[at + 1], bytes[at + 2]) == n
      && bytes[at + 3..at + 3 + n] == tlvs[i].value
  {
    hide EncodeAll, Encode, Word;
    var t := tlvs[i];
    Around(tlvs, i);
    Within(EncodeAll(tlvs[..i]), t, EncodeAll(tlvs[i + 1..]));
  }

  /** The bytes of a list around one element. */
  lemma {:induction false} Around(tlvs: seq<Tlv>, i: nat)
    requires i < |tlvs|
    ensures EncodeAll(tlvs) == EncodeAll(tlvs[..i]) + (Encode(tlvs[i]) + EncodeAll(tlvs[i + 1..]))
    ensures |EncodeAll(tlvs[..i + 1])| == |EncodeAll(tlvs[..i])| + 3 + |tlvs[i].value|
  {
    assert tlvs == tlvs[..i] + ([tlvs[i]] + tlvs[i + 1..]) && tlvs[..i + 1] == tlvs[..i] + [tlvs[i]];
    Joined(tlvs[..i], tlvs[i], tlvs[i + 1..]);
  }

  lemma {:induction false} Joined(a: seq<Tlv>, t: Tlv, c: seq<Tlv>)
    ensures EncodeAll(a + ([t] + c)) == EncodeAll(a) + (Encode(t) + EncodeAll(c))
    ensures |EncodeAll(a + [t])| == |EncodeAll(a)| + 3 + |t.value|
  {
    hide EncodeAll, Encode;
    EncodeConcat(a, [t] + c);
    EncodeConcat([t], c);
    EncodeConcat(a, [t]);
    EncodeOne(t);
  }

  lemma {:induction false} OffsetZero(tlvs: seq<Tlv>)
    ensures OffsetOf(tlvs, 0) == 0
  {
    assert tlvs[..0] == [];
  }

  lemma {:induction false} OffsetEnd(tlvs: seq<Tlv>)
    ensures OffsetOf(tlvs, |tlvs|) == |EncodeAll(tlvs)|
  {
    assert tlvs[..|tlvs|] == tlvs;
  }

  lemma {:induction false} OffsetBound(tlvs: seq<Tlv>, i: nat)
    requires Sized(tlvs) && i <= |tlvs|
    ensures OffsetOf(tlvs, i) <= |EncodeAll(tlvs)|
    ensures i < |tlvs| ==> OffsetOf(tlvs, i) + 3 <= |EncodeAll(tlvs)|
  {
    if i < |tlvs| { ElementAt(tlvs, i); } else { OffsetEnd(tlvs); }
  }

  /**
   GetTLV over the bytes of a well-formed list: the 16-bit remaining length counts down
   element by element. The result is the offset of the first element that answers.
   */
  method GetTlv(bytes: seq<byte>, wanted: int, ghost tlvs: seq<Tlv>) returns (at: Option<nat>)
    requires Sized(tlvs) && bytes == EncodeAll(tlvs) && |bytes| < U16
    ensures var i := Find(tlvs, wanted, 0); at == if i < |tlvs| then Some(OffsetOf(tlvs, i)) else None
    ensures at.Some? <==> Lookup(tlvs, wanted).Some?
    ensures at.Some? ==>
      var t := Lookup(tlvs, wanted).value;
      && at.value + 3 + |t.value| <= |bytes|
      && bytes[at.value] == t.kind && bytes[at.value + 3..at.value + 3 + |t.value|] == t.value
  {
    var found := 0;
    var length := |bytes|;
    var pos := 0;
    ghost var k := 0;
    hide EncodeAll;
    OffsetZero(tlvs);
    OffsetBound(tlvs, 0);
    while length >= 3
      invariant 0 <= k <= |tlvs| && found == k
      invariant pos == OffsetOf(tlvs, k) <= |bytes| && length == |bytes| - pos
      invariant k < |tlvs| ==> pos + 3 <= |bytes|
      invariant Find(tlvs, wanted, k) == Find(tlvs, wanted, 0)
    {
      if k == |tlvs| { OffsetEnd(tlvs); }
      ElementAt(tlvs, k);
      found := found + 1;
      if wanted > INDEXED {
        if found + INDEXED == wanted {
          return Some(pos);
        }
      } else if bytes[pos] == wanted {
        return Some(pos);
      }
      var n := Word(bytes[pos + 1], bytes[pos + 2]);
      length := (length - (n + 3)) % U16;
      pos := pos + n + 3;
      k := k + 1;
      OffsetBound(tlvs, k);
    }
    at := None;
  }
}

/** The StartNetwork request. */
module QmiStartNetwork {
  import opened Common
  import opened QmiTlv

  const BUFSIZE: nat := 256
  const HEADERS: nat := 13
  const START_NETWORK: nat := 0x0020
  const QUIRKY_PRODUCT: int := 0x0316

  /** The settings a data call is asked with; texts are without their terminating NUL. */
  datatype Settings = Settings(
    apn: Option<seq<byte>>,
    user: Option<seq<byte>>,
    pd: Option<seq<byte>>,
    auth: int,
    family: byte,
    profileIndex: int,
    product: int,
    byApnName: int,
    byApnType: int,
    apnType: int)

  /** ctnet@mycdma.cn */
  const CDMA_USER: seq<byte> := [0x63, 0x74, 0x6e, 0x65, 0x74, 0x40, 0x6d, 0x79, 0x63, 0x64, 0x6d, 0x61, 0x2e,
    0x63, 0x6e]
  /** vnet.mobi */
  const CDMA_PD: seq<byte> := [0x76, 0x6e, 0x65, 0x74, 0x2e, 0x6d, 0x6f, 0x62, 0x69]

  predicate Blank(s: Option<seq<byte>>) {
    s.None? || s.value == []
  }

  /** CDMA networks without credentials get the carrier's own. */
  function Effective(p: Settings, cdma: bool): Settings {
    if cdma && Blank(p.user) && Blank(p.pd) then p.(user := Some(CDMA_USER), pd := Some(CDMA_PD), auth := 2) else p
  }

  function Text(kind: byte, s: Option<seq<byte>>): seq<Tlv> {
    if s.Some? then [Tlv(kind, s.value)] else []
  }

  function If(present: bool, t: Tlv): seq<Tlv> {
    if present then [t] else []
  }

  function LittleEndian4(n: int): seq<byte> {
    [Low(n), High(n), Low(n / 65536), High(n / 65536)]
  }

  /** The elements of the request, in order. */
  function Elements(p0: Settings, cdma: bool): seq<Tlv> {
    var p := Effective(p0, cdma);
    If(true, Tlv(0x30, [if cdma then 2 else 1]))
    + Text(0x14, if cdma then None else p.apn)
    + Text(0x17, p.user)
    + Text(0x18, p.pd)
    + If(p.user.Some? && p.pd.Some?, Tlv(0x16, [Low(p.auth)]))
    + If(true, Tlv(0x19, [p.family]))
    + Device(p, cdma)
  }

  function Device(p: Settings, cdma: bool): seq<Tlv> {
    if p.product != QUIRKY_PRODUCT then If(p.profileIndex != 0 && !cdma, Tlv(0x31, [Low(p.profileIndex)]))
    else
      If(p.byApnName != 0, Tlv(0x3C, [Low(p.byApnName)]))
      + If(p.byApnType != 0, Tlv(0x3D, [Low(p.byApnType)]))
      + If(p.apnType != 0, Tlv(0x38, LittleEndian4(p.apnType)))
  }

  function Header(qmiType: byte, tid: nat, body: nat): (h: seq<byte>)
    ensures |h| == HEADERS
  {
    [0x01, Low(body + 12), High(body + 12), 0x00, qmiType, 0x00] + [0x00, Low(tid), High(tid)]
    + [Low(START_NETWORK), High(START_NETWORK), Low(body), High(body)]
  }

  // ---- Size ----

  function TextSize(s: Option<seq<byte>>): nat {
    if s.Some? then 3 + |s.value| else 0
  }

  function TextBytes(s: Option<seq<byte>>): nat {
    if s.Some? then |s.value| else 0
  }

  function DeviceSize(p: Settings, cdma: bool): nat {
    if p.product != QUIRKY_PRODUCT then if p.profileIndex != 0 && !cdma then 4 else 0
    else (if p.byApnName != 0 then 4 else 0) + (if p.byApnType != 0 then 4 else 0) + (if p.apnType != 0 then 7 else 0)
  }

  /** The bytes of the whole message, by what is set. */
  function MessageSize(p0: Settings, cdma: bool): nat {
    var p := Effective(p0, cdma);
    HEADERS + 8 + TextSize(if cdma then None else p.apn) + TextSize(p.user) + TextSize(p.pd)
    + (if p.user.Some? && p.pd.Some? then 4 else 0) + DeviceSize(p, cdma)
  }

  /** Three texts of at most 218 bytes together always fit, on any device but the quirky one. */
  lemma {:induction false} FitsBuffer(p: Settings, cdma: bool)
    requires p.product != QUIRKY_PRODUCT
    requires TextBytes(p.apn) + TextBytes(p.user) + TextBytes(p.pd) <= 218
    ensures MessageSize(p, cdma) <= BUFSIZE
  {
    assert |CDMA_USER| == 15 && |CDMA_PD| == 9;
  }

  // ---- Fields ----

  /** The first element of a type. */
  function FirstOf(tlvs: seq<Tlv>, kind: int): Option<Tlv> {
    if tlvs == [] then None else if tlvs[0].kind == kind then Some(tlvs[0]) else FirstOf(tlvs[1..], kind)
  }

  lemma {:induction false} FirstOfAppend(a: seq<Tlv>, b: seq<Tlv>, kind: int)
    ensures FirstOf(a + b, kind) == if FirstOf(a, kind).Some? then FirstOf(a, kind) else FirstOf(b, kind)
  {
    if a == [] {
      assert a + b == b;
    } else {
      FirstOfAppend(a[1..], b, kind);
      assert (a + b)[1..] == a[1..] + b;
    }
  }

  /** Looking up by type finds the first element of that type. */
  lemma {:induction false} LookupIsFirst(tlvs: seq<Tlv>, kind: int, from: nat)
    requires kind <= INDEXED && from <= |tlvs|
    ensures var i := Find(tlvs, kind, from); FirstOf(tlvs[from..], kind) == if i == |tlvs| then None else Some(tlvs[i])
    decreases |tlvs| - from
  {
    if from < |tlvs| {
      assert tlvs[from..][1..] == tlvs[from + 1..];
      if tlvs[from].kind != kind { LookupIsFirst(tlvs, kind, from + 1); }
    }
  }

  /** Looking up by position finds the element there. */
  lemma {:induction false} LookupIsNth(tlvs: seq<Tlv>, n: nat, from: nat)
    requires from <= n < |tlvs|
    ensures Find(tlvs, INDEXED + 1 + n, from) == n
    decreases n - from
  {
    if from < n { LookupIsNth(tlvs, n, from + 1); }
  }

  ghost predicate Has(tlvs: seq<Tlv>, kind: byte, present: bool, value: seq<byte>) {
    Lookup(tlvs, kind) == if present then Some(Tlv(kind, value)) else None
  }

  /** Every setting written can be looked up again, and what was left out is not found. */
  lemma {:induction false} FieldsFound(p0: Settings, cdma: bool)
    ensures var p := Effective(p0, cdma); var tlvs := Elements(p0, cdma);
      && Has(tlvs, 0x30, true, [if cdma then 2 else 1])
      && Has(tlvs, 0x14, p.apn.Some? && !cdma, if p.apn.Some? then p.apn.value else [])
      && Has(tlvs, 0x17, p.user.Some?, if p.user.Some? then p.user.value else [])
      && Has(tlvs, 0x18, p.pd.Some?, if p.pd.Some? then p.pd.value else [])
      && Has(tlvs, 0x16, p.user.Some? && p.pd.Some?, [Low(p.auth)])
      && Has(tlvs, 0x19, true, [p.family])
  {
    hide Elements, Lookup, Effective;
    FieldFound(p0, cdma, 0x30);
    FieldFound(p0, cdma, 0x14);
    FieldFound(p0, cdma, 0x17);
    FieldFound(p0, cdma, 0x18);
    FieldFound(p0, cdma, 0x16);
    FieldFound(p0, cdma, 0x19);
  }

  /** A text's characters as numbers. */
  ghost function Codes(text: string): seq<int> {
    seq(|text|, i requires 0 <= i < |text| => text[i] as int)
  }

  /**
   On a CDMA network a profile with neither user name nor password asks with the carrier's
   own, by CHAP, without APN.
   */
  lemma {:induction false} CdmaCredentials(p: Settings)
    requires (p.user.None? || p.user.value == []) && (p.pd.None? || p.pd.value == [])
    ensures var tlvs := Elements(p, true);
      && Lookup(tlvs, 0x17) == Some(Tlv(0x17, CDMA_USER)) && CDMA_USER == Codes("ctnet@mycdma.cn")
      && Lookup(tlvs, 0x18) == Some(Tlv(0x18, CDMA_PD)) && CDMA_PD == Codes("vnet.mobi")
      && Lookup(tlvs, 0x16) == Some(Tlv(0x16, [2]))
      && Lookup(tlvs, 0x14) == None && Lookup(tlvs, 0x31) == None
  {
    FieldsFound(p, true);
    DeviceFieldsFound(p, true);
    hide Elements, Lookup;
    assert Low(2) == 2;
  }

  /** Any other profile asks with its own texts. */
  lemma {:induction false} OwnCredentials(p: Settings, cdma: bool)
    requires !cdma || (p.user.Some? && p.user.value != []) || (p.pd.Some? && p.pd.value != [])
    ensures var tlvs := Elements(p, cdma);
      && Has(tlvs, 0x14, p.apn.Some? && !cdma, if p.apn.Some? then p.apn.value else [])
      && Has(tlvs, 0x17, p.user.Some?, if p.user.Some? then p.user.value else [])
      && Has(tlvs, 0x18, p.pd.Some?, if p.pd.Some? then p.pd.value else [])
      && Has(tlvs, 0x16, p.user.Some? && p.pd.Some?, [Low(p.auth)])
  {
    FieldsFound(p, cdma);
    hide Elements, Lookup;
  }

  /** The device-dependent fields. */
  lemma {:induction false} DeviceFieldsFound(p0: Settings, cdma: bool)
    ensures var p := Effective(p0, cdma); var tlvs := Elements(p0, cdma); var quirky := p.product == QUIRKY_PRODUCT;
      && Has(tlvs, 0x31, !quirky && p.profileIndex != 0 && !cdma, [Low(p.profileIndex)])
      && Has(tlvs, 0x3C, quirky && p.byApnName != 0, [Low(p.byApnName)])
      && Has(tlvs, 0x3D, quirky && p.byApnType != 0, [Low(p.byApnType)])
      && Has(tlvs, 0x38, quirky && p.apnType != 0, LittleEndian4(p.apnType))
  {
    hide Elements, Lookup, Effective;
    FieldFound(p0, cdma, 0x31);
    FieldFound(p0, cdma, 0x3C);
    FieldFound(p0, cdma, 0x3D);
    FieldFound(p0, cdma, 0x38);
  }

  /** Which element answers for a type, going through the elements in order. */
  ghost function Pick(p: Settings, cdma: bool, kind: byte): Option<Tlv> {
    if kind == 0x30 then Some(Tlv(0x30, [if cdma then 2 else 1]))
    else if kind == 0x14 then if cdma || p.apn.None? then None else Some(Tlv(0x14, p.apn.value))
    else if kind == 0x17 then if p.user.None? then None else Some(Tlv(0x17, p.user.value))
    else if kind == 0x18 then if p.pd.None? then None else Some(Tlv(0x18, p.pd.value))
    else if kind == 0x16 then if p.user.Some? && p.pd.Some? then Some(Tlv(0x16, [Low(p.auth)])) else None
    else if kind == 0x19 then Some(Tlv(0x19, [p.family]))
    else DevicePick(p, cdma, kind)
  }

  ghost function DevicePick(p: Settings, cdma: bool, kind: byte): Option<Tlv> {
    if p.product != QUIRKY_PRODUCT
    then if kind == 0x31 && p.profileIndex != 0 && !cdma then Some(Tlv(0x31, [Low(p.profileIndex)])) else None
    else if kind == 0x3C && p.byApnName != 0 then Some(Tlv(0x3C, [Low(p.byApnName)]))
    else if kind == 0x3D && p.byApnType != 0 then Some(Tlv(0x3D, [Low(p.byApnType)]))
    else if kind == 0x38 && p.apnType != 0 then Some(Tlv(0x38, LittleEndian4(p.apnType)))
    else None
  }

  lemma {:induction false} FirstOfIf(present: bool, t: Tlv, kind: byte)
    ensures FirstOf(If(present, t), kind) == if present && t.kind == kind then Some(t) else None
  {
  }

  lemma {:induction false} FirstOfText(k: byte, s: Option<seq<byte>>, kind: byte)
    ensures FirstOf(Text(k, s), kind) == if s.Some? && k == kind then Some(Tlv(k, s.value)) else None
  {
  }

  lemma {:induction false} FieldFound(p0: Settings, cdma: bool, kind: byte)
    ensures Lookup(Elements(p0, cdma), kind) == Pick(Effective(p0, cdma), cdma, kind)
  {
    hide Effective, Device, FirstOf, If, Text, Find;
    var p := Effective(p0, cdma);
    var tlvs := Elements(p0, cdma);
    var tech, family := Tlv(0x30, [if cdma then 2 else 1]), Tlv(0x19, [p.family]);
    var auth := Tlv(0x16, [Low(p.auth)]);
    var both := p.user.Some? && p.pd.Some?;
    var apn := if cdma then None else p.apn;
    var a := If(true, tech);
    var b := a + Text(0x14, apn);
    var c := b + Text(0x17, p.user);
    var d := c + Text(0x18, p.pd);
    var e := d + If(both, auth);
    var f := e + If(true, family);
    FirstOfAppend(a, Text(0x14, apn), kind);
    FirstOfAppend(b, Text(0x17, p.user), kind);
    FirstOfAppend(c, Text(0x18, p.pd), kind);
    FirstOfAppend(d, If(both, auth), kind);
    FirstOfAppend(e, If(true, family), kind);
    FirstOfAppend(f, Device(p, cdma), kind);
    FirstOfIf(true, tech, kind);
    FirstOfText(0x14, apn, kind);
    FirstOfText(0x17, p.user, kind);
    FirstOfText(0x18, p.pd, kind);
    FirstOfIf(both, auth, kind);
    FirstOfIf(true, family, kind);
    DeviceFound(p, cdma, kind);
    LookupIsFirst(tlvs, kind, 0);
    assert tlvs[0..] == tlvs;
  }

  lemma {:induction false} DeviceFound(p: Settings, cdma: bool, kind: byte)
    ensures FirstOf(Device(p, cdma), kind) == DevicePick(p, cdma, kind)
  {
    if p.product == QUIRKY_PRODUCT {
      var a := If(p.byApnName != 0, Tlv(0x3C, [Low(p.byApnName)]));
      var b := If(p.byApnType != 0, Tlv(0x3D, [Low(p.byApnType)]));
      FirstOfAppend(a, b, kind);
      FirstOfAppend(a + b, If(p.apnType != 0, Tlv(0x38, LittleEndian4(p.apnType))), kind);
    }
  }
}

/** Building the request in place, element by element, at running offsets of one buffer. */
module QmiComposer {
  import opened Common
  import opened QmiTlv
  import opened QmiStartNetwork

  /** The buffer holds the header bytes and then exactly the elements written so far. */
  ghost predicate Wrote(buf: array<byte>, head: seq<byte>, done: seq<Tlv>, len: nat)
    reads buf
  {
    && buf.Length == BUFSIZE && |head| == HEADERS
    && len == |EncodeAll(done)| && HEADERS + len <= BUFSIZE
    && buf[..HEADERS + len] == head + EncodeAll(done)
  }

  lemma {:induction false} Extended(done: seq<Tlv>, t: Tlv)
    ensures EncodeAll(done + [t]) == EncodeAll(done) + Encode(t)
  {
    EncodeConcat(done, [t]);
    EncodeOne(t);
  }

  /** Bytes copied in after what was there extend what the buffer holds. */
  lemma {:induction false} Grown(buf: array<byte>, head: seq<byte>, done: seq<Tlv>, len: nat, t: Tlv, before: seq<byte>)
    requires buf.Length == BUFSIZE && |head| == HEADERS && len == |EncodeAll(done)|
    requires HEADERS + len + 3 + |t.value| <= BUFSIZE
    requires before == head + EncodeAll(done) && |before| == HEADERS + len
    requires buf[..HEADERS + len] == before
    requires buf[HEADERS + len..HEADERS + len + 3 + |t.value|] == Encode(t)
    ensures Wrote(buf, head, done + [t], len + 3 + |t.value|)
  {
    hide EncodeAll, Encode;
    Extended(done, t);
    var at := HEADERS + len;
    assert buf[..at + 3 + |t.value|] == buf[..at] + buf[at..at + 3 + |t.value|];
    Associate(head, EncodeAll(done), Encode(t));
  }

  /** An element's header. */
  method PutHead(buf: array<byte>, at: nat, kind: byte, length: nat)
    requires at + 3 <= buf.Length
    modifies buf
    ensures buf[..at] == old(buf[..at]) && buf[at..at + 3] == [kind, Low(length), High(length)]
  {
    buf[at] := kind;
    buf[at + 1] := Low(length);
    buf[at + 2] := High(length);
  }

  /** Copies a value behind a header. */
  method PutValue(buf: array<byte>, at: nat, value: seq<byte>)
    requires at + |value| <= buf.Length
    modifies buf
    ensures buf[..at] == old(buf[..at]) && buf[at..at + |value|] == value
  {
    var i := 0;
    while i < |value|
      invariant 0 <= i <= |value|
      invariant buf[..at] == old(buf[..at]) && buf[at..at + i] == value[..i]
    {
      buf[at + i] := value[i];
      i := i + 1;
    }
  }

  /** Header and value make an element, and what was before them stays. */
  method PutTlv(buf: array<byte>, len: nat, t: Tlv, ghost head: seq<byte>, ghost done: seq<Tlv>)
    requires Wrote(buf, head, done, len) && HEADERS + len + 3 + |t.value| <= BUFSIZE
    modifies buf
    ensures Wrote(buf, head, done + [t], len + 3 + |t.value|)
  {
    hide EncodeAll, Low, High;
    var at := HEADERS + len;
    ghost var before := buf[..at];
    PutHead(buf, at, t.kind, |t.value|);
    ghost var both := buf[..at + 3];
    assert both == before + [t.kind, Low(|t.value|), High(|t.value|)] by {
      assert both == buf[..at] + buf[at..at + 3];
    }
    PutValue(buf, at + 3, t.value);
    Rejoined(buf[..], both, before, at, t);
    Grown(buf, head, done, len, t, before);
  }

  lemma {:induction false} Rejoined(b: seq<byte>, both: seq<byte>, before: seq<byte>, at: nat, t: Tlv)
    requires at + 3 + |t.value| <= |b| && |before| == at
    requires both == before + [t.kind, Low(|t.value|), High(|t.value|)]
    requires b[..at + 3] == both && b[at + 3..at + 3 + |t.value|] == t.value
    ensures b[..at] == before && b[at..at + 3 + |t.value|] == Encode(t)
  {
    hide Low, High;
    assert b[..at] == both[..at];
    assert b[at..at + 3] == both[at..];
    assert b[at..at + 3 + |t.value|] == b[at..at + 3] + b[at + 3..at + 3 + |t.value|];
  }

  /** One element with a text value: qstrcpy copies its terminating NUL too, which the next element overwrites. */
  method PutText(buf: array<byte>, len: nat, kind: byte, text: seq<byte>, ghost head: seq<byte>, ghost done: seq<Tlv>)
    returns (after: nat)
    requires Wrote(buf, head, done, len) && HEADERS + len + 3 + |text| < BUFSIZE
    modifies buf
    ensures after == len + 3 + |text| && Wrote(buf, head, done + [Tlv(kind, text)], after)
  {
    hide EncodeAll, Low, High;
    PutTlv(buf, len, Tlv(kind, text), head, done);
    after := len + |text| + 3;
    ghost var was := buf[..HEADERS + after];
    buf[HEADERS + after] := 0;
    assert buf[..HEADERS + after] == was;
  }

  method AddText(buf: array<byte>, len: nat, kind: byte, text: Option<seq<byte>>, ghost head: seq<byte>,
      ghost done: seq<Tlv>)
    returns (after: nat)
    requires Wrote(buf, head, done, len) && HEADERS + len + TextSize(text) < BUFSIZE
    modifies buf
    ensures after == len + TextSize(text) && Wrote(buf, head, done + Text(kind, text), after)
  {
    after := len;
    if text.Some? {
      after := PutText(buf, len, kind, text.value, head, done);
    } else {
      assert done + [] == done;
    }
  }

  /** One element with a value of one or four bytes. */
  method AddBytes(buf: array<byte>, len: nat, present: bool, kind: byte, value: seq<byte>, ghost head: seq<byte>,
      ghost done: seq<Tlv>)
    returns (after: nat)
    requires Wrote(buf, head, done, len) && |value| <= 4
    requires present ==> HEADERS + len + 3 + |value| <= BUFSIZE
    modifies buf
    ensures after == len + (if present then 3 + |value| else 0)
      && Wrote(buf, head, done + If(present, Tlv(kind, value)), after)
  {
    after := len;
    if present {
      PutTlv(buf, len, Tlv(kind, value), head, done);
      after := len + |value| + 3;
    } else {
      assert done + [] == done;
    }
  }

  /** WdsStartNwInterfaceReq: fills in the elements and returns their length. */
  method PutElements(buf: array<byte>, p0: Settings, cdma: bool) returns (len: nat)
    requires buf.Length == BUFSIZE && MessageSize(p0, cdma) <= BUFSIZE
    modifies buf
    ensures Wrote(buf, old(buf[..HEADERS]), Elements(p0, cdma), len)
    ensures HEADERS + len == MessageSize(p0, cdma)
  {
    hide EncodeAll, Effective;
    var p := Effective(p0, cdma);
    ghost var head := buf[..HEADERS];
    EncodeNone(head);
    len := AddBytes(buf, 0, true, 0x30, [if cdma then 2 else 1], head, []);
    ghost var d1 := If(true, Tlv(0x30, [if cdma then 2 else 1]));
    assert [] + d1 == d1;
    len := AddText(buf, len, 0x14, if cdma then None else p.apn, head, d1);
    ghost var d2 := d1 + Text(0x14, if cdma then None else p.apn);
    len := AddText(buf, len, 0x17, p.user, head, d2);
    ghost var d3 := d2 + Text(0x17, p.user);
    len := AddText(buf, len, 0x18, p.pd, head, d3);
    ghost var d4 := d3 + Text(0x18, p.pd);
    len := AddBytes(buf, len, p.user.Some? && p.pd.Some?, 0x16, [Low(p.auth)], head, d4);
    ghost var d5 := d4 + If(p.user.Some? && p.pd.Some?, Tlv(0x16, [Low(p.auth)]));
    len := AddBytes(buf, len, true, 0x19, [p.family], head, d5);
    ghost var d6 := d5 + If(true, Tlv(0x19, [p.family]));
    len := PutDevice(buf, len, p, cdma, head, d6);
  }

  lemma {:induction false} EncodeNone(head: seq<byte>)
    ensures EncodeAll([]) == [] && head + EncodeAll([]) == head
  {
  }

  method PutDevice(buf: array<byte>, len0: nat, p: Settings, cdma: bool, ghost head: seq<byte>, ghost done: seq<Tlv>)
    returns (len: nat)
    requires Wrote(buf, head, done, len0) && HEADERS + len0 + DeviceSize(p, cdma) <= BUFSIZE
    modifies buf
    ensures len == len0 + DeviceSize(p, cdma) && Wrote(buf, head, done + Device(p, cdma), len)
  {
    hide EncodeAll;
    if p.product != QUIRKY_PRODUCT {
      len := AddBytes(buf, len0, p.profileIndex != 0 && !cdma, 0x31, [Low(p.profileIndex)], head, done);
    } else {
      ghost var a := If(p.byApnName != 0, Tlv(0x3C, [Low(p.byApnName)]));
      ghost var b := If(p.byApnType != 0, Tlv(0x3D, [Low(p.byApnType)]));
      ghost var c := If(p.apnType != 0, Tlv(0x38, LittleEndian4(p.apnType)));
      len := AddBytes(buf, len0, p.byApnName != 0, 0x3C, [Low(p.byApnName)], head, done);
      len := AddBytes(buf, len, p.byApnType != 0, 0x3D, [Low(p.byApnType)], head, done + a);
      len := AddBytes(buf, len, p.apnType != 0, 0x38, LittleEndian4(p.apnType), head, done + a + b);
      assert done + a + b + c == done + (a + b + c);
    }
  }

  /** A list that fits a 16-bit length has element lengths that fit theirs. */
  lemma {:induction false} ShortIsSized(tlvs: seq<Tlv>)
    requires |EncodeAll(tlvs)| < U16
    ensures Sized(tlvs)
  {
    if tlvs != [] {
      ShortIsSized(tlvs[1..]);
      forall i | 0 <= i < |tlvs| ensures |tlvs[i].value| < U16 {
        if i > 0 { assert tlvs[i] == tlvs[1..][i - 1]; }
      }
    }
  }

  /** What the header fields of a composed message read. */
  lemma {:induction false} HeaderReads(msg: seq<byte>, qmiType: byte, tid: nat, tlvs: seq<Tlv>)
    requires var body := |EncodeAll(tlvs)|; body + 12 < U16 && msg == Header(qmiType, tid, body) + EncodeAll(tlvs)
    requires tid < U16
    ensures |msg| > HEADERS - 1
    ensures Word(msg[1], msg[2]) + 1 == |msg|
    ensures Word(msg[11], msg[12]) == |msg| - HEADERS
    ensures Word(msg[7], msg[8]) == tid && Word(msg[9], msg[10]) == START_NETWORK && msg[4] == qmiType
    ensures DecodeAll(msg[HEADERS..]) == Some(tlvs)
  {
    hide EncodeAll, DecodeAll, Header, Sized, Word;
    var body := |EncodeAll(tlvs)|;
    var h := Header(qmiType, tid, body);
    HeaderFields(qmiType, tid, body);
    assert msg[1] == h[1] && msg[2] == h[2] && msg[4] == h[4] && msg[7] == h[7] && msg[8] == h[8];
    assert msg[9] == h[9] && msg[10] == h[10] && msg[11] == h[11] && msg[12] == h[12];
    assert msg[HEADERS..] == EncodeAll(tlvs);
    ShortIsSized(tlvs);
    RoundTrip(tlvs);
  }

  lemma {:induction false} HeaderFields(qmiType: byte, tid: nat, body: nat)
    requires tid < U16 && body + 12 < U16
    ensures var h := Header(qmiType, tid, body);
      && Word(h[1], h[2]) == body + 12 && Word(h[11], h[12]) == body
      && Word(h[7], h[8]) == tid && Word(h[9], h[10]) == START_NETWORK && h[4] == qmiType
  {
    hide Low, High, Word;
    WordOf(body);
    WordOf(body + 12);
    WordOf(tid);
    WordOf(START_NETWORK);
  }

  /** The fixed header fields, with both lengths still zero. */
  method PutHeader(buf: array<byte>, qmiType: byte, tid: nat)
    requires buf.Length == BUFSIZE && forall i :: 0 <= i < BUFSIZE ==> buf[i] == 0
    modifies buf
    ensures buf[..HEADERS] == Header(qmiType, tid, 0)[1 := 0][2 := 0]
  {
    buf[0], buf[4] := 0x01, qmiType;
    buf[7], buf[8] := Low(tid), High(tid);
    buf[9], buf[10] := Low(START_NETWORK), High(START_NETWORK);
  }

  /** The two outer lengths, once the elements are in place. */
  method PutLengths(buf: array<byte>, qmiType: byte, tid: nat, body: nat)
    requires buf.Length == BUFSIZE && buf[..HEADERS] == Header(qmiType, tid, 0)[1 := 0][2 := 0]
    modifies buf
    ensures buf[..HEADERS] == Header(qmiType, tid, body) && buf[HEADERS..] == old(buf[HEADERS..])
  {
    ghost var h := Header(qmiType, tid, 0)[1 := 0][2 := 0];
    assert forall i :: 0 <= i < HEADERS ==> buf[i] == h[i];
    buf[11], buf[12] := Low(body), High(body);
    buf[1], buf[2] := Low(body + 12), High(body + 12);
  }

  /**
   ComposeQMUXMsg for StartNetwork: the message is the header and the elements, fits the
   buffer, its nested length fields agree with the bytes, and decoding gives the elements back.
   */
  method Compose(p: Settings, cdma: bool, qmiType: byte, tid: nat) returns (msg: seq<byte>)
    requires MessageSize(p, cdma) <= BUFSIZE && tid < U16
    ensures HEADERS <= |msg| == MessageSize(p, cdma)
    ensures msg == Header(qmiType, tid, |msg| - HEADERS) + EncodeAll(Elements(p, cdma))
    ensures Word(msg[1], msg[2]) + 1 == |msg|
    ensures Word(msg[11], msg[12]) == |msg| - HEADERS == |EncodeAll(Elements(p, cdma))|
    ensures Word(msg[7], msg[8]) == tid && Word(msg[9], msg[10]) == START_NETWORK && msg[4] == qmiType
    ensures DecodeAll(msg[HEADERS..]) == Some(Elements(p, cdma))
  {
    hide EncodeAll, Elements, MessageSize, DecodeAll, Header;
    var buf := new byte[BUFSIZE](_ => 0);
    PutHeader(buf, qmiType, tid);
    ghost var head := buf[..HEADERS];
    var body := PutElements(buf, p, cdma);
    ghost var tail := EncodeAll(Elements(p, cdma));
    assert buf[..HEADERS] == head && buf[HEADERS..][..body] == tail by {
      assert buf[..HEADERS] == buf[..HEADERS + body][..HEADERS];
      assert buf[HEADERS..][..body] == buf[..HEADERS + body][HEADERS..];
    }
    PutLengths(buf, qmiType, tid, body);
    assert buf[HEADERS..][..body] == tail;
    assert buf[..HEADERS + body] == buf[..HEADERS] + buf[HEADERS..][..body];
    HeaderReads(buf[..HEADERS + body], qmiType, tid, Elements(p, cdma));
    msg := buf[..Word(buf[1], buf[2]) + 1];
  }

  lemma {:induction false} SizeIf(done: seq<Tlv>, present: bool, t: Tlv)
    ensures |EncodeAll(done + If(present, t))| == |EncodeAll(done)| + if present then 3 + |t.value| else 0
  {
    if present { Extended(done, t); } else { assert done + [] == done; }
  }

  lemma {:induction false} SizeText(done: seq<Tlv>, kind: byte, s: Option<seq<byte>>)
    ensures |EncodeAll(done + Text(kind, s))| == |EncodeAll(done)| + TextSize(s)
  {
    if s.Some? { Extended(done, Tlv(kind, s.value)); } else { assert done + [] == done; }
  }

  lemma {:induction false} SizeDevice(done: seq<Tlv>, p: Settings, cdma: bool)
    ensures |EncodeAll(done + Device(p, cdma))| == |EncodeAll(done)| + DeviceSize(p, cdma)
  {
    hide EncodeAll;
    if p.product != QUIRKY_PRODUCT {
      SizeIf(done, p.profileIndex != 0 && !cdma, Tlv(0x31, [Low(p.profileIndex)]));
    } else {
      var a := If(p.byApnName != 0, Tlv(0x3C, [Low(p.byApnName)]));
      var b := If(p.byApnType != 0, Tlv(0x3D, [Low(p.byApnType)]));
      var c := If(p.apnType != 0, Tlv(0x38, LittleEndian4(p.apnType)));
      SizeIf(done, p.byApnName != 0, Tlv(0x3C, [Low(p.byApnName)]));
      SizeIf(done + a, p.byApnType != 0, Tlv(0x3D, [Low(p.byApnType)]));
      SizeIf(done + a + b, p.apnType != 0, Tlv(0x38, LittleEndian4(p.apnType)));
      assert done + a + b + c == done + (a + b + c);
    }
  }

  /** The elements take exactly the bytes counted by what is set. */
  lemma {:induction false} ElementsSize(p0: Settings, cdma: bool)
    ensures HEADERS + |EncodeAll(Elements(p0, cdma))| == MessageSize(p0, cdma)
  {
    hide EncodeAll, Effective, Device, DeviceSize, Text, TextSize;
    var p := Effective(p0, cdma);
    var tech, auth := Tlv(0x30, [if cdma then 2 else 1]), Tlv(0x16, [Low(p.auth)]);
    var a := If(true, tech);
    var b := a + Text(0x14, if cdma then None else p.apn);
    var c := b + Text(0x17, p.user);
    var d := c + Text(0x18, p.pd);
    var e := d + If(p.user.Some? && p.pd.Some?, auth);
    var f := e + If(true, Tlv(0x19, [p.family]));
    EncodeNone([]);
    SizeIf([], true, tech);
    assert [] + a == a;
    SizeText(a, 0x14, if cdma then None else p.apn);
    SizeText(b, 0x17, p.user);
    SizeText(c, 0x18, p.pd);
    SizeIf(d, p.user.Some? && p.pd.Some?, auth);
    SizeIf(e, true, Tlv(0x19, [p.family]));
    SizeDevice(f, p, cdma);
  }

  /**
   On any device but the quirky one, with three texts of at most 218 bytes together: the
   request fits, and its bytes decode to elements in which every field written is found
   first of its type and every field left out is not found.
   */
  lemma {:induction false} StartNetworkRoundTrip(p0: Settings, cdma: bool)
    requires p0.product != QUIRKY_PRODUCT
    requires TextBytes(p0.apn) + TextBytes(p0.user) + TextBytes(p0.pd) <= 218
    ensures HEADERS + |EncodeAll(Elements(p0, cdma))| <= BUFSIZE
    ensures DecodeAll(EncodeAll(Elements(p0, cdma))) == Some(Elements(p0, cdma))
    ensures var p := Effective(p0, cdma); var tlvs := Elements(p0, cdma);
      && Has(tlvs, 0x30, true, [if cdma then 2 else 1])
      && Has(tlvs, 0x14, p.apn.Some? && !cdma, if p.apn.Some? then p.apn.value else [])
      && Has(tlvs, 0x17, p.user.Some?, if p.user.Some? then p.user.value else [])
      && Has(tlvs, 0x18, p.pd.Some?, if p.pd.Some? then p.pd.value else [])
      && Has(tlvs, 0x16, p.user.Some? && p.pd.Some?, [Low(p.auth)])
      && Has(tlvs, 0x19, true, [p.family])
      && Has(tlvs, 0x31, p.profileIndex != 0 && !cdma, [Low(p.profileIndex)])
  {
    hide EncodeAll, DecodeAll, Elements, Has, MessageSize;
    FitsBuffer(p0, cdma);
    ElementsSize(p0, cdma);
    ShortIsSized(Elements(p0, cdma));
    RoundTrip(Elements(p0, cdma));
    FieldsFound(p0, cdma);
    DeviceFieldsFound(p0, cdma);
  }
}
