/**
 Reading the system information (`QMIThread.c`, requestRegistrationState2): a walk over the
 elements of the answer that decides whether the network is CDMA, whether packet service is
 attached, and the HDR personality.
 */
module QmiSysInfo {
  import opened Common
  import opened QmiTlv

  const SERVICE: byte := 2
  const VALID: byte := 1
  const EHRPD: nat := 2

  /** What the walk has concluded so far. */
  datatype Verdict = Verdict(isLte: bool, cdma: bool, attached: bool, personality: nat)

  const NOTHING: Verdict := Verdict(false, false, false, 0)

  /**
   Status elements carry a status, system elements a validity byte and a domain, and the HDR
   one twelve bytes and more.
   */
  predicate WellFormed(t: Tlv) {
    && (t.kind in {0x10, 0x11, 0x14, 0x4A} ==> |t.value| >= 1)
    && (t.kind in {0x15, 0x17, 0x18, 0x19, 0x25, 0x4B} ==> |t.value| >= 2)
    && (t.kind == 0x16 ==> |t.value| >= 12)
  }

  predicate AllWellFormed(tlvs: seq<Tlv>) {
    forall i :: 0 <= i < |tlvs| ==> WellFormed(tlvs[i])
  }

  predicate InService(t: Tlv) {
    |t.value| >= 1 && t.value[0] == SERVICE
  }

  /** The packet-service bit of a valid domain. */
  predicate PacketDomain(t: Tlv) {
    |t.value| >= 2 && t.value[0] == VALID && t.value[1] / 2 % 2 == 1
  }

  predicate CdmaEvidence(t: Tlv) {
    (t.kind in {0x10, 0x11} && InService(t)) || (t.kind in {0x15, 0x16} && PacketDomain(t))
  }

  predicate LteEvidence(t: Tlv) {
    (t.kind in {0x14, 0x4A} && InService(t)) || (t.kind == 0x19 && PacketDomain(t))
  }

  predicate PsEvidence(t: Tlv) {
    t.kind in {0x15, 0x16, 0x17, 0x18, 0x19, 0x25, 0x4B} && PacketDomain(t)
  }

  predicate EhrpdReport(t: Tlv) {
    t.kind == 0x16 && |t.value| >= 12 && t.value[10] == VALID && t.value[11] == 3
  }

  /** One element of the answer. */
  function Read(v: Verdict, t: Tlv): Verdict {
    var lte := v.isLte || LteEvidence(t);
    var attached := v.attached || PsEvidence(t);
    Verdict(
      lte,
      if LteEvidence(t) then false else if CdmaEvidence(t) then !v.isLte else v.cdma,
      attached,
      if attached && EhrpdReport(t) then EHRPD else v.personality)
  }

  function ReadAll(v: Verdict, tlvs: seq<Tlv>): Verdict
    decreases |tlvs|
  {
    if tlvs == [] then v else ReadAll(Read(v, tlvs[0]), tlvs[1..])
  }

  ghost predicate SomeCdma(tlvs: seq<Tlv>) {
    exists t :: t in tlvs && CdmaEvidence(t)
  }

  ghost predicate SomeLte(tlvs: seq<Tlv>) {
    exists t :: t in tlvs && LteEvidence(t)
  }

  ghost predicate SomePs(tlvs: seq<Tlv>) {
    exists t :: t in tlvs && PsEvidence(t)
  }

  lemma {:induction false} NoEvidenceOfBoth(t: Tlv)
    ensures !(CdmaEvidence(t) && LteEvidence(t))
  {
  }

  lemma {:induction false} SomeOf(tlvs: seq<Tlv>)
    requires tlvs != []
    ensures SomeCdma(tlvs) <==> CdmaEvidence(tlvs[0]) || SomeCdma(tlvs[1..])
    ensures SomeLte(tlvs) <==> LteEvidence(tlvs[0]) || SomeLte(tlvs[1..])
    ensures SomePs(tlvs) <==> PsEvidence(tlvs[0]) || SomePs(tlvs[1..])
  {
    hide CdmaEvidence, LteEvidence, PsEvidence;
    assert forall t :: t in tlvs <==> t == tlvs[0] || t in tlvs[1..];
  }

  /** The walk from any state it can be in. */
  lemma {:induction false} WalkIff(v: Verdict, tlvs: seq<Tlv>)
    requires v.cdma ==> !v.isLte
    ensures var r := ReadAll(v, tlvs);
      && (r.isLte <==> v.isLte || SomeLte(tlvs))
      && (r.cdma <==> (v.cdma || SomeCdma(tlvs)) && !v.isLte && !SomeLte(tlvs))
      && (r.attached <==> v.attached || SomePs(tlvs))
    decreases |tlvs|
  {
    hide CdmaEvidence, LteEvidence, PsEvidence, EhrpdReport, SomeCdma, SomeLte, SomePs;
    if tlvs == [] {
      NoneAtAll();
    } else {
      NoEvidenceOfBoth(tlvs[0]);
      SomeOf(tlvs);
      WalkIff(Read(v, tlvs[0]), tlvs[1..]);
    }
  }

  lemma {:induction false} NoneAtAll()
    ensures !SomeCdma([]) && !SomeLte([]) && !SomePs([])
  {
  }

  /**
   The network is CDMA iff some element says so and none speaks for LTE or NR; packet
   service is attached iff some system element says so.
   */
  lemma {:induction false} VerdictIff(tlvs: seq<Tlv>)
    ensures var r := ReadAll(NOTHING, tlvs);
      (r.cdma <==> SomeCdma(tlvs) && !SomeLte(tlvs)) && (r.attached <==> SomePs(tlvs))
  {
    hide SomeCdma, SomeLte, SomePs;
    WalkIff(NOTHING, tlvs);
  }

  /** Neither depends on the order of the elements. */
  lemma {:induction false} AnyOrder(a: seq<Tlv>, b: seq<Tlv>)
    requires multiset(a) == multiset(b)
    ensures ReadAll(NOTHING, a).cdma == ReadAll(NOTHING, b).cdma
      && ReadAll(NOTHING, a).attached == ReadAll(NOTHING, b).attached
  {
    VerdictIff(a);
    VerdictIff(b);
    hide ReadAll, CdmaEvidence, LteEvidence, PsEvidence;
    assert forall t :: t in a <==> t in multiset(a);
    assert forall t :: t in b <==> t in multiset(b);
  }

  /** Reported eHRPD counts only from an element that has packet service reported by then. */
  ghost predicate EhrpdSeen(tlvs: seq<Tlv>) {
    exists i, j :: 0 <= i <= j < |tlvs| && PsEvidence(tlvs[i]) && EhrpdReport(tlvs[j])
  }

  lemma {:induction false} PersonalityFrom(v: Verdict, tlvs: seq<Tlv>)
    requires v.personality in {0, EHRPD}
    ensures ReadAll(v, tlvs).personality == EHRPD <==>
      v.personality == EHRPD || EhrpdSeen(tlvs) || (v.attached && exists j :: 0 <= j < |tlvs| && EhrpdReport(tlvs[j]))
    ensures ReadAll(v, tlvs).personality in {0, EHRPD}
    decreases |tlvs|
  {
    hide CdmaEvidence, LteEvidence, PsEvidence, EhrpdReport;
    if tlvs != [] {
      var rest := tlvs[1..];
      PersonalityFrom(Read(v, tlvs[0]), rest);
      assert forall j :: 0 <= j < |rest| ==> rest[j] == tlvs[j + 1];
      SeenSplit(tlvs);
    }
  }

  lemma {:induction false} SeenSplit(tlvs: seq<Tlv>)
    requires tlvs != []
    ensures (exists j :: 0 <= j < |tlvs| && EhrpdReport(tlvs[j]))
      <==> EhrpdReport(tlvs[0]) || exists j :: 0 <= j < |tlvs[1..]| && EhrpdReport(tlvs[1..][j])
    ensures EhrpdSeen(tlvs) <==>
      || EhrpdSeen(tlvs[1..])
      || (PsEvidence(tlvs[0]) && exists j :: 0 <= j < |tlvs| && EhrpdReport(tlvs[j]))
  {
    hide PsEvidence, EhrpdReport;
    var rest := tlvs[1..];
    assert forall j :: 0 <= j < |rest| ==> rest[j] == tlvs[j + 1];
    if exists j :: 0 <= j < |tlvs| && EhrpdReport(tlvs[j]) {
      var j :| 0 <= j < |tlvs| && EhrpdReport(tlvs[j]);
      if j > 0 { assert EhrpdReport(rest[j - 1]); }
    }
    if EhrpdSeen(tlvs) {
      var i, j :| 0 <= i <= j < |tlvs| && PsEvidence(tlvs[i]) && EhrpdReport(tlvs[j]);
      if i > 0 { assert PsEvidence(rest[i - 1]) && EhrpdReport(rest[j - 1]); }
    }
    if EhrpdSeen(rest) {
      var i, j :| 0 <= i <= j < |rest| && PsEvidence(rest[i]) && EhrpdReport(rest[j]);
      assert PsEvidence(tlvs[i + 1]) && EhrpdReport(tlvs[j + 1]);
    }
  }

  /** When the walk ends with eHRPD. */
  lemma {:induction false} PersonalityIff(tlvs: seq<Tlv>)
    ensures ReadAll(NOTHING, tlvs).personality == EHRPD <==> EhrpdSeen(tlvs)
  {
    hide EhrpdSeen, EhrpdReport;
    PersonalityFrom(NOTHING, tlvs);
  }

  /** The personality does depend on the order. */
  lemma {:induction false} PersonalityByOrder()
    ensures var hdr := Tlv(0x16, [0, 0, 0, 0, 0, 0, 0, 0, 0, 0, VALID, 3]); var gsm := Tlv(0x17, [VALID, 2]);
      ReadAll(NOTHING, [gsm, hdr]).personality == EHRPD && ReadAll(NOTHING, [hdr, gsm]).personality == 0
  {
    var hdr := Tlv(0x16, [0, 0, 0, 0, 0, 0, 0, 0, 0, 0, VALID, 3]);
    var gsm := Tlv(0x17, [VALID, 2]);
    PersonalityIff([gsm, hdr]);
    PersonalityIff([hdr, gsm]);
    PersonalityFrom(NOTHING, [hdr, gsm]);
    hide ReadAll;
    assert PsEvidence([gsm, hdr][0]) && EhrpdReport([gsm, hdr][1]);
    assert !PsEvidence(hdr) && !EhrpdReport(gsm);
  }

  /** The walk over the bytes of the answer. */
  method Walk(bytes: seq<byte>, ghost tlvs: seq<Tlv>) returns (v: Verdict)
    requires Sized(tlvs) && AllWellFormed(tlvs) && bytes == EncodeAll(tlvs)
    ensures v == ReadAll(NOTHING, tlvs)
    ensures v.cdma <==> SomeCdma(tlvs) && !SomeLte(tlvs)
    ensures v.attached <==> SomePs(tlvs)
  {
    hide EncodeAll, Read, ReadAll, WellFormed;
    v := NOTHING;
    var remaining := |bytes|;
    var pos := 0;
    ghost var k := 0;
    OffsetZero(tlvs);
    AllOf(v, tlvs);
    while remaining > 0
      invariant 0 <= k <= |tlvs| && pos == OffsetOf(tlvs, k) <= |bytes| && remaining == |bytes| - pos
      invariant ReadAll(v, tlvs[k..]) == ReadAll(NOTHING, tlvs)
    {
      if k == |tlvs| { OffsetEnd(tlvs); }
      ElementAt(tlvs, k);
      v := ReadElement(bytes, pos, v, tlvs[k]);
      OneOff(v, tlvs, k);
      var n := Word(bytes[pos + 1], bytes[pos + 2]);
      remaining := remaining - (n + 3);
      pos := pos + n + 3;
      k := k + 1;
    }
    AtEnd(v, tlvs, k);
    VerdictIff(tlvs);
  }

  lemma {:induction false} AllOf(v: Verdict, tlvs: seq<Tlv>)
    ensures ReadAll(v, tlvs[0..]) == ReadAll(v, tlvs)
  {
    assert tlvs[0..] == tlvs;
  }

  lemma {:induction false} OneOff(v: Verdict, tlvs: seq<Tlv>, k: nat)
    requires k < |tlvs|
    ensures forall u: Verdict :: v == Read(u, tlvs[k]) ==> ReadAll(u, tlvs[k..]) == ReadAll(v, tlvs[k + 1..])
  {
    assert tlvs[k..][1..] == tlvs[k + 1..];
  }

  lemma {:induction false} AtEnd(v: Verdict, tlvs: seq<Tlv>, k: nat)
    requires Sized(tlvs) && k <= |tlvs| && OffsetOf(tlvs, k) == |EncodeAll(tlvs)|
    ensures ReadAll(v, tlvs[k..]) == v
  {
    hide EncodeAll;
    if k < |tlvs| { ElementAt(tlvs, k); }
  }

  predicate Bit1(b: byte) {
    b / 2 % 2 == 1
  }

  /** The switch on one element's type. */
  method ReadElement(bytes: seq<byte>, pos: nat, v0: Verdict, ghost t: Tlv) returns (v: Verdict)
    requires WellFormed(t) && pos + 3 + |t.value| <= |bytes|
    requires bytes[pos] == t.kind && bytes[pos + 3..pos + 3 + |t.value|] == t.value
    ensures v == Read(v0, t)
  {
    assert forall i :: 0 <= i < |t.value| ==> bytes[pos + 3 + i] == t.value[i];
    v := v0;
    var kind := bytes[pos];
    if kind == 0x10 || kind == 0x11 {
      if bytes[pos + 3] == SERVICE {
        v := v.(cdma := !v.isLte);
      }
    } else if kind == 0x14 || kind == 0x4A {
      if bytes[pos + 3] == SERVICE {
        v := v.(isLte := true, cdma := false);
      }
    } else if kind == 0x15 {
      if bytes[pos + 3] == VALID && Bit1(bytes[pos + 4]) {
        v := v.(attached := true, cdma := !v.isLte);
      }
    } else if kind == 0x16 {
      if bytes[pos + 3] == VALID && Bit1(bytes[pos + 4]) {
        v := v.(attached := true, cdma := !v.isLte);
      }
      if v.attached && bytes[pos + 13] == VALID && bytes[pos + 14] == 3 {
        v := v.(personality := EHRPD);
      }
    } else if kind == 0x17 || kind == 0x18 || kind == 0x25 || kind == 0x4B {
      if bytes[pos + 3] == VALID && Bit1(bytes[pos + 4]) {
        v := v.(attached := true);
      }
    } else if kind == 0x19 {
      if bytes[pos + 3] == VALID && Bit1(bytes[pos + 4]) {
        v := v.(attached := true, isLte := true, cdma := false);
      }
    }
  }
}
