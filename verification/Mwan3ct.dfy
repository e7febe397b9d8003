/**
 The targeted connection-tracking flush of `mwan3ct.c`: spreading the bits of a counter over
 the set bits of a mask, and removing every entry that has a mark under the mask.
 */
module Mwan3Bits {
  import opened Common

  type word = bv32

  function And(a: word, b: word): word { a & b }

  function Or(a: word, b: word): word { a | b }

  function Half(a: word): word { a >> 1 }

  predicate Odd(a: word) { a & 1 == 1 }

  /** The mask without its lowest set bit. */
  function Rest(m: word): word { m & (m - 1) }

  /** The lowest set bit. */
  function Lowest(m: word): word { m & (0 - m) }

  // ---- Facts about single words ----

  lemma {:induction false} RestSmaller(m: word) requires m != 0 ensures Rest(m) < m {}

  lemma {:induction false} RestEven(m: word) ensures !Odd(Rest(m)) {}

  lemma {:induction false} Apart(m: word) ensures And(Lowest(m), Rest(m)) == 0 {}

  lemma {:induction false} Together(m: word) ensures Or(Lowest(m), Rest(m)) == m {}

  lemma {:induction false} SomeLowest(m: word) requires m != 0 ensures Lowest(m) != 0 {}

  lemma {:induction false} OneBit(v: word, m: word) ensures And(v, Lowest(m)) == 0 || And(v, Lowest(m)) == Lowest(m) {}

  lemma {:induction false} OrZero(a: word) ensures Or(0, a) == a {}

  lemma {:induction false} AndZero(a: word) ensures And(a, 0) == 0 && And(0, a) == 0 {}

  lemma {:induction false} HalfSmaller(m: word) requires m != 0 ensures Half(m) < m {}

  lemma {:induction false} OddHalf(m: word) requires Odd(m) ensures Half(Rest(m)) == Half(m) {}

  lemma {:induction false} EvenHalf(m: word) requires !Odd(m) && m != 0 ensures Half(Rest(m)) == Rest(Half(m)) {}

  lemma {:induction false} EvenZero(m: word) requires !Odd(m) ensures m == 0 <==> Half(m) == 0 {}

  lemma {:induction false} JoinSub(d: word, l: word, r: word)
    requires And(d, r) == d
    ensures And(Or(l, d), Or(l, r)) == Or(l, d)
  {
  }

  lemma {:induction false} SubOr(d: word, l: word, r: word) requires And(d, r) == d ensures And(d, Or(l, r)) == d {}

  lemma {:induction false} Outside(low: word, l: word, r: word)
    requires And(low, Or(l, r)) == 0
    ensures And(low, l) == 0 && And(low, r) == 0
  {
  }

  lemma {:induction false} Ignored(low: word, d: word, l: word)
    requires And(low, l) == 0
    ensures And(Or(low, d), l) == And(d, l)
  {
  }

  lemma {:induction false} Hit(d: word, l: word, r: word)
    requires And(d, r) == d && And(l, r) == 0
    ensures And(Or(l, d), l) == l
  {
  }

  lemma {:induction false} Miss(d: word, l: word, r: word)
    requires And(d, r) == d && And(l, r) == 0
    ensures And(d, l) == 0
  {
  }

  lemma {:induction false} Distribute(v: word, l: word, r: word) ensures And(v, Or(l, r)) == Or(And(v, l), And(v, r)) {}

  function Shift8(m: word): word { m >> 8 }

  lemma {:induction false} EightHalves(m: word)
    ensures Half(Half(Half(Half(Half(Half(Half(Half(m)))))))) == Shift8(m)
  {
  }

  lemma {:induction false} FourBytes(m: word) ensures Shift8(Shift8(Shift8(Shift8(m)))) == 0 {}

  // ---- Spreading and collecting ----

  /** Spreads the binary digits of `id` over the set bits of `m`, lowest first. */
  function Deposit(id: nat, m: word): word
    decreases m
  {
    if m == 0 then 0
    else
      var rest := Rest(m);
      assert rest < m by { RestSmaller(m); }
      hide Rest, Lowest, Or;
      Or(if id % 2 == 1 then Lowest(m) else 0, Deposit(id / 2, rest))
  }

  /** Reads the bits of `v` under the set bits of `m` as binary digits, lowest first. */
  function Extract(v: word, m: word): nat
    decreases m
  {
    if m == 0 then 0
    else
      var rest := Rest(m);
      assert rest < m by { RestSmaller(m); }
      hide Rest, Lowest, And;
      (if And(v, Lowest(m)) != 0 then 1 else 0) + 2 * Extract(v, rest)
  }

  /** The number of set bits, position by position. */
  function Popcount(m: word): nat
    decreases m
  {
    if m == 0 then 0
    else
      var half := Half(m);
      assert half < m by { HalfSmaller(m); }
      hide Half, Odd;
      (if Odd(m) then 1 else 0) + Popcount(half)
  }

  /** Dropping the lowest set bit drops the count by one. */
  lemma {:induction false} PopcountRest(m: word)
    requires m != 0
    ensures Popcount(m) == Popcount(Rest(m)) + 1
    decreases m
  {
    hide Half, Odd, Rest;
    RestEven(m);
    EvenZero(Rest(m));
    HalfSmaller(m);
    if Odd(m) {
      OddHalf(m);
    } else {
      EvenHalf(m);
      EvenZero(m);
      PopcountRest(Half(m));
    }
  }

  function Halves(m: word, n: nat): word {
    if n == 0 then m else Halves(Half(m), n - 1)
  }

  lemma {:induction false} HalvesZero(n: nat)
    ensures Halves(0, n) == 0
  {
    if n > 0 {
      assert Half(0) == 0;
      HalvesZero(n - 1);
    }
  }

  lemma {:induction false} PopcountAtMost(m: word, n: nat)
    requires Halves(m, n) == 0
    ensures Popcount(m) <= n
    decreases n
  {
    hide Half, Odd;
    if m != 0 {
      PopcountAtMost(Half(m), n - 1);
    }
  }

  lemma {:induction false} HalvesByte(m: word, n: nat)
    ensures Halves(m, n + 8) == Halves(Shift8(m), n)
  {
    hide Half, Shift8;
    EightHalves(m);
    assert Halves(m, n + 8) == Halves(Half(m), n + 7);
    var h := Half(Half(Half(Half(m))));
    assert Halves(m, n + 8) == Halves(h, n + 4) by {
      assert Halves(Half(m), n + 7) == Halves(Half(Half(m)), n + 6);
      assert Halves(Half(Half(m)), n + 6) == Halves(Half(Half(Half(m))), n + 5);
    }
    assert Halves(h, n + 4) == Halves(Half(h), n + 3);
    assert Halves(Half(h), n + 3) == Halves(Half(Half(h)), n + 2);
    assert Halves(Half(Half(h)), n + 2) == Halves(Half(Half(Half(h))), n + 1);
  }

  /** A word has at most 32 set bits. */
  lemma {:induction false} PopcountWord(m: word)
    ensures Popcount(m) <= 32
  {
    hide Shift8, Halves, Popcount, Half;
    HalvesByte(m, 24);
    HalvesByte(Shift8(m), 16);
    HalvesByte(Shift8(Shift8(m)), 8);
    HalvesByte(Shift8(Shift8(Shift8(m))), 0);
    FourBytes(m);
    HalvesZero(0);
    PopcountAtMost(m, 32);
  }

  /** What is spread lies under the mask. */
  lemma {:induction false} DepositUnder(id: nat, m: word)
    ensures And(Deposit(id, m), m) == Deposit(id, m)
    decreases m
  {
    hide And, Or, Rest, Lowest;
    if m == 0 {
      AndZero(m);
    } else {
      var d := Deposit(id / 2, Rest(m));
      RestSmaller(m);
      DepositUnder(id / 2, Rest(m));
      Together(m);
      JoinSub(d, Lowest(m), Rest(m));
      SubOr(d, Lowest(m), Rest(m));
      OrZero(d);
    }
  }

  lemma {:induction false} ExtractBelow(v: word, m: word)
    ensures Extract(v, m) < Pow2(Popcount(m))
    decreases m
  {
    hide And, Half, Odd, Rest, Lowest;
    if m != 0 {
      RestSmaller(m);
      PopcountRest(m);
      ExtractBelow(v, Rest(m));
    }
  }

  /** Bits outside the mask do not matter. */
  lemma {:induction false} OutsideIgnored(d: word, m: word, low: word)
    requires And(low, m) == 0
    ensures Extract(Or(low, d), m) == Extract(d, m)
    decreases m
  {
    hide And, Or, Rest, Lowest;
    if m != 0 {
      RestSmaller(m);
      Together(m);
      Outside(low, Lowest(m), Rest(m));
      Ignored(low, d, Lowest(m));
      OutsideIgnored(d, Rest(m), low);
    }
  }

  /** Collecting what was spread gives the number back. */
  lemma {:induction false} ExtractDeposit(id: nat, m: word)
    requires id < Pow2(Popcount(m))
    ensures Extract(Deposit(id, m), m) == id
    decreases m
  {
    hide And, Or, Half, Odd, Rest, Lowest;
    if m != 0 {
      var r, l := Rest(m), Lowest(m);
      var d := Deposit(id / 2, r);
      RestSmaller(m);
      PopcountRest(m);
      ExtractDeposit(id / 2, r);
      DepositUnder(id / 2, r);
      Apart(m);
      if id % 2 == 1 {
        SomeLowest(m);
        Hit(d, l, r);
        OutsideIgnored(d, r, l);
      } else {
        OrZero(d);
        Miss(d, l, r);
      }
    }
  }

  /** Spreading what was collected gives the part under the mask. */
  lemma {:induction false} DepositExtract(v: word, m: word)
    ensures Deposit(Extract(v, m), m) == And(v, m)
    decreases m
  {
    hide And, Or, Rest, Lowest;
    if m == 0 {
      AndZero(v);
    } else {
      RestSmaller(m);
      DepositExtract(v, Rest(m));
      Together(m);
      Distribute(v, Lowest(m), Rest(m));
      OneBit(v, m);
    }
  }

  /** The numbers below 2 to the count and the submasks, one to one. */
  lemma {:induction false} Bijection(m: word)
    ensures forall id | 0 <= id < Pow2(Popcount(m)) ::
      And(Deposit(id, m), m) == Deposit(id, m) && Extract(Deposit(id, m), m) == id
    ensures forall v: word | And(v, m) == v :: Extract(v, m) < Pow2(Popcount(m)) && Deposit(Extract(v, m), m) == v
  {
    hide And, Extract, Deposit, Popcount, Pow2;
    forall id | 0 <= id < Pow2(Popcount(m))
      ensures And(Deposit(id, m), m) == Deposit(id, m) && Extract(Deposit(id, m), m) == id
    {
      DepositUnder(id, m);
      ExtractDeposit(id, m);
    }
    forall v: word | And(v, m) == v ensures Extract(v, m) < Pow2(Popcount(m)) && Deposit(Extract(v, m), m) == v {
      ExtractBelow(v, m);
      DepositExtract(v, m);
    }
  }

  /** An entry has the mark for a number if and only if its bits under the mask read as that number. */
  lemma {:induction false} MarkIff(v: word, m: word, id: nat)
    requires id < Pow2(Popcount(m))
    ensures And(v, m) == Deposit(id, m) <==> Extract(v, m) == id
  {
    hide And, Extract, Deposit, Popcount, Pow2;
    DepositExtract(v, m);
    ExtractBelow(v, m);
    ExtractDeposit(id, m);
    ExtractDeposit(Extract(v, m), m);
  }

  /** No bits under the mask reads as zero. */
  lemma {:induction false} UnmarkedIff(v: word, m: word)
    ensures And(v, m) == 0 <==> Extract(v, m) == 0
  {
    hide And, Extract, Popcount;
    MarkIff(v, m, 0);
    DepositNone(m);
  }

  lemma {:induction false} DepositNone(m: word)
    ensures Deposit(0, m) == 0
    decreases m
  {
    hide Or, Rest, Lowest;
    if m != 0 {
      RestSmaller(m);
      DepositNone(Rest(m));
      OrZero(0);
    }
  }
}

/** The command: conntrack entries as a set, the kernel's filtered delete as one step on it. */
module Mwan3ct {
  import opened Common
  import opened Mwan3Bits

  const MAX_BITS: nat := 16
  const UINT32: nat := 0x1_0000_0000

  datatype Entry = Entry(id: nat, mark: word, status: word)

  /** A value under a mask; status filters are optional. */
  datatype StatusFilter = AnyStatus | Status(value: word, mask: word)

  predicate Passes(e: Entry, f: StatusFilter) {
    f.Status? ==> And(e.status, f.mask) == f.value
  }

  /** What one query matches. */
  predicate Matched(e: Entry, value: word, mask: word, f: StatusFilter) {
    And(e.mark, mask) == value && Passes(e, f)
  }

  /** Bit `k` of a number, as `id & bit` tests it; a bit shifted out of the word is zero. */
  predicate BitSet(id: nat, bit: nat) {
    bit != 0 && id / bit % 2 == 1
  }

  lemma {:induction false} DivPow(id: nat, k: nat)
    ensures id / Pow2(k) / 2 == id / Pow2(k + 1)
  {
    var p := Pow2(k);
    var q := id / p;
    assert id == p * q + id % p;
    DivTwice(id, p);
  }

  lemma {:induction false} DivTwice(id: nat, p: nat)
    requires p > 0
    ensures id / p / 2 == id / (2 * p)
  {
    var q, r := id / p, id % p;
    assert id == q * p + r;
    var h := q / 2;
    var s := q % 2;
    assert q == 2 * h + s;
    assert id == h * (2 * p) + (s * p + r) by {
      assert (2 * h + s) * p == h * (2 * p) + s * p;
    }
    assert 0 <= s * p + r < 2 * p;
    Quotient(id, 2 * p, h, s * p + r);
  }

  lemma {:induction false} Quotient(n: nat, d: nat, q: nat, r: nat)
    requires d > 0 && n == q * d + r && r < d
    ensures n / d == q
  {
    Unique(d, n / d, n % d, q, r);
  }

  /** Division with remainder is unique. */
  lemma {:induction false} Unique(d: nat, q: nat, r: nat, q1: nat, r1: nat)
    requires r < d && r1 < d && d * q + r == d * q1 + r1
    ensures q == q1
    decreases q
  {
    if q > 0 && q1 > 0 {
      Less(d, q);
      Less(d, q1);
      Unique(d, q - 1, r, q1 - 1, r1);
    } else if q > 0 {
      Less(d, q);
    } else if q1 > 0 {
      Less(d, q1);
    }
  }

  lemma {:induction false} Less(d: nat, q: nat)
    requires q > 0
    ensures d * q == d * (q - 1) + d && d * (q - 1) >= 0
  {
  }

  lemma {:induction false} PowLess(j: nat, k: nat)
    requires j < k
    ensures 2 * Pow2(j) <= Pow2(k)
  {
    if j < k - 1 { PowLess(j, k - 1); }
  }

  lemma {:induction false} PowTable()
    ensures Pow2(16) == 0x1_0000 && Pow2(32) == UINT32
  {
    assert Pow2(8) == 256;
    assert Pow2(16) == 0x1_0000;
    assert Pow2(24) == 0x100_0000;
  }

  lemma {:induction false} BitWithin(k: nat)
    requires k < 31
    ensures 2 * Pow2(k) < UINT32
  {
    PowTable();
    PowLess(k, 31);
    PowLess(31, 32);
  }

  /** The bit after `k` shifts within the word. */
  function BitAt(k: nat): nat {
    if k < 32 then Pow2(k) else 0
  }

  lemma {:induction false} NextBit(k: nat)
    requires k < 32
    ensures (2 * BitAt(k)) % UINT32 == BitAt(k + 1)
  {
    if k < 31 {
      BitWithin(k);
    } else {
      PowTable();
      assert Pow2(32) == 2 * Pow2(31);
    }
  }

  /** id2mask. */
  method Id2Mask(id: nat, mask: word) returns (result: word)
    ensures result == Deposit(id, mask)
  {
    hide And, Or, Rest, Lowest, Pow2, Half, Odd, BitAt;
    result := 0;
    var bit := 1;
    var m := mask;
    ghost var k := 0;
    PopcountWord(mask);
    Start(id);
    OrZero(Deposit(id, mask));
    while m != 0
      invariant k + Popcount(m) == Popcount(mask) <= 32
      invariant bit == BitAt(k)
      invariant Or(result, Deposit(id / Pow2(k), m)) == Deposit(id, mask)
      decreases m
    {
      RestSmaller(m);
      PopcountRest(m);
      BitTest(id, k);
      NextBit(k);
      DivPow(id, k);
      ghost var d := Deposit(id / Pow2(k) / 2, Rest(m));
      OrZero(d);
      OrAssoc(result, Lowest(m), d);
      if BitSet(id, bit) {
        result := Or(result, Lowest(m));
      }
      bit := (2 * bit) % UINT32;
      m := Rest(m);
      k := k + 1;
    }
    OrZero(result);
    OrCommute(0, result);
  }

  lemma {:induction false} OrAssoc(a: word, b: word, c: word) ensures Or(Or(a, b), c) == Or(a, Or(b, c)) {}

  lemma {:induction false} OrCommute(a: word, b: word) ensures Or(a, b) == Or(b, a) {}

  lemma {:induction false} Start(id: nat)
    ensures BitAt(0) == 1 && id / Pow2(0) == id
  {
  }

  lemma {:induction false} BitTest(id: nat, k: nat)
    requires k < 32
    ensures BitSet(id, BitAt(k)) <==> id / Pow2(k) % 2 == 1
  {
  }

  class Conntrack {
    var entries: set<Entry>

    constructor (table: set<Entry>)
      ensures entries == table
    {
      entries := table;
    }

    /** flush_filtered by mark: one query, which removes what it matches or fails and removes nothing. */
    method FlushFiltered(value: word, mask: word, f: StatusFilter, works: bool) returns (ret: int)
      modifies this
      ensures ret == if works then 0 else -1
      ensures entries == if works then set e | e in old(entries) && !Matched(e, value, mask, f) else old(entries)
    {
      if !works {
        return -1;
      }
      entries := set e | e in entries && !Matched(e, value, mask, f);
      ret := 0;
    }

    /**
     flush_any_marked. `works` says which queries succeed. On success exactly the entries with
     a mark under the mask that pass the status filter are gone; when a query fails, exactly
     those of the marks before it; with more than sixteen bits in the mask, none.
     */
    method FlushAnyMarked(mask: word, f: StatusFilter, works: nat -> bool) returns (ret: int)
      modifies this
      ensures Popcount(mask) > MAX_BITS ==> ret == -1 && entries == old(entries)
      ensures ret == 0 <==> Popcount(mask) <= MAX_BITS && forall id :: 1 <= id < Pow2(Popcount(mask)) ==> works(id)
      ensures ret == 0 ==> entries == set e | e in old(entries) && !(And(e.mark, mask) != 0 && Passes(e, f))
      ensures ret != 0 && Popcount(mask) <= MAX_BITS ==>
        exists stop :: 1 <= stop < Pow2(Popcount(mask)) && !works(stop) && (forall id :: 1 <= id < stop ==> works(id))
          && entries == Unflushed(old(entries), mask, f, stop)
    {
      hide And, Popcount, Pow2, Extract, Deposit, Passes;
      var bits := Popcount(mask);
      if bits > MAX_BITS {
        return -1;
      }
      var maxId := Pow2(bits) - 1;
      ghost var before := entries;
      var id := 1;
      NoneYet(before, mask, f);
      while id <= maxId
        invariant 1 <= id <= maxId + 1
        invariant forall j :: 1 <= j < id ==> works(j)
        invariant entries == Unflushed(before, mask, f, id)
      {
        var value := Id2Mask(id, mask);
        ret := FlushFiltered(value, mask, f, works(id));
        if ret < 0 {
          return;
        }
        OneMore(before, mask, f, id);
        id := id + 1;
      }
      AllFlushed(before, mask, f);
      ret := 0;
    }
  }

  /** What is left once the marks numbered 1 up to `id` are flushed. */
  ghost function Unflushed(entries: set<Entry>, mask: word, f: StatusFilter, id: nat): set<Entry> {
    set e | e in entries && !(1 <= Extract(e.mark, mask) < id && Passes(e, f))
  }

  lemma {:induction false} NoneYet(entries: set<Entry>, mask: word, f: StatusFilter)
    ensures Unflushed(entries, mask, f, 1) == entries
  {
  }

  lemma {:induction false} OneMore(entries: set<Entry>, mask: word, f: StatusFilter, id: nat)
    requires 1 <= id < Pow2(Popcount(mask))
    ensures (set e | e in Unflushed(entries, mask, f, id) && !Matched(e, Deposit(id, mask), mask, f))
      == Unflushed(entries, mask, f, id + 1)
  {
    hide And, Popcount, Pow2, Extract, Deposit, Passes;
    forall e | e in entries ensures And(e.mark, mask) == Deposit(id, mask) <==> Extract(e.mark, mask) == id {
      MarkIff(e.mark, mask, id);
    }
  }

  lemma {:induction false} AllFlushed(entries: set<Entry>, mask: word, f: StatusFilter)
    ensures Unflushed(entries, mask, f, Pow2(Popcount(mask))) == set e | e in entries
      && !(And(e.mark, mask) != 0 && Passes(e, f))
  {
    hide And, Popcount, Pow2, Extract, Passes;
    forall e | e in entries ensures And(e.mark, mask) != 0 <==> 1 <= Extract(e.mark, mask) < Pow2(Popcount(mask)) {
      UnmarkedIff(e.mark, mask);
      ExtractBelow(e.mark, mask);
    }
  }

  /** No entry is matched by two of the queries. */
  lemma {:induction false} QueriesApart(mask: word, f: StatusFilter, i: nat, j: nat, e: Entry)
    requires i < Pow2(Popcount(mask)) && j < Pow2(Popcount(mask)) && i != j
    ensures !(Matched(e, Deposit(i, mask), mask, f) && Matched(e, Deposit(j, mask), mask, f))
  {
    hide And, Popcount, Pow2, Extract, Deposit, Passes;
    MarkIff(e.mark, mask, i);
    MarkIff(e.mark, mask, j);
  }
}
