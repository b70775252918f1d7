/**
 Ring positions and the 16-bit arithmetic that stands for them.

 Both rings keep small counters (a slot number plus a wrap bit in the packed
 ring, a free-running 16-bit index in the split ring) that stand for a position
 that only grows. This module relates the two.
 */
module Positions {

  /** The values of a 16-bit unsigned variable after an assignment. */
  function U16(x: int): (r: nat)
    ensures r < 0x1_0000
  {
    x % 0x1_0000
  }

  /** The values of a 32-bit unsigned variable after an assignment. */
  function U32(x: int): (r: nat)
    ensures r < 0x1_0000_0000
  {
    x % 0x1_0000_0000
  }

  /** A queue size that virtqueues can have. */
  predicate QueueSize(num: int) {
    1 <= num <= 0x8000
  }

  /** The slot that ring position p falls on; SlotIsMod shows it is p mod num. */
  function Slot(p: nat, num: nat): (r: nat)
    requires num > 0
    ensures r < num
  {
    if p < num then p else Slot(p - num, num)
  }

  /** The wrap bit of ring position p: true in round 0, flipped every round. */
  predicate Wrap(p: nat, num: nat)
    requires num > 0
  {
    if p < num then true else !Wrap(p - num, num)
  }

  lemma {:induction false} DivModStep(p: nat, num: nat)
    requires num > 0 && p >= num
    ensures p % num == (p - num) % num
    ensures p / num == (p - num) / num + 1
  {
    var q, r := (p - num) / num, (p - num) % num;
    assert p - num == q * num + r;
    assert p == (q + 1) * num + r;
    DivModUnique(p, num, q + 1, r);
  }

  lemma DivModUnique(p: nat, num: nat, q: nat, r: nat)
    requires num > 0 && r < num && p == q * num + r
    ensures p / num == q && p % num == r
  {
    var q', r' := p / num, p % num;
    assert p == q' * num + r';
    assert (q - q') * num == r' - r;
    if q' < q {
      MulAtLeast(q - q', num);
    } else if q' > q {
      MulAtLeast(q' - q, num);
    }
  }

  lemma MulAtLeast(k: nat, num: nat)
    requires k >= 1
    ensures k * num >= num
  {
  }

  /** Slot and wrap bit are the remainder and the parity of the quotient. */
  lemma {:induction false} SlotIsMod(p: nat, num: nat)
    requires num > 0
    ensures Slot(p, num) == p % num
    ensures Wrap(p, num) <==> (p / num) % 2 == 0
  {
    if p < num {
      DivModUnique(p, num, 0, p);
    } else {
      SlotIsMod(p - num, num);
      DivModStep(p, num);
    }
  }

  /** Moving forward by at most one round. */
  lemma {:induction false} SlotAdvance(p: nat, n: nat, num: nat)
    requires num > 0 && n <= num
    ensures Slot(p, num) + n < num ==>
              Slot(p + n, num) == Slot(p, num) + n && Wrap(p + n, num) == Wrap(p, num)
    ensures Slot(p, num) + n >= num ==>
              Slot(p + n, num) == Slot(p, num) + n - num && Wrap(p + n, num) == !Wrap(p, num)
  {
    if p >= num {
      SlotAdvance(p - num, n, num);
    }
  }

  /** Two positions less than a round apart fall on different slots. */
  lemma SlotInjective(p: nat, q: nat, num: nat)
    requires num > 0 && p != q && p < q + num && q < p + num
    ensures Slot(p, num) != Slot(q, num)
  {
    if p < q {
      SlotAdvance(p, q - p, num);
    } else {
      SlotAdvance(q, p - q, num);
    }
  }

  /** The distance between two positions, read off slots and wrap bits. */
  lemma EventDistance(e: nat, a: nat, num: nat)
    requires num > 0 && e <= a <= e + num
    ensures a - e == Slot(a, num) - Slot(e, num) + (if Wrap(a, num) == Wrap(e, num) then 0 else num)
  {
    SlotAdvance(e, a - e, num);
  }

  /** vring_need_event: the test both sides apply to a 16-bit event index. */
  predicate NeedEvent(eventIdx: nat, newIdx: nat, oldIdx: nat) {
    U16(newIdx - eventIdx - 1) < U16(newIdx - oldIdx)
  }

  /** Some position of [lo, hi) is congruent to the 16-bit value e. */
  ghost predicate Crossed(lo: int, hi: int, e: nat) {
    exists p :: lo <= p < hi && U16(p) == e
  }

  lemma U16Is(x: int, k: int, r: int)
    requires x == 0x1_0000 * k + r && 0 <= r < 0x1_0000
    ensures U16(x) == r
  {
  }

  lemma U16Split(x: int) returns (k: int)
    ensures x == 0x1_0000 * k + U16(x)
  {
    k := x / 0x1_0000;
  }

  /** Truncating before a subtraction changes nothing once the result is truncated. */
  lemma U16Sub(x: int, y: int, c: int)
    ensures U16(U16(x) - y - c) == U16(x - y - c)
  {
    var k := U16Split(x);
    var j := U16Split(x - y - c);
    U16Is(U16(x) - y - c, j - k, U16(x - y - c));
  }

  lemma U16Distance(a: int, n: nat)
    ensures U16(U16(a) - U16(a - n)) == U16(n)
  {
    var k := U16Split(a);
    var j := U16Split(a - n);
    var i := U16Split(n);
    U16Is(U16(a) - U16(a - n), i + j - k, U16(n));
  }

  /** The last position before a that is congruent to e. */
  lemma LastCongruent(a: int, e: nat)
    requires e < 0x1_0000
    ensures U16(a - 1 - U16(a - e - 1)) == e
    ensures forall p :: p < a && U16(p) == e ==> p <= a - 1 - U16(a - e - 1)
  {
    var j := U16Split(a - e - 1);
    U16Is(a - 1 - U16(a - e - 1), j, e);
    forall p | p < a && U16(p) == e
      ensures p <= a - 1 - U16(a - e - 1)
    {
      var i := U16Split(p);
    }
  }

  /** The 16-bit test is exact for fewer than 65536 new entries. */
  lemma NeedEventExact(a: int, n: nat, e: nat)
    requires n < 0x1_0000 && e < 0x1_0000
    ensures NeedEvent(e, U16(a), U16(a - n)) <==> Crossed(a - n, a, e)
  {
    U16Sub(a, e, 1);
    U16Distance(a, n);
    U16Is(n, 0, n);
    LastCongruent(a, e);
    CrossedAt(a - n, a, e, a - 1 - U16(a - e - 1));
  }

  lemma CrossedAt(lo: int, hi: int, e: nat, q: int)
    requires q < hi && U16(q) == e && forall p :: p < hi && U16(p) == e ==> p <= q
    ensures Crossed(lo, hi, e) <==> lo <= q
  {
  }

  /** The decision of virtqueue_kick_prepare_split when event indices are in use. */
  predicate SplitKick(availIdx: nat, numAdded: nat, availEvent: nat) {
    numAdded >= 0x1_0000 || NeedEvent(availEvent, availIdx, U16(availIdx - numAdded))
  }

  lemma KickIdx(a: int, n: nat)
    ensures U16(U16(a) - n) == U16(a - n)
  {
    U16Sub(a, n, 0);
  }

  /** The split kick asks exactly whether the adds since the last kick crossed the
      device's event index, also when there were 65536 of them or more. */
  lemma SplitKickExact(a: int, n: nat, e: nat)
    requires e < 0x1_0000
    ensures SplitKick(U16(a), n, e) <==> Crossed(a - n, a, e)
  {
    if n < 0x1_0000 {
      KickIdx(a, n);
      NeedEventExact(a, n, e);
    } else {
      LastCongruent(a, e);
      CrossedAt(a - n, a, e, a - 1 - U16(a - e - 1));
    }
  }

  /** Offset and wrap bit of a position, as the packed ring's event fields hold them. */
  function OffWrap(p: nat, num: nat): (r: nat)
    requires QueueSize(num)
    ensures r < 0x1_0000
  {
    Slot(p, num) + (if Wrap(p, num) then 0x8000 else 0)
  }

  /** The decision of virtqueue_kick_prepare_packed when the device asked for a descriptor event. */
  predicate PackedKick(num: nat, nextAvail: nat, availWrap: bool, numAdded: nat, offWrap: nat) {
    var oldIdx := U16(nextAvail - numAdded);
    var wrapCounter := offWrap / 0x8000 == 1;
    var offset := offWrap % 0x8000;
    var eventIdx := if wrapCounter != availWrap then U16(offset - num) else offset;
    NeedEvent(eventIdx, nextAvail, oldIdx)
  }

  lemma OffWrapParts(p: nat, num: nat)
    requires QueueSize(num)
    ensures OffWrap(p, num) % 0x8000 == Slot(p, num)
    ensures (OffWrap(p, num) / 0x8000 == 1) <==> Wrap(p, num)
  {
  }

  lemma PackedKickTest(a: int, e: int, n: nat)
    ensures NeedEvent(U16(e), U16(a), U16(U16(a) - n)) <==> U16(a - e - 1) < U16(n)
  {
    U16Sub(a, U16(e), 1);
    var k := U16Split(e);
    var j := U16Split(a - e - 1);
    U16Is(a - U16(e) - 1, j + k, U16(a - e - 1));
    KickIdx(a, n);
    U16Distance(a, n);
  }

  /** The event position as the packed kick rebuilds it from offset and wrap bit. */
  function KickEvent(num: nat, e: nat, availWrap: bool): int
    requires num > 0
  {
    Slot(e, num) - (if Wrap(e, num) == availWrap then 0 else num)
  }

  lemma PackedKickUnfold(num: nat, a: nat, e: nat, n: nat, availWrap: bool)
    requires QueueSize(num)
    ensures PackedKick(num, Slot(a, num), availWrap, n, OffWrap(e, num)) <==>
            U16(Slot(a, num) - KickEvent(num, e, availWrap) - 1) < U16(n)
  {
    OffWrapParts(e, num);
    U16Is(Slot(a, num), 0, Slot(a, num));
    U16Is(Slot(e, num), 0, Slot(e, num));
    PackedKickTest(Slot(a, num), KickEvent(num, e, availWrap), n);
  }

  /** With a correct wrap counter the packed kick asks exactly whether the event lies
      among the last (numAdded mod 65536) descriptors. */
  lemma PackedKickMeaning(num: nat, a: nat, e: nat, n: nat)
    requires QueueSize(num) && e <= a <= e + num
    ensures PackedKick(num, Slot(a, num), Wrap(a, num), n, OffWrap(e, num)) <==> e < a && a - e <= U16(n)
  {
    EventDistance(e, a, num);
    PackedKickUnfold(num, a, e, n, Wrap(a, num));
    if e < a {
      U16Is(a - e - 1, 0, a - e - 1);
    } else {
      U16Is(-1, -1, 0xFFFF);
    }
  }

  /** Hence the kick is right, that is true iff the adds since the last kick crossed
      the event, iff their number did not lose that fact to truncation. */
  lemma PackedKickExact(num: nat, a: nat, e: nat, n: nat)
    requires QueueSize(num) && e <= a <= e + num
    ensures n < 0x1_0000 ==>
              (PackedKick(num, Slot(a, num), Wrap(a, num), n, OffWrap(e, num)) <==> a - n <= e < a)
    ensures (PackedKick(num, Slot(a, num), Wrap(a, num), n, OffWrap(e, num)) <==> a - n <= e < a)
       <==> n < 0x1_0000 || e == a || a - e <= U16(n)
  {
    PackedKickMeaning(num, a, e, n);
    if n < 0x1_0000 {
      U16Is(n, 0, n);
    }
  }

  /** With the wrap counter one round behind, the event is off by a whole ring: an
      event in the current round is missed until a further ring's worth was added,
      one in the previous round is found only among the last num of 65536. */
  lemma PackedKickStale(num: nat, a: nat, e: nat, n: nat)
    requires QueueSize(num) && e <= a <= e + num
    ensures PackedKick(num, Slot(a, num), !Wrap(a, num), n, OffWrap(e, num)) <==>
            (if Wrap(e, num) == Wrap(a, num) then a - e + num <= U16(n)
             else a - e < num && 0x1_0000 + a - e - num <= U16(n))
  {
    EventDistance(e, a, num);
    PackedKickUnfold(num, a, e, n, !Wrap(a, num));
    if Wrap(e, num) == Wrap(a, num) {
      U16Is(a - e + num - 1, 0, a - e + num - 1);
    } else {
      U16Is(a - e - num - 1, -1, 0x1_0000 + a - e - num - 1);
    }
  }

  /** Truncating twice. */
  lemma U16OfU32(x: nat)
    ensures U16(U32(x)) == U16(x)
  {
  }
}
