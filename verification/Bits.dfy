/**
 Bit masks: the queue-size test, ring indexing and rounding are all written with masks,
 and mean remainders only for powers of two.
 */
module Bits {
  import opened Positions

  /** x & y, bit by bit. */
  function And(x: nat, y: nat): (r: nat) {
    if x == 0 then 0
    else 2 * And(x / 2, y / 2) + (if x % 2 == 1 && y % 2 == 1 then 1 else 0)
  }

  /** x & ~y, bit by bit. */
  function AndNot(x: nat, y: nat): (r: nat) {
    if x == 0 then 0
    else 2 * AndNot(x / 2, y / 2) + (if x % 2 == 1 && y % 2 == 0 then 1 else 0)
  }

  predicate PowerOfTwo(n: nat) {
    n == 1 || (n > 0 && n % 2 == 0 && PowerOfTwo(n / 2))
  }

  lemma {:induction false} AndZero(x: nat)
    ensures And(x, 0) == 0
  {
    if x > 0 {
      AndZero(x / 2);
    }
  }

  /** Halving both operands of a remainder. */
  lemma ModHalf(x: nat, n: nat)
    requires n > 0
    ensures x % (2 * n) == 2 * ((x / 2) % n) + x % 2
  {
    var q, r := (x / 2) / n, (x / 2) % n;
    assert x / 2 == q * n + r;
    assert x == q * (2 * n) + (2 * r + x % 2);
    DivModUnique(x, 2 * n, q, 2 * r + x % 2);
  }

  lemma MaskHalf(x: nat, h: nat)
    requires h > 0
    ensures And(x, 2 * h - 1) == 2 * And(x / 2, h - 1) + x % 2
  {
  }

  lemma MaskStep(x: nat, h: nat)
    requires h > 0 && And(x / 2, h - 1) == (x / 2) % h
    ensures And(x, 2 * h - 1) == x % (2 * h)
  {
    hide And;
    MaskHalf(x, h);
    ModHalf(x, h);
  }

  /** DESC_INDEX is the remainder when the queue size is a power of two. */
  lemma {:induction false} MaskIsMod(x: nat, n: nat)
    requires PowerOfTwo(n)
    ensures And(x, n - 1) == x % n
  {
    if n == 1 {
      AndZero(x);
    } else {
      var h := n / 2;
      MaskIsMod(x / 2, h);
      MaskStep(x, h);
      assert n == 2 * h;
    }
  }

  lemma {:induction false} AndNotIs(x: nat, y: nat)
    ensures And(x, y) + AndNot(x, y) == x
  {
    if x > 0 {
      AndNotIs(x / 2, y / 2);
    }
  }

  lemma {:induction false} AndSelf(x: nat)
    ensures And(x, x) == x
  {
    if x > 0 {
      AndSelf(x / 2);
    }
  }

  /** The queue-size test n & (n - 1) accepts exactly the powers of two. */
  lemma {:induction false} MaskTest(n: nat)
    requires n > 0
    ensures And(n, n - 1) == 0 <==> PowerOfTwo(n)
  {
    if n % 2 == 1 {
      assert (n - 1) / 2 == n / 2;
      AndSelf(n / 2);
    } else {
      assert (n - 1) / 2 == n / 2 - 1;
      MaskTest(n / 2);
    }
  }

  /** (x + align - 1) & ~(align - 1), the rounding of ring layouts and of both allocators. */
  function RoundUp(x: nat, align: nat): (r: nat)
    requires align > 0
  {
    AndNot(x + align - 1, align - 1)
  }

  /** It is the least multiple of align that is at least x. */
  lemma RoundUpIs(x: nat, align: nat)
    requires PowerOfTwo(align)
    ensures x <= RoundUp(x, align) < x + align
    ensures RoundUp(x, align) % align == 0
  {
    var y := x + align - 1;
    MaskIsMod(y, align);
    AndNotIs(y, align - 1);
    MultipleBelow(y, align);
  }

  lemma MultipleBelow(y: nat, n: nat)
    requires n > 0
    ensures y % n < n && y % n <= y && (y - y % n) % n == 0
  {
    var q, r := y / n, y % n;
    assert y == q * n + r;
    assert q * n >= 0;
    DivModUnique(y - r, n, q, 0);
  }

  lemma Product(x: nat, y: nat)
    ensures x * y >= 0
  {
  }

  lemma Distributes(x: nat, y: nat, z: nat)
    ensures (x + y) * z == x * z + y * z
  {
  }

  /** A product that proofs need not look into. */
  function Times(x: nat, y: nat): (r: nat) {
    x * y
  }

  lemma FewerTimes(n: nat, k: nat, m: nat)
    requires Times(n, m) < Times(k, m)
    ensures n < k
  {
    if k <= n {
      Distributes(k, n - k, m);
      Product(n - k, m);
    }
  }

  /** Powers of two up to the range of a 16-bit index divide it. */
  lemma {:induction false} DividesRange(n: nat, m: nat)
    requires PowerOfTwo(n) && PowerOfTwo(m) && n <= m
    ensures m % n == 0
  {
    if n > 1 {
      ModHalf(m, n / 2);
      DividesRange(n / 2, m / 2);
    }
  }

  lemma ModOfMod(x: nat, m: nat, n: nat)
    requires 0 < n && 0 < m && m % n == 0
    ensures (x % m) % n == x % n
  {
    var r := x % m;
    Regroup(x, m, n, m / n, x / m, r, r / n, r % n);
    DivModUnique(x, n, (x / m) * (m / n) + r / n, r % n);
  }

  lemma Regroup(x: nat, m: nat, n: nat, k: nat, q: nat, r: nat, q': nat, r': nat)
    requires m == k * n && x == q * m + r && r == q' * n + r'
    ensures x == (q * k + q') * n + r'
  {
    assert q * (k * n) == (q * k) * n;
    assert (q * k + q') * n == (q * k) * n + q' * n;
  }

  /** Masking a truncated 16-bit index gives the slot of the position it stands for. */
  lemma {:induction false} IndexIsSlot(p: nat, num: nat)
    requires QueueSize(num) && PowerOfTwo(num)
    ensures And(U16(p), num - 1) == Slot(p, num)
  {
    MaskIsMod(U16(p), num);
    assert PowerOfTwo(0x1_0000) by {
      assert PowerOfTwo(0x10) && PowerOfTwo(0x100) && PowerOfTwo(0x1000);
    }
    DividesRange(num, 0x1_0000);
    ModOfMod(p, 0x1_0000, num);
    SlotIsMod(p, num);
  }
}
