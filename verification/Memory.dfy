/**
 Memory that is handed out once and never taken back: the two bump allocators in the uncached
 extension, and the three parts of a split ring in one block.
 */
module Memory {
  import opened Bits
  import opened Positions

  const PAGE_SIZE: nat := 4096
  const CACHE_LINE_SIZE: nat := 64

  lemma Units()
    ensures PowerOfTwo(PAGE_SIZE) && PowerOfTwo(CACHE_LINE_SIZE)
  {
  }

  // ----- multiples -----

  predicate Multiple(x: nat, n: nat) {
    n > 0 && x % n == 0
  }

  lemma MultipleSum(a: nat, b: nat, n: nat)
    requires Multiple(a, n) && Multiple(b, n)
    ensures Multiple(a + b, n)
  {
    assert a + b == (a / n + b / n) * n;
    DivModUnique(a + b, n, a / n + b / n, 0);
  }

  lemma MultipleGap(a: nat, b: nat, n: nat)
    requires Multiple(a, n) && Multiple(b, n) && a < b
    ensures a + n <= b
  {
    var p, q := a / n, b / n;
    assert a == p * n && b == q * n;
    TimesGap(p, q, n);
  }

  lemma TimesGap(p: nat, q: nat, n: nat)
    requires p * n < q * n
    ensures p * n + n <= q * n
  {
    assert Times(p, n) < Times(q, n);
    FewerTimes(p, q, n);
    Product(q - p - 1, n);
    Distributes(p + 1, q - p - 1, n);
    Distributes(p, 1, n);
  }

  lemma MultipleZero(n: nat)
    requires n > 0
    ensures Multiple(0, n)
  {
    DivModUnique(0, n, 0, 0);
  }

  /** Rounding up gives a multiple, and the least one. */
  lemma RoundUpLeast(x: nat, n: nat)
    requires PowerOfTwo(n)
    ensures x <= RoundUp(x, n) < x + n && Multiple(RoundUp(x, n), n)
    ensures forall m: nat :: Multiple(m, n) && x <= m ==> RoundUp(x, n) <= m
  {
    RoundUpIs(x, n);
    assert Multiple(RoundUp(x, n), n);
    forall m: nat | Multiple(m, n) && x <= m
      ensures RoundUp(x, n) <= m
    {
      hide Multiple, RoundUp, PowerOfTwo;
      if m < RoundUp(x, n) {
        MultipleGap(m, RoundUp(x, n), n);
      }
    }
  }

  lemma RoundUpMonotone(x: nat, y: nat, n: nat)
    requires PowerOfTwo(n) && x <= y
    ensures RoundUp(x, n) <= RoundUp(y, n)
  {
    RoundUpLeast(x, n);
    RoundUpLeast(y, n);
  }

  /** Rounding does not depend on an aligned base. */
  lemma RoundUpBase(base: nat, x: nat, n: nat)
    requires PowerOfTwo(n) && Multiple(base, n)
    ensures RoundUp(base + x, n) == base + RoundUp(x, n)
  {
    hide Multiple, RoundUp;
    RoundUpLeast(x, n);
    RoundUpLeast(base + x, n);
    MultipleSum(base, RoundUp(x, n), n);
    if RoundUp(base + x, n) < base + RoundUp(x, n) {
      MultipleGap(RoundUp(base + x, n), base + RoundUp(x, n), n);
    }
  }

  // ----- bump allocation -----

  datatype Block = Block(addr: nat, len: nat)

  ghost predicate Apart(a: Block, b: Block) {
    a.addr + a.len <= b.addr || b.addr + b.len <= a.addr
  }

  ghost predicate Within(a: Block, b: Block) {
    b.addr <= a.addr && a.addr + a.len <= b.addr + b.len
  }

  /** The space that requests take up. */
  function Rounded(sizes: seq<nat>, unit: nat): (n: nat)
    requires unit > 0
  {
    if sizes == [] then 0 else Rounded(sizes[..|sizes| - 1], unit) + RoundUp(sizes[|sizes| - 1], unit)
  }

  lemma UnitPositive(unit: nat)
    requires PowerOfTwo(unit)
    ensures unit > 0
  {
  }

  lemma {:induction false} RoundedMultiple(sizes: seq<nat>, unit: nat)
    requires PowerOfTwo(unit)
    ensures Multiple(Rounded(sizes, unit), unit)
  {
    hide Multiple, RoundUp, PowerOfTwo;
    if sizes == [] {
      UnitPositive(unit);
      MultipleZero(unit);
    } else {
      var n := |sizes| - 1;
      RoundedMultiple(sizes[..n], unit);
      RoundUpLeast(sizes[n], unit);
      MultipleSum(Rounded(sizes[..n], unit), RoundUp(sizes[n], unit), unit);
    }
  }

  lemma {:induction false} RoundedGrows(sizes: seq<nat>, n: nat, unit: nat)
    requires unit > 0 && n <= |sizes|
    ensures Rounded(sizes[..n], unit) <= Rounded(sizes, unit)
    decreases |sizes|
  {
    if n < |sizes| {
      RoundedGrows(sizes[..|sizes| - 1], n, unit);
      assert sizes[..|sizes| - 1][..n] == sizes[..n];
    } else {
      assert sizes[..n] == sizes;
    }
  }

  lemma {:induction false} RoundedAppend(a: seq<nat>, b: seq<nat>, unit: nat)
    requires unit > 0
    ensures Rounded(a + b, unit) == Rounded(a, unit) + Rounded(b, unit)
  {
    hide RoundUp;
    if b == [] {
      assert a + b == a;
    } else {
      var n := |b| - 1;
      RoundedAppend(a, b[..n], unit);
      assert (a + b)[..|a + b| - 1] == a + b[..n];
    }
  }

  /** The page area (mem_alloc_contiguous_pages) and the pool area (VioScsiPoolAlloc) are the same code
      with a different unit. */
  class Area {
    const va: nat
    const size: nat
    const unit: nat
    var offset: nat
    // the blocks handed out since the offset was last reset
    ghost var blocks: seq<Block>

    ghost predicate Valid()
      reads this
    {
      && PowerOfTwo(unit) && Multiple(va, unit) && Multiple(size, unit)
      && Multiple(offset, unit) && offset <= size
      && (forall i :: 0 <= i < |blocks| ==> Multiple(blocks[i].addr, unit) && Within(blocks[i], Block(va, offset)))
      && (forall i, j :: 0 <= i < j < |blocks| ==> Apart(blocks[i], blocks[j]))
    }

    constructor (va: nat, size: nat, unit: nat)
      requires PowerOfTwo(unit) && Multiple(va, unit) && Multiple(size, unit)
      ensures Valid() && this.va == va && this.size == size && this.unit == unit && offset == 0 && blocks == []
    {
      this.va, this.size, this.unit := va, size, unit;
      offset, blocks := 0, [];
      new;
      MultipleZero(unit);
    }

    /** HwInitialize starts over. */
    method Reset()
      requires Valid()
      modifies this
      ensures Valid() && offset == 0 && blocks == []
    {
      offset, blocks := 0, [];
      MultipleZero(unit);
    }

    /** The test is made with the unrounded size and the offset advanced by the rounded one; still the
        block, all of it, is aligned, inside the area and apart from every other. null is 0. */
    method Alloc(request: nat) returns (ok: bool, ptr: nat)
      requires Valid()
      modifies this
      ensures Valid()
      ensures ok <==> old(offset) + RoundUp(request, unit) <= size
      ensures if ok then
                && ptr == va + old(offset) && offset == old(offset) + RoundUp(request, unit)
                && blocks == old(blocks) + [Block(ptr, RoundUp(request, unit))]
              else offset == old(offset) && blocks == old(blocks)
    {
      UnitPositive(unit);
      hide Multiple, RoundUp, PowerOfTwo;
      ptr := va + offset;
      Fits(offset, size, request, unit);
      if offset + request <= size {
        var rounded := RoundUp(request, unit);
        ghost var block := Block(ptr, rounded);
        assert forall i :: 0 <= i < |blocks| ==> Apart(blocks[i], block);
        RoundUpLeast(request, unit);
        MultipleSum(va, offset, unit);
        MultipleSum(offset, rounded, unit);
        offset := offset + rounded;
        blocks := blocks + [block];
        return true, ptr;
      }
      return false, 0;
    }

    /** A sequence of requests whose rounded sizes add up to no more than the area all succeed. */
    method AllocAll(requests: seq<nat>) returns (ok: bool)
      requires Valid() && offset == 0
      modifies this
      ensures Valid()
      ensures ok <==> Rounded(requests, unit) <= size
      ensures ok ==> offset == Rounded(requests, unit) && |blocks| == old(|blocks|) + |requests|
      ensures ok ==> forall i :: 0 <= i < |requests| ==> blocks[old(|blocks|) + i].len >= requests[i]
    {
      for i := 0 to |requests|
        invariant Valid() && offset == Rounded(requests[..i], unit) && |blocks| == old(|blocks|) + i
        invariant forall j :: 0 <= j < i ==> blocks[old(|blocks|) + j].len >= requests[j]
      {
        RoundedGrows(requests, i + 1, unit);
        assert requests[..i + 1][..i] == requests[..i];
        RoundUpLeast(requests[i], unit);
        var ptr;
        ok, ptr := Alloc(requests[i]);
        if !ok {
          return;
        }
      }
      assert requests[..|requests|] == requests;
      ok := true;
    }
  }

  /** The unrounded test is as good as a rounded one. */
  lemma Fits(offset: nat, size: nat, request: nat, unit: nat)
    requires PowerOfTwo(unit) && Multiple(offset, unit) && Multiple(size, unit) && offset <= size
    ensures offset + request <= size <==> offset + RoundUp(request, unit) <= size
  {
    hide Multiple, RoundUp;
    RoundUpLeast(request, unit);
    RoundUpBase(offset, request, unit);
    RoundUpLeast(offset + request, unit);
  }
}
