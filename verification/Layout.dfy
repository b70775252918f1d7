/**
 How vioscsi sizes and splits its one block of memory, and how a split ring lies in its share.
 */
module Layout {
  import opened Bits
  import opened Positions
  import opened Memory

  /** The control and event queues come before the request queues. */
  const REQUEST_QUEUE_0: nat := 2
  /** As many queue descriptors as a device has room for itself. */
  const MAX_QUEUES_PER_DEVICE_DEFAULT: nat := 8

  /** What the driver asks for: ring and heap sizes per queue, and the sizes of its own structures. */
  datatype Needs = Needs(rings: seq<nat>, heaps: seq<nat>,
                         srbExtension: nat, events: nat, dpc: nat, descriptor: nat, dump: bool)

  /** The pool requests that HwInitialize makes, the first time, for num request queues. */
  function PoolRequests(n: Needs, num: nat): (r: seq<nat>)
    requires num + REQUEST_QUEUE_0 <= |n.heaps|
  {
    (if num + REQUEST_QUEUE_0 > MAX_QUEUES_PER_DEVICE_DEFAULT then [(num + REQUEST_QUEUE_0) * n.descriptor] else [])
    + n.heaps[..num + REQUEST_QUEUE_0]
    + (if n.dump then [] else [n.srbExtension, n.events, n.dpc * num])
  }

  function PageRequests(n: Needs, num: nat): (r: seq<nat>)
    requires num + REQUEST_QUEUE_0 <= |n.rings|
  {
    n.rings[..num + REQUEST_QUEUE_0]
  }

  /** The sizing loop of VioScsiFindAdapter, for max request queues: the totals are the rounded sizes
      of everything asked for later, or the device has a queue it does not describe. */
  method FindAdapter(n: Needs, max: nat) returns (ok: bool, pageTotal: nat, poolTotal: nat)
    requires max + REQUEST_QUEUE_0 <= |n.rings| == |n.heaps|
    ensures ok <==> 0 !in PageRequests(n, max)
    ensures ok ==> pageTotal == Rounded(PageRequests(n, max), PAGE_SIZE)
    ensures ok ==> poolTotal == Rounded(PoolRequests(n, max), CACHE_LINE_SIZE)
  {
    hide RoundUp, Rounded;
    var count := max + REQUEST_QUEUE_0;
    ok, pageTotal, poolTotal := SizeQueues(n, count);
    if !ok {
      return;
    }
    if !n.dump {
      poolTotal := poolTotal + RoundUp(n.srbExtension, CACHE_LINE_SIZE);
      poolTotal := poolTotal + RoundUp(n.events, CACHE_LINE_SIZE);
      poolTotal := poolTotal + RoundUp(n.dpc * max, CACHE_LINE_SIZE);
    }
    if count > MAX_QUEUES_PER_DEVICE_DEFAULT {
      poolTotal := poolTotal + RoundUp(count * n.descriptor, CACHE_LINE_SIZE);
    }
    PoolTotal(n, max);
  }

  method SizeQueues(n: Needs, count: nat) returns (ok: bool, pageTotal: nat, poolTotal: nat)
    requires count <= |n.rings| == |n.heaps|
    ensures ok <==> 0 !in n.rings[..count]
    ensures ok ==> pageTotal == Rounded(n.rings[..count], PAGE_SIZE) && poolTotal == Rounded(n.heaps[..count], CACHE_LINE_SIZE)
  {
    hide RoundUp;
    ok, pageTotal, poolTotal := true, 0, 0;
    for i := 0 to count
      invariant 0 !in n.rings[..i]
      invariant pageTotal == Rounded(n.rings[..i], PAGE_SIZE) && poolTotal == Rounded(n.heaps[..i], CACHE_LINE_SIZE)
    {
      if n.rings[i] == 0 {
        assert n.rings[..count][i] == 0;
        return false, 0, 0;
      }
      assert n.rings[..i + 1][..i] == n.rings[..i] && n.heaps[..i + 1][..i] == n.heaps[..i];
      pageTotal := pageTotal + RoundUp(n.rings[i], PAGE_SIZE);
      poolTotal := poolTotal + RoundUp(n.heaps[i], CACHE_LINE_SIZE);
    }
  }

  lemma RoundedOne(x: nat, unit: nat)
    requires unit > 0
    ensures Rounded([x], unit) == RoundUp(x, unit)
  {
  }

  lemma RoundedThree(x: nat, y: nat, z: nat, unit: nat)
    requires unit > 0
    ensures Rounded([x, y, z], unit) == RoundUp(x, unit) + RoundUp(y, unit) + RoundUp(z, unit)
  {
    hide RoundUp;
    RoundedOne(x, unit);
    assert [x, y][..1] == [x] && [x, y, z][..2] == [x, y];
    assert Rounded([x, y], unit) == RoundUp(x, unit) + RoundUp(y, unit);
  }

  lemma PoolTotal(n: Needs, num: nat)
    requires num + REQUEST_QUEUE_0 <= |n.heaps|
    ensures var count := num + REQUEST_QUEUE_0;
            Rounded(PoolRequests(n, num), CACHE_LINE_SIZE) ==
            (if count > MAX_QUEUES_PER_DEVICE_DEFAULT then RoundUp(count * n.descriptor, CACHE_LINE_SIZE) else 0)
            + Rounded(n.heaps[..count], CACHE_LINE_SIZE)
            + (if n.dump then 0 else RoundUp(n.srbExtension, CACHE_LINE_SIZE) + RoundUp(n.events, CACHE_LINE_SIZE)
                                     + RoundUp(n.dpc * num, CACHE_LINE_SIZE))
  {
    hide RoundUp;
    var count := num + REQUEST_QUEUE_0;
    var a := if count > MAX_QUEUES_PER_DEVICE_DEFAULT then [count * n.descriptor] else [];
    var c := if n.dump then [] else [n.srbExtension, n.events, n.dpc * num];
    RoundedAppend(a, n.heaps[..count], CACHE_LINE_SIZE);
    RoundedAppend(a + n.heaps[..count], c, CACHE_LINE_SIZE);
    RoundedOne(count * n.descriptor, CACHE_LINE_SIZE);
    RoundedThree(n.srbExtension, n.events, n.dpc * num, CACHE_LINE_SIZE);
  }

  /** What was set aside for max queues is enough for fewer. */
  lemma FewerQueues(n: Needs, num: nat, max: nat)
    requires num <= max && max + REQUEST_QUEUE_0 <= |n.rings| == |n.heaps|
    ensures Rounded(PoolRequests(n, num), CACHE_LINE_SIZE) <= Rounded(PoolRequests(n, max), CACHE_LINE_SIZE)
    ensures Rounded(PageRequests(n, num), PAGE_SIZE) <= Rounded(PageRequests(n, max), PAGE_SIZE)
  {
    hide RoundUp, Rounded, PowerOfTwo;
    Units();
    PoolTotal(n, num);
    PoolTotal(n, max);
    var few, all := num + REQUEST_QUEUE_0, max + REQUEST_QUEUE_0;
    RoundedGrows(n.heaps[..all], few, CACHE_LINE_SIZE);
    assert n.heaps[..all][..few] == n.heaps[..few];
    RoundedGrows(n.rings[..all], few, PAGE_SIZE);
    assert n.rings[..all][..few] == n.rings[..few];
    TimesMonotone(few, all, n.descriptor);
    TimesMonotone(num, max, n.dpc);
    RoundUpMonotone(few * n.descriptor, all * n.descriptor, CACHE_LINE_SIZE);
    RoundUpMonotone(n.dpc * num, n.dpc * max, CACHE_LINE_SIZE);
  }

  lemma TimesMonotone(a: nat, b: nat, x: nat)
    requires a <= b
    ensures a * x <= b * x && x * a <= x * b
  {
    assert b * x == a * x + (b - a) * x;
    assert (b - a) * x >= 0;
  }

  /** extensionSize. */
  function ExtensionSize(pageTotal: nat, poolTotal: nat): (r: nat) {
    PAGE_SIZE + pageTotal + poolTotal
  }

  /** The blocks of both areas lie in the extension, apart from each other. */
  ghost predicate Placed(a: seq<Block>, b: seq<Block>, extension: Block) {
    && (forall i :: 0 <= i < |a| ==> Within(a[i], extension))
    && (forall i :: 0 <= i < |b| ==> Within(b[i], extension))
    && (forall i, j :: 0 <= i < |a| && 0 <= j < |b| ==> Apart(a[i], b[j]))
  }

  lemma BothPlaced(pages: Area, pool: Area, base: nat)
    requires pages.Valid() && pool.Valid() && base <= pages.va && pool.va == pages.va + pages.size
    requires pool.va + pool.size <= base + ExtensionSize(pages.size, pool.size)
    ensures Placed(pages.blocks, pool.blocks, Block(base, ExtensionSize(pages.size, pool.size)))
  {
    hide Multiple, PowerOfTwo;
  }

  /** More queues than were sized for do not fit: with no empty ring, the pages suffice exactly for
      num <= max. */
  lemma PagesExact(n: Needs, num: nat, max: nat)
    requires max + REQUEST_QUEUE_0 <= |n.rings| == |n.heaps| && num + REQUEST_QUEUE_0 <= |n.rings| && 0 !in n.rings
    ensures Rounded(PageRequests(n, num), PAGE_SIZE) <= Rounded(PageRequests(n, max), PAGE_SIZE) <==> num <= max
  {
    if num <= max {
      FewerQueues(n, num, max);
    } else {
      MorePages(n.rings, max + REQUEST_QUEUE_0, num + REQUEST_QUEUE_0);
    }
  }

  lemma MorePages(rings: seq<nat>, few: nat, all: nat)
    requires few < all <= |rings| && 0 !in rings
    ensures Rounded(rings[..few], PAGE_SIZE) < Rounded(rings[..all], PAGE_SIZE)
  {
    hide RoundUp, PowerOfTwo;
    Units();
    var last := rings[all - 1];
    RoundUpLeast(last, PAGE_SIZE);
    assert last in rings;
    RoundedGrows(rings[..all - 1], few, PAGE_SIZE);
    assert rings[..all - 1][..few] == rings[..few] && rings[..all][..all - 1] == rings[..all - 1];
  }

  /** HwInitialize's choice when there are too few vectors for one per queue and three more. */
  function QueuesFor(queues: nat, vectors: nat): (num: nat) {
    if queues > 1 && queues + 3 > vectors then vectors else queues
  }

  /** It can ask for more queues than were sized for, by one or two: four queues of at most four, with six
      vectors, become six. */
  lemma QueuesExact(queues: nat, vectors: nat, max: nat)
    requires queues <= max
    ensures QueuesFor(queues, vectors) <= max <==> !(queues > 1 && max < vectors < queues + 3)
    ensures QueuesFor(queues, vectors) <= max + 2 && QueuesFor(4, 6) == 6
    ensures queues <= 1 || queues + 3 <= vectors ==> QueuesFor(queues, vectors) == queues
    ensures queues > 1 && vectors < queues + 3 ==> QueuesFor(queues, vectors) == vectors
  {
  }

  /** FindAdapter and HwInitialize together, for an extension at any address and any number of queues
      in the end. Whatever is allocated is aligned, apart from everything else and inside the extension;
      all of it succeeds exactly when the totals suffice, which they do for no more queues than were
      sized for, and for no others. */
  method Initialize(base: nat, n: Needs, max: nat, num: nat) returns (found: bool, ok: bool, pages: Area?, pool: Area?)
    requires max + REQUEST_QUEUE_0 <= |n.rings| == |n.heaps| && num + REQUEST_QUEUE_0 <= |n.rings|
    ensures found <==> 0 !in PageRequests(n, max)
    ensures ok ==> found
    ensures found && num <= max ==> ok
    ensures 0 !in n.rings ==> (ok <==> num <= max)
    ensures found ==>
      && pages != null && pool != null && pages.Valid() && pool.Valid()
      && pages.unit == PAGE_SIZE && pool.unit == CACHE_LINE_SIZE
      && Placed(pages.blocks, pool.blocks, Block(base, ExtensionSize(pages.size, pool.size)))
    ensures ok ==> Serves(pages.blocks, PageRequests(n, num)) && Serves(pool.blocks, PoolRequests(n, num))
    ensures ok ==>
      && |pages.blocks| == num + REQUEST_QUEUE_0
      && (forall i :: 0 <= i < num + REQUEST_QUEUE_0 ==> pages.blocks[i].len >= n.rings[i])
    ensures ok ==> PoolServed(pool.blocks, n, num)
  {
    var pageTotal, poolTotal;
    found, pageTotal, poolTotal := FindAdapter(n, max);
    ok, pages, pool := false, null, null;
    NoneEmpty(n, max);
    if found {
      var pageVa, poolVa := Areas(base, pageTotal, poolTotal, n, max);
      hide RoundUp, Rounded, Multiple, PowerOfTwo, PoolRequests, PageRequests, Placed, Serves;
      if num <= max {
        FewerQueues(n, num, max);
      }
      if 0 !in n.rings {
        PagesExact(n, num, max);
      }
      var pagesOk, poolOk;
      pagesOk, pages := Serve(pageVa, pageTotal, PAGE_SIZE, PageRequests(n, num));
      poolOk, pool := Serve(poolVa, poolTotal, CACHE_LINE_SIZE, PoolRequests(n, num));
      ok := pagesOk && poolOk;
      if ok {
        PagesAre(pages.blocks, n, num);
        PoolIs(pool.blocks, n, num);
      }
      BothPlaced(pages, pool, base);
    }
  }

  lemma NoneEmpty(n: Needs, max: nat)
    requires max + REQUEST_QUEUE_0 <= |n.rings|
    ensures 0 !in n.rings ==> 0 !in PageRequests(n, max)
  {
  }

  /** The pool has a block for the queue descriptors if there are more than eight queues, one for the heap
      of every queue and, but for a crash dump, one each for the driver's own three structures. */
  ghost predicate PoolServed(blocks: seq<Block>, n: Needs, num: nat)
    requires num + REQUEST_QUEUE_0 <= |n.heaps|
  {
    var count := num + REQUEST_QUEUE_0;
    var k := if count > 8 then 1 else 0;
    && |blocks| == k + count + (if n.dump then 0 else 3)
    && (count > 8 ==> blocks[0].len >= count * n.descriptor)
    && (forall i :: 0 <= i < count ==> blocks[k + i].len >= n.heaps[i])
    && (!n.dump ==>
          && blocks[k + count].len >= n.srbExtension && blocks[k + count + 1].len >= n.events
          && blocks[k + count + 2].len >= n.dpc * num)
  }

  lemma PagesAre(blocks: seq<Block>, n: Needs, num: nat)
    requires num + REQUEST_QUEUE_0 <= |n.rings| && Serves(blocks, PageRequests(n, num))
    ensures |blocks| == num + REQUEST_QUEUE_0 && forall i :: 0 <= i < num + REQUEST_QUEUE_0 ==> blocks[i].len >= n.rings[i]
  {
    assert forall i :: 0 <= i < num + REQUEST_QUEUE_0 ==> PageRequests(n, num)[i] == n.rings[i];
  }

  lemma PoolIs(blocks: seq<Block>, n: Needs, num: nat)
    requires num + REQUEST_QUEUE_0 <= |n.heaps| && Serves(blocks, PoolRequests(n, num))
    ensures PoolServed(blocks, n, num)
  {
    var count, requests := num + REQUEST_QUEUE_0, PoolRequests(n, num);
    var k := if count > 8 then 1 else 0;
    assert forall i :: 0 <= i < count ==> requests[k + i] == n.heaps[i];
    assert !n.dump ==> requests[k + count] == n.srbExtension && requests[k + count + 1] == n.events
                       && requests[k + count + 2] == n.dpc * num;
  }

  /** There is a block for every request. */
  ghost predicate Serves(blocks: seq<Block>, requests: seq<nat>) {
    |blocks| == |requests| && forall i :: 0 <= i < |blocks| ==> blocks[i].len >= requests[i]
  }

  /** A new area and a list of requests for it. */
  method Serve(va: nat, size: nat, unit: nat, requests: seq<nat>) returns (ok: bool, area: Area)
    requires PowerOfTwo(unit) && Multiple(va, unit) && Multiple(size, unit)
    ensures area.Valid() && area.va == va && area.size == size && area.unit == unit
    ensures ok <==> Rounded(requests, unit) <= size
    ensures ok ==> Serves(area.blocks, requests)
  {
    hide RoundUp, Rounded, Multiple, PowerOfTwo;
    area := new Area(va, size, unit);
    ok := area.AllocAll(requests);
  }

  method Areas(base: nat, pageTotal: nat, poolTotal: nat, ghost n: Needs, ghost max: nat) returns (pageVa: nat, poolVa: nat)
    requires max + REQUEST_QUEUE_0 <= |n.rings| == |n.heaps|
    requires pageTotal == Rounded(PageRequests(n, max), PAGE_SIZE)
    requires poolTotal == Rounded(PoolRequests(n, max), CACHE_LINE_SIZE)
    ensures base <= pageVa && poolVa == pageVa + pageTotal
    ensures poolVa + poolTotal <= base + ExtensionSize(pageTotal, poolTotal)
    ensures PowerOfTwo(PAGE_SIZE) && PowerOfTwo(CACHE_LINE_SIZE)
    ensures Multiple(pageVa, PAGE_SIZE) && Multiple(pageTotal, PAGE_SIZE)
    ensures Multiple(poolVa, CACHE_LINE_SIZE) && Multiple(poolTotal, CACHE_LINE_SIZE)
  {
    hide RoundUp, Rounded, PoolRequests, PageRequests;
    Units();
    RoundedMultiple(PageRequests(n, max), PAGE_SIZE);
    RoundedMultiple(PoolRequests(n, max), CACHE_LINE_SIZE);
    RoundUpLeast(base, PAGE_SIZE);
    pageVa := RoundUp(base, PAGE_SIZE);
    poolVa := pageVa + pageTotal;
  }

  // ----- the split ring -----

  /** vring_init and vring_size_split: sizes of a descriptor, an avail index, a used element. */
  const DESC: nat := 16
  const INDEX: nat := 2
  const USED: nat := 8

  function Avail(p: nat, num: nat): (r: nat) {
    p + num * DESC
  }

  /** &avail->ring[num] is used_event; the used ring starts at the next aligned address. */
  function UsedEvent(p: nat, num: nat): (r: nat) {
    Avail(p, num) + 2 * INDEX + num * INDEX
  }

  function Used(p: nat, num: nat, align: nat): (r: nat)
    requires align > 0
  {
    RoundUp(UsedEvent(p, num) + INDEX, align)
  }

  function AvailEvent(p: nat, num: nat, align: nat): (r: nat)
    requires align > 0
  {
    Used(p, num, align) + 2 * INDEX + num * USED
  }

  function RingSize(num: nat, align: nat): (r: nat)
    requires align > 0
  {
    RoundUp(DESC * num + INDEX * (3 + num), align) + INDEX * 3 + USED * num
  }

  /** The descriptor table, the avail ring with used_event and the used ring with avail_event follow
      each other without overlap, and the last byte is the last one of RingSize. */
  lemma SplitLayout(p: nat, num: nat, align: nat)
    requires PowerOfTwo(align) && Multiple(p, align)
    ensures var table, avail := Block(p, num * DESC), Block(Avail(p, num), 2 * INDEX + num * INDEX + INDEX);
            var used := Block(Used(p, num, align), 2 * INDEX + num * USED + INDEX);
            && table.addr + table.len == avail.addr
            && avail.addr + avail.len <= used.addr < avail.addr + avail.len + align && Multiple(used.addr, align)
            && UsedEvent(p, num) + INDEX == avail.addr + avail.len
            && AvailEvent(p, num, align) + INDEX == used.addr + used.len == p + RingSize(num, align)
  {
    hide RoundUp, Multiple;
    var x := DESC * num + INDEX * (3 + num);
    assert UsedEvent(p, num) + INDEX == p + x;
    RoundUpBase(p, x, align);
    RoundUpLeast(p + x, align);
  }
}
