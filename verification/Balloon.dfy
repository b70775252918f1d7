/**
 The balloon: a stack of chunks of pages that the guest has given up, moved towards the size that
 the host asks for one chunk at a time.
 */
module Balloon {
  import opened Ledger

  /** PAGE_SIZE / sizeof(PFN_NUMBER): the most pages that one chunk and one message hold. */
  const CHUNK_MAX: nat := 512

  const ULONG_MAX: nat := 0xFFFF_FFFF

  /** A chunk is the page frame numbers of one memory descriptor list. */
  type Chunk = seq<nat>

  function Total(chunks: seq<Chunk>): (n: nat) {
    if chunks == [] then 0 else |chunks[0]| + Total(chunks[1..])
  }

  function PagesOf(chunk: Chunk): (s: set<nat>) {
    set p | p in chunk
  }

  ghost function Pages(chunks: seq<Chunk>): (s: set<nat>) {
    if chunks == [] then {} else PagesOf(chunks[0]) + Pages(chunks[1..])
  }

  ghost predicate Distinct(chunk: Chunk) {
    forall i, j :: 0 <= i < j < |chunk| ==> chunk[i] != chunk[j]
  }

  /** No page is in the balloon twice, and no chunk is empty or longer than a message. */
  ghost predicate ChunksOk(chunks: seq<Chunk>) {
    chunks != [] ==>
      && 0 < |chunks[0]| <= CHUNK_MAX && Distinct(chunks[0])
      && PagesOf(chunks[0]) !! Pages(chunks[1..])
      && ChunksOk(chunks[1..])
  }

  lemma {:induction false} DistinctSize(chunk: Chunk)
    requires Distinct(chunk)
    ensures |PagesOf(chunk)| == |chunk|
  {
    if chunk != [] {
      var n := |chunk| - 1;
      DistinctSize(chunk[..n]);
      assert PagesOf(chunk) == PagesOf(chunk[..n]) + {chunk[n]};
    } else {
      assert PagesOf(chunk) == {};
    }
  }

  /** The total counts pages, not entries. */
  lemma {:induction false} TotalIsPages(chunks: seq<Chunk>)
    requires ChunksOk(chunks)
    ensures |Pages(chunks)| == Total(chunks)
  {
    if chunks != [] {
      TotalIsPages(chunks[1..]);
      DistinctSize(chunks[0]);
    }
  }

  lemma {:induction false} TotalPositive(chunks: seq<Chunk>)
    requires ChunksOk(chunks)
    ensures |chunks| <= Total(chunks) <= CHUNK_MAX * |chunks|
  {
    if chunks != [] {
      TotalPositive(chunks[1..]);
    }
  }

  /** Pages move from the rest of memory into a new chunk. */
  lemma Pushed(chunks: seq<Chunk>, pages: Chunk, free: set<nat>)
    requires ChunksOk(chunks) && free !! Pages(chunks)
    requires 0 < |pages| <= CHUNK_MAX && Distinct(pages) && PagesOf(pages) <= free
    ensures var chunks' := [pages] + chunks;
            && ChunksOk(chunks') && Total(chunks') == |pages| + Total(chunks)
            && Pages(chunks') == PagesOf(pages) + Pages(chunks) && Pages(chunks') != Pages(chunks)
            && free - PagesOf(pages) !! Pages(chunks')
            && free - PagesOf(pages) + Pages(chunks') == free + Pages(chunks)
  {
    assert ([pages] + chunks)[1..] == chunks;
    assert pages[0] in PagesOf(pages);
  }

  /** ... and back. */
  lemma Popped(chunks: seq<Chunk>, free: set<nat>)
    requires chunks != [] && ChunksOk(chunks) && free !! Pages(chunks)
    ensures var rest, pages := chunks[1..], PagesOf(chunks[0]);
            && ChunksOk(rest) && Total(chunks) == |chunks[0]| + Total(rest) && 0 < |chunks[0]| <= CHUNK_MAX
            && Pages(chunks) - pages == Pages(rest) && Pages(chunks) != Pages(rest)
            && free + pages !! Pages(rest)
            && free + pages + Pages(rest) == free + Pages(chunks)
  {
    assert chunks[0][0] in PagesOf(chunks[0]);
  }

  // ----- towards a fixed target, as long as memory lasts -----

  /** One turn of the worker on chunk sizes: a chunk of at most 512 more, or the newest one less. */
  function Turn(sizes: seq<nat>, target: nat): (r: seq<nat>) {
    var n := Sum(sizes);
    if n < target then [if target - n < CHUNK_MAX then target - n else CHUNK_MAX] + sizes
    else if n > target && sizes != [] then sizes[1..]
    else sizes
  }

  function Sum(sizes: seq<nat>): (n: nat) {
    if sizes == [] then 0 else sizes[0] + Sum(sizes[1..])
  }

  function Turns(sizes: seq<nat>, target: nat, n: nat): (r: seq<nat>)
    decreases n
  {
    if n == 0 then sizes else Turns(Turn(sizes, target), target, n - 1)
  }

  lemma {:induction false} TurnsNext(sizes: seq<nat>, target: nat, n: nat)
    ensures Turns(sizes, target, n + 1) == Turn(Turns(sizes, target, n), target)
    decreases n
  {
    if n > 0 {
      TurnsNext(Turn(sizes, target), target, n - 1);
    }
  }

  predicate SizesOk(sizes: seq<nat>) {
    forall i :: 0 <= i < |sizes| ==> 0 < sizes[i] <= CHUNK_MAX
  }

  /** How many turns are enough. */
  function Distance(sizes: seq<nat>, target: nat): (d: nat) {
    var n := Sum(sizes);
    if n < target then (target - n + CHUNK_MAX - 1) / CHUNK_MAX
    else if n > target then |sizes| + 1
    else 0
  }

  /** A turn up never overshoots, a turn down undershoots by fewer than 512 pages, and a turn at the
      target does nothing. */
  lemma TurnBounds(sizes: seq<nat>, target: nat)
    requires SizesOk(sizes)
    ensures var n, n' := Sum(sizes), Sum(Turn(sizes, target));
            && SizesOk(Turn(sizes, target))
            && (n < target ==> n < n' <= target)
            && (n > target ==> n' < n && n' + CHUNK_MAX > target)
            && (n == target ==> Turn(sizes, target) == sizes)
  {
  }

  /** Every turn away from the target comes closer to it. */
  lemma TurnCloser(sizes: seq<nat>, target: nat)
    requires SizesOk(sizes) && Sum(sizes) != target
    ensures Distance(Turn(sizes, target), target) < Distance(sizes, target)
    ensures Sum(sizes) < target ==> Distance(Turn(sizes, target), target) == Distance(sizes, target) - 1
  {
    TurnBounds(sizes, target);
    var r := Turn(sizes, target);
    if Sum(sizes) < target {
      assert r[1..] == sizes;
    }
  }

  /** Within Distance turns the balloon has the target's size, and keeps it. */
  lemma {:induction false} Converges(sizes: seq<nat>, target: nat, n: nat)
    requires SizesOk(sizes) && n >= Distance(sizes, target)
    ensures Sum(Turns(sizes, target, n)) == target
    decreases n
  {
    TurnBounds(sizes, target);
    if Sum(sizes) != target {
      TurnCloser(sizes, target);
    }
    if n > 0 {
      Converges(Turn(sizes, target), target, n - 1);
    }
  }

  // ----- the driver -----

  datatype Outcome = Done | NoMemory | NotFound | NotTold

  function SizesOf(chunks: seq<Chunk>): (r: seq<nat>) {
    seq(|chunks|, i requires 0 <= i < |chunks| => |chunks[i]|)
  }

  lemma {:induction false} SizesSum(chunks: seq<Chunk>)
    requires ChunksOk(chunks)
    ensures Sum(SizesOf(chunks)) == Total(chunks) && SizesOk(SizesOf(chunks))
  {
    if chunks != [] {
      SizesSum(chunks[1..]);
      assert SizesOf(chunks)[1..] == SizesOf(chunks[1..]);
      forall i | 0 <= i < |chunks|
        ensures 0 < |chunks[i]| <= CHUNK_MAX
      {
        if i > 0 {
          assert SizesOf(chunks[1..])[i - 1] == |chunks[i]|;
        }
      }
    }
  }

  class Device {
    var chunks: seq<Chunk>
    var numPages: nat
    var numPfns: nat
    var pfnsTable: seq<nat>
    // the guest's other pages, from which the system allocates
    var free: set<nat>
    // the pages that the host takes to be in the balloon
    ghost var host: set<nat>

    ghost predicate Valid()
      reads this
    {
      && ChunksOk(chunks) && numPages == Total(chunks) <= ULONG_MAX
      && free !! Pages(chunks)
      && |pfnsTable| == CHUNK_MAX && numPfns <= CHUNK_MAX
    }

    constructor (memory: set<nat>)
      ensures Valid() && chunks == [] && free == memory && host == {}
    {
      chunks, numPages, numPfns, pfnsTable := [], 0, 0, seq(CHUNK_MAX, _ => 0);
      free, host := memory, {};
    }

    /** BalloonFill. pages is what the allocator found, entry whether a list entry was to be had,
        told the outcome of BalloonTellHost. */
    method Fill(num: nat, lowMemory: bool, pages: Option<seq<nat>>, entry: bool, told: bool) returns (r: Outcome)
      requires Valid() && 0 < num <= ULONG_MAX - numPages
      requires pages.Some? ==> Distinct(pages.value) && PagesOf(pages.value) <= free
      modifies this
      ensures Valid() && free + Pages(chunks) == old(free + Pages(chunks))
      ensures var want := if num < CHUNK_MAX then num else CHUNK_MAX;
              if lowMemory || pages.None? || |pages.value| != want || !entry then
                r == NoMemory && chunks == old(chunks) && host == old(host) && numPages == old(numPages) && numPfns == 0
              else
                && chunks == [pages.value] + old(chunks) && numPages == old(numPages) + want
                && numPfns == want && pfnsTable[..want] == pages.value
                && r == (if told then Done else NotTold)
                && (old(host == Pages(chunks)) ==> (host == Pages(chunks) <==> told))
    {
      numPfns := 0;
      if lowMemory {
        return NoMemory;
      }
      var want := if num < CHUNK_MAX then num else CHUNK_MAX;
      if pages.None? {
        return NoMemory;
      }
      if |pages.value| != want {
        return NoMemory;
      }
      if !entry {
        return NoMemory;
      }
      Pushed(chunks, pages.value, free);
      hide ChunksOk, Pages, PagesOf, Total, Distinct;
      chunks := [pages.value] + chunks;
      free := free - PagesOf(pages.value);
      numPfns := want;
      numPages := numPages + numPfns;
      pfnsTable := pages.value + pfnsTable[numPfns..];
      assert pfnsTable[..numPfns] == pages.value;
      if told {
        host := host + PagesOf(pfnsTable[..numPfns]);
      }
      r := if told then Done else NotTold;
    }

    /** BalloonLeak: the newest chunk, whatever number was asked for. */
    method Leak(told: bool) returns (r: Outcome)
      requires Valid()
      modifies this
      ensures Valid() && free + Pages(chunks) == old(free + Pages(chunks))
      ensures if old(chunks) == [] then r == NotFound && chunks == [] && host == old(host) && numPages == old(numPages)
              else
                && chunks == old(chunks)[1..] && numPages == old(numPages) - |old(chunks)[0]|
                && numPfns == |old(chunks)[0]| && pfnsTable[..numPfns] == old(chunks)[0]
                && r == (if told then Done else NotTold)
                && (old(host == Pages(chunks)) ==> (host == Pages(chunks) <==> told))
    {
      if chunks == [] {
        return NotFound;
      }
      Popped(chunks, free);
      hide ChunksOk, Pages, PagesOf, Total, Distinct;
      var chunk := chunks[0];
      chunks := chunks[1..];
      numPfns := |chunk|;
      numPages := numPages - numPfns;
      pfnsTable := chunk + pfnsTable[numPfns..];
      assert pfnsTable[..numPfns] == chunk;
      free := free + PagesOf(chunk);
      if told {
        host := host - PagesOf(pfnsTable[..numPfns]);
      }
      r := if told then Done else NotTold;
    }

    /** One wake-up of BalloonRoutine; actual is what BalloonSetSize reports. Without failures of the
        allocator it is a Turn, whether or not the host could be told. */
    method Wake(target: nat, lowMemory: bool, pages: Option<seq<nat>>, entry: bool, told: bool) returns (actual: nat)
      requires Valid() && target <= ULONG_MAX
      requires pages.Some? ==> Distinct(pages.value) && PagesOf(pages.value) <= free
      modifies this
      ensures Valid() && free + Pages(chunks) == old(free + Pages(chunks)) && actual == numPages
      ensures Sum(SizesOf(chunks)) == numPages
      ensures var more := target - old(numPages);
              if more > 0 && (lowMemory || !entry || pages.None? || |pages.value| != (if more < CHUNK_MAX then more else CHUNK_MAX))
              then chunks == old(chunks)
              else SizesOf(chunks) == Turn(old(SizesOf(chunks)), target)
    {
      SizesSum(chunks);
      TotalPositive(chunks);
      var diff := target - numPages;
      if diff > 0 {
        var _ := Fill(diff, lowMemory, pages, entry, told);
      } else if diff < 0 {
        var _ := Leak(told);
      }
      SizesSum(chunks);
      actual := numPages;
    }

    /** The drain when the device goes to D3Final: it ends, with no page left in the balloon. */
    method Drain(told: bool) returns (actual: nat)
      requires Valid()
      modifies this
      ensures Valid() && chunks == [] && actual == numPages == 0
      ensures free == old(free + Pages(chunks))
    {
      while numPages != 0
        invariant Valid() && free + Pages(chunks) == old(free + Pages(chunks))
        decreases numPages
      {
        var _ := Leak(told);
      }
      TotalPositive(chunks);
      actual := numPages;
    }

    /** MmAllocatePagesForMdlEx when there is memory: any num of the free pages. */
    method Allocate(num: nat) returns (pages: seq<nat>)
      requires num <= |free|
      ensures |pages| == num && Distinct(pages) && PagesOf(pages) <= free
    {
      pages := [];
      var rest := free;
      while |pages| < num
        invariant |pages| <= num && |rest| == |free| - |pages| && rest <= free
        invariant Distinct(pages) && PagesOf(pages) <= free && PagesOf(pages) !! rest
      {
        var p :| p in rest;
        assert PagesOf(pages + [p]) == PagesOf(pages) + {p};
        pages, rest := pages + [p], rest - {p};
      }
    }

    /** One wake-up for which there is memory. */
    method WakeWithMemory(target: nat, told: bool) returns (actual: nat)
      requires Valid() && target <= ULONG_MAX && target <= numPages + |free|
      modifies this
      ensures Valid() && free + Pages(chunks) == old(free + Pages(chunks)) && actual == numPages
      ensures numPages + |free| == old(numPages + |free|)
      ensures SizesOf(chunks) == Turn(old(SizesOf(chunks)), target)
    {
      var more := target - numPages;
      var pages: seq<nat> := [];
      if more > 0 {
        pages := Allocate(if more < CHUNK_MAX then more else CHUNK_MAX);
      }
      assert more <= 0 ==> PagesOf(pages) == {};
      MemoryIs(chunks, free);
      actual := Wake(target, false, Some(pages), true, told);
      MemoryIs(chunks, free);
    }

    /** Wake-ups for a fixed target bring the device to it, in no more turns than Distance says, whether
        or not the host can be told. */
    method Settle(target: nat) returns (turns: nat)
      requires Valid() && target <= ULONG_MAX && target <= numPages + |free|
      modifies this
      ensures Valid() && numPages == target && turns <= Distance(old(SizesOf(chunks)), target)
      ensures SizesOf(chunks) == Turns(old(SizesOf(chunks)), target, turns)
      ensures free + Pages(chunks) == old(free + Pages(chunks))
    {
      turns := 0;
      SizesSum(chunks);
      while numPages != target
        invariant Valid() && free + Pages(chunks) == old(free + Pages(chunks))
        invariant target <= numPages + |free| && Sum(SizesOf(chunks)) == numPages && SizesOk(SizesOf(chunks))
        invariant turns + Distance(SizesOf(chunks), target) <= Distance(old(SizesOf(chunks)), target)
        invariant SizesOf(chunks) == Turns(old(SizesOf(chunks)), target, turns)
        decreases Distance(SizesOf(chunks), target)
      {
        TurnCloser(SizesOf(chunks), target);
        TurnsNext(old(SizesOf(chunks)), target, turns);
        var told: bool := *;
        var _ := WakeWithMemory(target, told);
        SizesSum(chunks);
        turns := turns + 1;
      }
    }
  }

  /** Memory is the balloon and the rest. */
  lemma MemoryIs(chunks: seq<Chunk>, free: set<nat>)
    requires ChunksOk(chunks) && free !! Pages(chunks)
    ensures |free + Pages(chunks)| == |free| + Total(chunks)
  {
    TotalIsPages(chunks);
  }
}
