/**
 The driver's private side of a split ring as a value, what ties it to the ring, and what
 the driver may rely on while the device runs.
 */
module SplitDriver {
  import opened Bits
  import opened DescPool
  import opened Ledger
  import opened Positions
  import opened SplitRing
  import opened SplitProofs

  /** The counters of virtqueue_split. */
  datatype Counters = Counters(masterIdx: nat, noInterrupt: bool, numAdded: nat, lastUsed: nat)

  ghost predicate CountersOk(d: Counters, r: Ring) {
    && d.masterIdx == U16(r.a) && d.lastUsed == U16(r.u)
    && r.lastKick <= r.a && d.numAdded == U32(r.a - r.lastKick)
    && (!r.eventIdx ==> r.noInterrupt == d.noInterrupt)
  }

  // ----- the descriptor table as a pool -----

  /** NEXT is set on every descriptor of a chain but the last. */
  ghost predicate Marked(desc: seq<Desc>, chain: seq<nat>) {
    Below(chain, |desc|) && forall i :: 0 <= i < |chain| ==> desc[chain[i]].next == (i != |chain| - 1)
  }

  /** The next fields carry the pool, its chains are the outstanding buffers and their heads
      hold the tokens. */
  ghost predicate Threaded(num: nat, desc: seq<Desc>, first: nat, unused: nat, tokens: seq<nat>, p: Pool, bufs: map<nat, Buffer>) {
    && PoolOk(num, p) && |desc| == num && |tokens| == num
    && first == p.head && unused == |p.free|
    && Linked(desc, p)
    && p.chains.Keys == bufs.Keys
    && (forall id :: id in p.chains ==> |p.chains[id]| == bufs[id].n && Marked(desc, p.chains[id]))
    && (forall k: nat :: k < num ==> tokens[k] == TokenAt(bufs, k))
    && (forall id :: id in bufs ==> bufs[id].token != 0)
  }

  ghost predicate Linked(desc: seq<Desc>, p: Pool) {
    |p.next| == |desc| && forall k :: 0 <= k < |desc| ==> desc[k].link == p.next[k]
  }

  ghost function TokenAt(bufs: map<nat, Buffer>, k: nat): nat {
    if k in bufs then bufs[k].token else 0
  }

  /** What add_buf starts from. */
  lemma ThreadedFacts(num: nat, desc: seq<Desc>, first: nat, unused: nat, tokens: seq<nat>, p: Pool, bufs: map<nat, Buffer>)
    requires Threaded(num, desc, first, unused, tokens, p, bufs)
    ensures Below(p.free, |p.next|) && Distinct(p.free) && Linked(desc, p) && |p.next| == num == |desc| == |tokens|
    ensures unused == |p.free| && first == FreeAt(p, 0) < num
    ensures unused > 0 ==> first !in bufs
  {
    if unused > 0 {
      FreeNotHead(num, p);
    }
  }

  lemma AddStart(num: nat, desc: seq<Desc>, first: nat, unused: nat, tokens: seq<nat>, p: Pool, r: Ring, d: Counters)
    requires Threaded(num, desc, first, unused, tokens, p, r.log.bufs) && CountersOk(d, r)
    ensures Below(p.free, num) && Linked(desc, p) && |p.next| == num == |desc| == |tokens| && PoolOk(num, p)
    ensures unused == |p.free| && first == FreeAt(p, 0) < num && d.masterIdx == U16(r.a)
    ensures unused > 0 ==> first == p.free[0] && first !in r.log.bufs
  {
    ThreadedFacts(num, desc, first, unused, tokens, p, r.log.bufs);
  }

  /** A free node belongs to no outstanding buffer. */
  lemma FreeIsFree(num: nat, p: Pool, r: Ring, i: nat)
    requires PoolOk(num, p) && p.chains == r.chains && i < |p.free|
    ensures DescFree(r, p.free[i])
  {
    assert p.free[i] in p.free;
  }

  /** Taking the first n free nodes, once the new chain's end is marked. */
  lemma TakeThreaded(num: nat, desc: seq<Desc>, first: nat, unused: nat, tokens: seq<nat>, p: Pool, bufs: map<nat, Buffer>,
                     desc': seq<Desc>, n: nat, b: Buffer)
    requires Threaded(num, desc, first, unused, tokens, p, bufs)
    requires 1 <= n <= |p.free| && b.n == n && b.token != 0 && first < num
    requires |desc'| == num && Linked(desc', p) && Below(p.free[..n], num) && Marked(desc', p.free[..n])
    requires Outside(desc, desc', p.free[..n])
    ensures Threaded(num, desc', FreeAt(p, n), unused - n, tokens[first := b.token], Take(p, n), bufs[first := b])
  {
    TakeKeepsPool(num, p, n);
    assert first == p.free[0];
    forall id | id in p.chains
      ensures Marked(desc', p.chains[id])
    {
      MarkedApart(num, p, id, n, desc, desc');
    }
    hide PoolOk, Marked, TokenAt;
    TakeChains(p, bufs, desc', n, b);
    TakeTokens(tokens, bufs, first, b);
  }

  lemma TakeChains(p: Pool, bufs: map<nat, Buffer>, desc: seq<Desc>, n: nat, b: Buffer)
    requires p.chains.Keys == bufs.Keys && 1 <= n <= |p.free| && b.n == n && Below(p.free, |p.next|)
    requires forall id :: id in p.chains ==> |p.chains[id]| == bufs[id].n && Marked(desc, p.chains[id])
    requires Marked(desc, p.free[..n])
    ensures Take(p, n).chains.Keys == bufs[p.free[0] := b].Keys
    ensures forall id :: id in Take(p, n).chains ==>
              |Take(p, n).chains[id]| == bufs[p.free[0] := b][id].n && Marked(desc, Take(p, n).chains[id])
  {
  }

  lemma TakeTokens(tokens: seq<nat>, bufs: map<nat, Buffer>, id: nat, b: Buffer)
    requires id < |tokens| && forall k: nat :: k < |tokens| ==> tokens[k] == TokenAt(bufs, k)
    ensures forall k: nat {:trigger TokenAt(bufs[id := b], k)} :: k < |tokens| ==>
              tokens[id := b.token][k] == TokenAt(bufs[id := b], k)
  {
  }

  lemma MarkedApart(num: nat, p: Pool, id: nat, n: nat, desc: seq<Desc>, desc': seq<Desc>)
    requires PoolOk(num, p) && id in p.chains && n <= |p.free| && |desc| == num == |desc'|
    requires Marked(desc, p.chains[id])
    requires Outside(desc, desc', p.free[..n])
    ensures Marked(desc', p.chains[id])
  {
    var c := p.chains[id];
    assert forall i :: 0 <= i < |c| ==> c[i] in c;
    assert forall x :: x in p.free[..n] ==> x in p.free;
    assert forall i :: 0 <= i < |c| ==> desc'[c[i]] == desc[c[i]];
  }

  /** Giving back chain id, once its last node is linked to the old free list. */
  lemma PutThreaded(num: nat, desc: seq<Desc>, first: nat, unused: nat, tokens: seq<nat>, p: Pool, bufs: map<nat, Buffer>,
                    id: nat, last: nat, d: Desc)
    requires Threaded(num, desc, first, unused, tokens, p, bufs) && id in bufs && id < num && last < num
    requires |p.chains[id]| >= 1 && last == p.chains[id][|p.chains[id]| - 1] && d.link == first
    ensures |p.chains[id]| >= 1 && Below(p.chains[id], |p.next|)
    ensures Threaded(num, desc[last := d], id, unused + bufs[id].n, tokens[id := 0], Put(p, id), bufs - {id})
  {
    PutKeepsPool(num, p, id);
    var q := Put(p, id);
    var bufs' := bufs - {id};
    var c := p.chains[id];
    assert ChainOk(p.next, id, c) && last in c;
    forall x | x in q.chains
      ensures |q.chains[x]| == bufs'[x].n && Marked(desc[last := d], q.chains[x])
    {
      var c' := p.chains[x];
      assert Marked(desc, c');
      assert forall i :: 0 <= i < |c'| ==> c'[i] in c';
    }
  }

  lemma ChainFacts(num: nat, desc: seq<Desc>, first: nat, unused: nat, tokens: seq<nat>, p: Pool, bufs: map<nat, Buffer>, id: nat)
    requires Threaded(num, desc, first, unused, tokens, p, bufs) && id in bufs
    ensures id in p.chains && |p.chains[id]| == bufs[id].n >= 1 && p.chains[id][0] == id < num
    ensures tokens[id] == bufs[id].token != 0
    ensures Below(p.chains[id], num) && Marked(desc, p.chains[id])
    ensures forall i :: 0 <= i < |p.chains[id]| - 1 ==> desc[p.chains[id][i]].link == p.chains[id][i + 1]
    ensures forall x, y :: x in p.chains && y in p.chains[x] && y in p.chains[id] ==> x == id
  {
  }

  lemma InitialThreaded(num: nat, desc: seq<Desc>, tokens: seq<nat>)
    requires num > 0 && |desc| == num && |tokens| == num
    requires forall k :: 0 <= k < num ==> tokens[k] == 0 && desc[k].link == if k == num - 1 then 0 else k + 1
    ensures Threaded(num, desc, 0, num, tokens, Fresh(num), map[])
  {
    FreshOk(num);
  }

  /** With no buffer outstanding every descriptor is free. */
  lemma AllFree(num: nat, desc: seq<Desc>, first: nat, unused: nat, tokens: seq<nat>, p: Pool)
    requires Threaded(num, desc, first, unused, tokens, p, map[])
    ensures unused == num
  {
    assert forall x: nat :: x < num ==> x in p.free;
    ListOfAll(num, p.free);
  }

  // ----- writing a buffer that is not published yet -----

  /** The first i free nodes hold the first i elements of b, NEXT set on all of them. */
  ghost predicate Filling(desc: seq<Desc>, p: Pool, b: Buffer, i: nat)
    requires Below(p.free, |desc|)
  {
    && i <= |p.free| && i <= |b.sg|
    && forall j :: 0 <= j < i ==>
         && desc[p.free[j]].next && !desc[p.free[j]].indirect
         && SegmentOf(desc[p.free[j]]) == Segment(b.sg[j].addr, b.sg[j].len, j >= b.out)
  }

  lemma PoolFacts(num: nat, p: Pool)
    requires PoolOk(num, p)
    ensures ListsOk(num, p) && |p.next| == num && Below(p.free, num) && Distinct(p.free)
  {
  }

  /** The node after the i-th free one, as the descriptors' links give it. */
  lemma FreeLink(desc: seq<Desc>, p: Pool, i: nat)
    requires Below(p.free, |p.next|) && Linked(desc, p) && i < |p.free| && ListOk(p.next, p.free)
    ensures FreeAt(p, i) == p.free[i] < |desc| && desc[p.free[i]].link == FreeAt(p, i + 1)
  {
  }

  /** Only descriptors of nodes changed. */
  ghost predicate Outside(desc: seq<Desc>, desc': seq<Desc>, nodes: seq<nat>) {
    |desc'| == |desc| && forall k :: 0 <= k < |desc| && k !in nodes ==> desc'[k] == desc[k]
  }

  lemma StoredOutside(desc0: seq<Desc>, desc: seq<Desc>, desc': seq<Desc>, p: Pool, n: nat, i: nat)
    requires i < n <= |p.free| && Below(p.free, |desc|) && Outside(desc0, desc, p.free[..n]) && Linked(desc, p)
    requires |desc'| == |desc| && desc' == desc[p.free[i] := desc'[p.free[i]]] && desc'[p.free[i]].link == desc[p.free[i]].link
    ensures Outside(desc0, desc', p.free[..n]) && Linked(desc', p)
  {
  }

  lemma ChainStart(num: nat, desc: seq<Desc>, p: Pool, b: Buffer, r: Ring)
    requires PoolOk(num, p) && |desc| == num && Below(p.free, num) && 1 <= b.n <= |p.free|
    ensures Filling(desc, p, b, 0) && Outside(desc, desc, p.free[..b.n]) && Steady(r, r)
    ensures Below(p.free, |p.next|) && FreeAt(p, 0) == p.free[0]
  {
  }

  lemma FillingGrows(desc: seq<Desc>, desc': seq<Desc>, p: Pool, b: Buffer, i: nat)
    requires Below(p.free, |desc|) && |desc'| == |desc| && Distinct(p.free) && Filling(desc, p, b, i)
    requires i < |p.free| && i < |b.sg|
    requires desc' == desc[p.free[i] := Desc(b.sg[i].addr, b.sg[i].len, true, i >= b.out, false, desc[p.free[i]].link)]
    ensures Filling(desc', p, b, i + 1)
  {
  }

  /** A chain filled to its end, and NEXT cleared there, encodes the buffer. */
  lemma FilledEncodes(num: nat, desc: seq<Desc>, p: Pool, b: Buffer)
    requires ListsOk(num, p) && |desc| == num && Linked(desc, p) && BufferOk(b) && b.table.None?
    requires Filling(desc, p, b, |b.sg|)
    ensures var last := p.free[b.n - 1];
            var desc' := desc[last := desc[last].(next := false)];
            && Encoded(desc', p.free[..b.n], p.free[0], b) && Marked(desc', p.free[..b.n])
  {
    var last := p.free[b.n - 1];
    var desc' := desc[last := desc[last].(next := false)];
    var chain := p.free[..b.n];
    forall i | 0 <= i < |chain|
      ensures Holds(desc'[chain[i]], b.sg, b.out, i) && (desc'[chain[i]].next ==> desc'[chain[i]].link == NextOf(chain, i))
    {
      assert chain[i] == p.free[i];
      if i + 1 < |chain| {
        assert p.next[p.free[i]] == p.free[i + 1];
        assert NextOf(chain, i) == p.free[i + 1];
      }
    }
  }

  /** With a free node left there is room for one more position. */
  lemma RoomForOne(r: Ring, id: nat)
    requires RingOk(r) && id < r.num && id !in r.log.bufs
    ensures r.a < r.u + r.num
  {
    Outstanding(r);
    IdsBelow(r);
    hide RingOk;
    OneMore(r.num, r.log.bufs.Keys, id);
  }

  lemma IdsBelow(r: Ring)
    requires RingOk(r)
    ensures forall id :: id in r.log.bufs.Keys ==> id < r.num
  {
  }

  // ----- what the device leaves alone -----

  /** What neither the device nor the driver's stores to unpublished memory change. */
  ghost predicate Steady(r: Ring, r': Ring) {
    && r'.num == r.num && r'.eventIdx == r.eventIdx && r'.availIdx == r.availIdx
    && r'.u == r.u && r'.a == r.a && r'.chains == r.chains
    && r'.log.bufs == r.log.bufs && r'.log.added == r.log.added && r'.log.returned == r.log.returned
    && r'.lastKick == r.lastKick && (r.kicksExact ==> r'.kicksExact) && (r'.kicked ==> r.kicked)
    && r.v <= r'.v && r.c <= r'.c && r.log.used <= r'.log.used && r.log.done <= r'.log.done
  }

  /** The driver's wish for an interrupt stands. */
  ghost predicate Asked(r: Ring, r': Ring) {
    r'.noInterrupt == r.noInterrupt && r'.armed == r.armed
  }

  /** What the driver may rely on while the device runs. */
  ghost predicate Rely(r: Ring, r': Ring) {
    && Steady(r, r') && r'.desc == r.desc && r'.tables == r.tables && r'.availRing == r.availRing
    && r'.usedEvent == r.usedEvent && r'.noInterrupt == r.noInterrupt && r'.armed == r.armed
  }

  lemma ConsumeRely(r: Ring)
    requires Shape(r) && r.log.avail != []
    ensures Rely(r, DoConsume(r))
  {
    hide Shape, Slot;
  }

  lemma CompleteRely(r: Ring, k: nat, len: nat)
    requires Shape(r) && k < |r.log.inflight| && r.log.inflight[k] in r.log.bufs
    ensures Rely(r, DoComplete(r, k, len))
  {
    hide Shape, Slot, U16;
  }

  lemma DeviceStepRely(r: Ring, act: Act)
    requires RingOk(r) && Shape(r) && DeviceAct(act) && Can(r, act)
    ensures RingOk(Do(r, act)) && Rely(r, Do(r, act))
  {
    hide RingOk, Can, Shape, Slot, U16, DoConsume, DoComplete;
    StepKeeps(r, act);
    if act.Consume? && r.log.avail != [] {
      ConsumeRely(r);
    } else if act.Complete? {
      assert act.k < |r.log.inflight| by { InHand(r, act); }
      if r.log.inflight[act.k] in r.log.bufs {
        CompleteRely(r, act.k, act.len);
      }
    }
  }

  lemma InHand(r: Ring, act: Act)
    requires Shape(r) && act.Complete? && Can(r, act)
    ensures act.k < |r.log.inflight|
  {
  }

  /** The only used-ring entry a device step stores is the next one. */
  lemma DeviceStores(r: Ring, act: Act)
    requires Shape(r) && DeviceAct(act) && Can(r, act)
    ensures |Do(r, act).usedRing| == r.num
    ensures !act.Complete? ==> Do(r, act).usedRing == r.usedRing
    ensures act.Complete? ==>
              Do(r, act).usedRing == r.usedRing[Slot(r.v, r.num) := Do(r, act).usedRing[Slot(r.v, r.num)]]
  {
    if act.Complete? {
      CompleteStores(r, act);
    } else {
      hide Can, Slot, U16, PowerOfTwo;
    }
  }

  lemma CompleteStores(r: Ring, act: Act)
    requires Shape(r) && act.Complete? && Can(r, act)
    ensures |Do(r, act).usedRing| == r.num
    ensures Do(r, act).usedRing == r.usedRing[Slot(r.v, r.num) := Do(r, act).usedRing[Slot(r.v, r.num)]]
  {
    hide Slot, U16, PowerOfTwo;
  }

  lemma RelyTrans(r: Ring, s: Ring, t: Ring)
    requires Rely(r, s) && Rely(s, t)
    ensures Rely(r, t)
  {
  }

  lemma SteadyRefl(r: Ring)
    ensures Steady(r, r) && Rely(r, r)
  {
  }

  lemma SteadyTrans(r: Ring, s: Ring, t: Ring)
    requires Steady(r, s) && Steady(s, t)
    ensures Steady(r, t)
  {
  }

  lemma SteadyFields(r: Ring, r': Ring)
    requires Steady(r, r')
    ensures r'.num == r.num && r'.eventIdx == r.eventIdx && r'.availIdx == r.availIdx && r'.u == r.u && r'.a == r.a
    ensures r'.chains == r.chains && r'.log.bufs == r.log.bufs && r'.log.added == r.log.added
    ensures r'.log.returned == r.log.returned && r.v <= r'.v && r.log.done <= r'.log.done
    ensures r'.lastKick == r.lastKick && (r.kicksExact ==> r'.kicksExact) && (r'.kicked ==> r.kicked)
  {
  }

  /** A free descriptor stays free while only unpublished memory is written. */
  lemma SteadyFree(r: Ring, s: Ring, t: Ring, k: nat)
    requires (r == s || Steady(r, s)) && Steady(s, t)
    ensures Steady(r, t)
    ensures DescFree(s, k) ==> DescFree(t, k)
  {
  }

  lemma ShapeNum(r: Ring)
    requires Shape(r)
    ensures QueueSize(r.num) && PowerOfTwo(r.num) && |r.availRing| == r.num && |r.usedRing| == r.num
    ensures r.u <= r.v <= r.c <= r.a <= r.u + r.num && r.availIdx == U16(r.a) && r.usedIdx == U16(r.v)
  {
  }

  lemma RingShape(r: Ring)
    requires RingOk(r)
    ensures Shape(r)
  {
  }

  /** The counters after steps that do not touch what they count. */
  lemma SameCounters(d: Counters, r: Ring, r': Ring)
    requires CountersOk(d, r) && Steady(r, r') && r'.noInterrupt == r.noInterrupt
    ensures CountersOk(d, r')
  {
  }

  // ----- driver steps, one by one -----

  lemma PokeIs(r: Ring, k: nat, d: Desc)
    requires RingOk(r) && k < r.num && DescFree(r, k)
    ensures Shape(r) && Can(r, Poke(k, d)) && RingOk(Do(r, Poke(k, d))) && Do(r, Poke(k, d)) == r.(desc := r.desc[k := d])
  {
    RingShape(r);
    hide RingOk, DescFree;
    StepKeeps(r, Poke(k, d));
  }

  lemma PokeTableIs(r: Ring, t: nat, page: seq<Desc>)
    requires RingOk(r) && TableFree(r, t)
    ensures Shape(r) && Can(r, PokeTable(t, page)) && RingOk(Do(r, PokeTable(t, page)))
    ensures Do(r, PokeTable(t, page)) == r.(tables := r.tables[t := page])
  {
    RingShape(r);
    hide RingOk, TableFree;
    StepKeeps(r, PokeTable(t, page));
  }

  lemma PokeAvailIs(r: Ring, id: nat)
    requires RingOk(r) && r.a < r.u + r.num
    ensures Shape(r) && Can(r, PokeAvail(id)) && RingOk(Do(r, PokeAvail(id)))
    ensures Do(r, PokeAvail(id)) == r.(availRing := r.availRing[Slot(r.a, r.num) := id])
  {
    RingShape(r);
    hide RingOk;
    StepKeeps(r, PokeAvail(id));
  }

  lemma PublishIs(r: Ring, id: nat, b: Buffer, chain: seq<nat>)
    requires RingOk(r) && Shape(r) && Can(r, Publish(id, b, chain))
    ensures RingOk(Do(r, Publish(id, b, chain))) && Do(r, Publish(id, b, chain)) == DoPublish(r, id, b, chain)
  {
    hide RingOk, Can;
    StepKeeps(r, Publish(id, b, chain));
  }

  lemma ReclaimIs(r: Ring)
    requires RingOk(r) && r.u < r.v
    ensures Shape(r) && Can(r, Reclaim) && r.log.used != [] && RingOk(Do(r, Reclaim)) && Do(r, Reclaim) == DoReclaim(r)
  {
    RingShape(r);
    DriverSeesUsed(r);
    hide RingOk;
    StepKeeps(r, Reclaim);
  }

  lemma SetEventIs(r: Ring, e: nat, n: bool)
    requires RingOk(r)
    ensures Shape(r) && Can(r, SetEvent(e, n)) && RingOk(Do(r, SetEvent(e, n)))
    ensures Do(r, SetEvent(e, n)) == r.(usedEvent := e, noInterrupt := n, armed := None)
  {
    RingShape(r);
    hide RingOk;
    StepKeeps(r, SetEvent(e, n));
  }

  lemma ArmIs(r: Ring, e: nat)
    requires RingOk(r) && r.u <= e && AsksInterrupt(r, e) && r.v <= e
    ensures Shape(r) && Can(r, Arm(e)) && RingOk(Do(r, Arm(e))) && Do(r, Arm(e)) == r.(armed := Some(e), irq := false)
  {
    RingShape(r);
    hide RingOk;
    StepKeeps(r, Arm(e));
  }

  lemma KickSays(r: Ring)
    requires RingOk(r)
    ensures r.lastKick <= r.a
    ensures r.eventIdx ==> (DriverKicks(r) <==> Crossed(r.a - U32(r.a - r.lastKick), r.a, r.availEvent))
    ensures !r.eventIdx ==> (DriverKicks(r) <==> !r.noNotify)
  {
    KickMeans(r);
  }

  lemma KickIs(r: Ring)
    requires RingOk(r)
    ensures Shape(r) && Can(r, Kick) && RingOk(Do(r, Kick))
    ensures Do(r, Kick) == r.(lastKick := r.a, kicked := r.kicked || DriverKicks(r), kicksExact := r.kicksExact && KickExact(r))
    ensures Do(r, Kick).asleep && Do(r, Kick).kicksExact && r.c < r.a ==> Do(r, Kick).kicked
  {
    RingShape(r);
    StepKeeps(r, Kick);
  }

  // ----- adding and returning -----

  /** From r to r' buffer b was added under id, and the device may have run. */
  ghost predicate Extended(r: Ring, r': Ring, id: nat, b: Buffer, chain: seq<nat>) {
    && r'.num == r.num && r'.eventIdx == r.eventIdx && r'.u == r.u && r'.a == r.a + 1
    && r'.chains == r.chains[id := chain] && id !in r.log.bufs && r'.log.bufs == r.log.bufs[id := b]
    && r'.log.added == r.log.added + [b.token] && r'.log.returned == r.log.returned
    && r'.lastKick == r.lastKick && (r.kicksExact ==> r'.kicksExact) && (r'.kicked ==> r.kicked) && Asked(r, r')
    && r.v <= r'.v && r.log.done <= r'.log.done
  }

  lemma PublishExtended(r0: Ring, r: Ring, id: nat, b: Buffer, chain: seq<nat>, r': Ring)
    requires Steady(r0, r) && Asked(r0, r) && id !in r.log.bufs && Rely(DoPublish(r, id, b, chain), r')
    ensures Extended(r0, r', id, b, chain)
  {
  }

  /** A chain of free nodes that encodes buffer b can be published. */
  lemma CanPublish(num: nat, p: Pool, r: Ring, id: nat, b: Buffer, chain: seq<nat>)
    requires Shape(r) && PoolOk(num, p) && p.chains == r.chains && p.free != [] && chain <= p.free
    requires id !in r.log.bufs && id < r.num && BufferOk(b) && b.serial == |r.log.added| && b.pos == r.a
    requires r.a < r.u + r.num && Encoded(r.desc, chain, id, b) && r.availRing[Slot(r.a, r.num)] == id
    requires b.table.Some? ==>
               TableFree(r, b.table.value) && b.table.value in r.tables && TableHolds(r.tables[b.table.value], b.sg, b.out)
    ensures Can(r, Publish(id, b, chain))
  {
    forall x | x in chain
      ensures DescFree(r, x)
    {
      assert x in p.free;
    }
  }

  /** After the store to the avail ring, what publishing needs is still there. */
  lemma PokedSteady(r: Ring, s: Ring, slot: nat, id: nat, r': Ring, b: Buffer)
    requires Steady(r, s) && slot < |s.availRing| && Rely(s.(availRing := s.availRing[slot := id]), r')
    ensures Steady(r, r') && r'.desc == s.desc && r'.tables == s.tables
    ensures |r'.availRing| == |s.availRing| && r'.availRing[slot] == id
    ensures Asked(s, r') && r'.a == s.a && r'.u == s.u && r'.chains == s.chains
    ensures r'.log.bufs == s.log.bufs && r'.log.added == s.log.added && r'.num == s.num
    ensures b.table.Some? && TableFree(s, b.table.value) ==> TableFree(r', b.table.value)
  {
  }

  lemma TableFreeSteady(r: Ring, r': Ring, t: nat)
    requires Steady(r, r')
    ensures TableFree(r, t) <==> TableFree(r', t)
  {
  }

  // ----- indirect tables -----

  /** From r to r' the driver stored into tables that no outstanding buffer uses. */
  ghost predicate TableWrote(r: Ring, r': Ring) {
    && Steady(r, r') && r'.desc == r.desc && r'.availRing == r.availRing
    && Asked(r, r') && r'.usedEvent == r.usedEvent
  }

  lemma TableWroteRefl(r: Ring)
    ensures TableWrote(r, r)
  {
  }

  lemma TableWroteFields(r: Ring, r': Ring, t: nat)
    requires TableWrote(r, r')
    ensures Steady(r, r') && r'.desc == r.desc && Asked(r, r')
    ensures TableFree(r, t) <==> TableFree(r', t)
  {
  }

  lemma TableFreeNow(r: Ring, r': Ring, t: nat)
    requires TableWrote(r, r') && TableFree(r, t)
    ensures TableFree(r', t)
  {
  }

  lemma RelyTables(r: Ring, r': Ring)
    requires Rely(r, r')
    ensures r'.tables == r.tables
  {
  }

  lemma TableStored(r: Ring, s: Ring, r': Ring, t: nat, page: seq<Desc>)
    requires TableWrote(r, s) && Rely(s.(tables := s.tables[t := page]), r') && TableFree(r, t)
    ensures TableWrote(r, r') && TableFree(r', t)
  {
  }

  lemma TableFilled(t: seq<Desc>, sg: seq<Sg>, out: nat)
    requires 1 <= |sg| <= |t| && |sg| <= 0x1_0000
    requires forall k :: 0 <= k < |sg| ==>
               t[k] == Desc(sg[k].addr, sg[k].len, k != |sg| - 1, k >= out, false, U16(U16(k) + 1))
    ensures TableHolds(t, sg, out)
  {
    forall k | 0 <= k < |sg|
      ensures Holds(t[k], sg, out, k) && (t[k].next ==> t[k].link == k + 1)
    {
      U16Next(k);
    }
  }

  lemma TokenNotZero(b: Buffer)
    requires BufferOk(b)
    ensures b.token != 0
  {
  }

  lemma FreeNext(num: nat, desc: seq<Desc>, first: nat, unused: nat, tokens: seq<nat>, p: Pool, bufs: map<nat, Buffer>)
    requires Threaded(num, desc, first, unused, tokens, p, bufs) && unused > 0
    ensures first < |desc| && Below(p.free, |p.next|) && desc[first].link == FreeAt(p, 1)
  {
  }

  /** One indirect descriptor on the first free node encodes the buffer. */
  lemma IndirectEncodes(desc: seq<Desc>, desc': seq<Desc>, p: Pool, b: Buffer)
    requires p.free != [] && Below(p.free, |desc|) && Linked(desc, p) && BufferOk(b) && b.table.Some?
    requires desc' == desc[p.free[0] := Desc(b.table.value, 16 * |b.sg|, false, false, true, desc[p.free[0]].link)]
    ensures Encoded(desc', p.free[..1], p.free[0], b) && Marked(desc', p.free[..1]) && Linked(desc', p)
    ensures Outside(desc, desc', p.free[..1])
  {
  }

  lemma ExtendedFields(r: Ring, r': Ring, id: nat, b: Buffer, chain: seq<nat>)
    requires Extended(r, r', id, b, chain)
    ensures r'.chains == r.chains[id := chain] && r'.log.bufs == r.log.bufs[id := b] && r'.num == r.num
  {
  }

  lemma ExtendedCounters(d: Counters, r: Ring, r': Ring, id: nat, b: Buffer, chain: seq<nat>)
    requires CountersOk(d, r) && Extended(r, r', id, b, chain)
    ensures CountersOk(d.(masterIdx := U16(d.masterIdx + 1), numAdded := U32(d.numAdded + 1)), r')
  {
    U16Next(r.a);
  }

  lemma U16Next(p: nat)
    ensures U16(U16(p) + 1) == U16(p + 1)
  {
  }

  /** From r to r' the oldest completion was returned as (token, len). */
  ghost predicate Returned1(r: Ring, r': Ring, token: nat, len: nat) {
    && r.log.returned < |r.log.done| && r.log.done[r.log.returned].serial < |r.log.added|
    && token == r.log.added[r.log.done[r.log.returned].serial] && token != 0 && len == r.log.done[r.log.returned].len
    && r'.num == r.num && r'.log.added == r.log.added && r'.log.returned == r.log.returned + 1
    && r.log.done <= r'.log.done && r'.a == r.a && r'.u == r.u + 1
    && r'.lastKick == r.lastKick && (r.kicksExact ==> r'.kicksExact) && (r'.kicked ==> r.kicked)
    && TookOut(r.log.bufs, r'.log.bufs, token)
  }

  lemma RelyProgress(r: Ring, r': Ring)
    requires Rely(r, r')
    ensures Steady(r, r') && r'.desc == r.desc && r'.tables == r.tables && r'.availRing == r.availRing
    ensures r'.num == r.num && r'.chains == r.chains && r'.log.bufs == r.log.bufs && r'.u == r.u && r'.a == r.a
    ensures r'.usedEvent == r.usedEvent && r'.noInterrupt == r.noInterrupt && r'.armed == r.armed && r.v <= r'.v
    ensures r'.log.returned == r.log.returned && r.log.done <= r'.log.done && r'.log.added == r.log.added
  {
  }

  /** The poll of get_buf and enable_cb is exact. */
  lemma PollExact(d: Counters, r: Ring)
    requires RingOk(r) && CountersOk(d, r)
    ensures d.lastUsed == U16(r.u) && (d.lastUsed != r.usedIdx <==> r.u < r.v)
    ensures r.u < r.v <==> r.log.returned < |r.log.done|
    ensures r.u <= r.v <= r.a <= r.u + r.num <= r.u + 0x8000 && r.usedIdx == U16(r.v)
  {
    DriverSeesUsed(r);
  }

  /** What get_buf finds at the next used entry. */
  lemma UsedHere(d: Counters, r: Ring)
    requires RingOk(r) && CountersOk(d, r) && r.u < r.v
    ensures r.num > 0 && And(d.lastUsed, r.num - 1) == Slot(r.u, r.num) < |r.usedRing| && |r.usedRing| == r.num
    ensures r.log.used != [] && r.log.used[0].id in r.log.bufs && r.log.used[0].id < r.num
    ensures r.usedRing[Slot(r.u, r.num)] == Elem(r.log.used[0].id, r.log.used[0].len)
  {
    IndexIsSlot(r.u, r.num);
    DriverSeesUsed(r);
    OldestDone(r.log, r.num);
  }

  /** The last node of a reclaimed chain belongs to no other buffer. */
  lemma LastIsFree(r: Ring, id: nat, last: nat)
    requires r.log.used != [] && id == r.log.used[0].id && id in r.chains && last in r.chains[id]
    requires forall x, y :: x in r.chains && y in r.chains[x] && y in r.chains[id] ==> x == id
    ensures DescFree(DoReclaim(r), last)
  {
  }

  lemma OldestReturned(r: Ring, s: Ring, r': Ring, token: nat, len: nat)
    requires RingOk(r) && r.u < r.v && RingOk(s) && Rely(r, s) && s.log.used != [] && s.log.used[0].id in s.log.bufs
    requires Steady(DoReclaim(s), r') && token == s.log.bufs[s.log.used[0].id].token && len == s.log.used[0].len
    ensures Returned1(r, r', token, len)
  {
    DriverSeesUsed(r);
    assert LogOk(s.log, s.num);
    hide RingOk, LogOk;
    OldestDone(s.log, s.num);
    assert s.log.done[r.log.returned] == r.log.done[r.log.returned];
  }

  lemma ReturnedToken(r: Ring, r': Ring, token: nat, len: nat)
    requires Returned1(r, r', token, len)
    ensures token != 0
  {
  }

  lemma ReturnedSteady(r: Ring, s: Ring, r': Ring, token: nat, len: nat)
    requires Returned1(r, s, token, len) && Steady(s, r')
    ensures Returned1(r, r', token, len)
  {
  }

  lemma ReclaimCounters(d: Counters, s: Ring, r': Ring)
    requires CountersOk(d, s) && s.log.used != [] && Steady(DoReclaim(s), r') && r'.noInterrupt == s.noInterrupt
    ensures CountersOk(d.(lastUsed := U16(d.lastUsed + 1)), r')
  {
  }

  lemma FlagCounters(d: Counters, r: Ring, r': Ring, n: bool)
    requires CountersOk(d, r) && Steady(r, r') && (!r'.eventIdx ==> r'.noInterrupt == n)
    ensures CountersOk(d.(noInterrupt := n), r')
  {
  }

  lemma FlagIs(d: Counters, r: Ring)
    requires CountersOk(d, r)
    ensures !r.eventIdx ==> r.noInterrupt == d.noInterrupt
  {
  }

  lemma KickCounters(d: Counters, r: Ring, r': Ring)
    requires CountersOk(d, r) && r'.a == r.a && r'.u == r.u && r'.lastKick == r.a && r'.eventIdx == r.eventIdx
    requires r'.noInterrupt == r.noInterrupt
    ensures CountersOk(d.(numAdded := 0), r')
    ensures DriverKicks(r) == KickDecision(r.eventIdx, d.masterIdx, d.numAdded, r.availEvent, r.noNotify)
  {
  }

  // ----- the delayed test -----

  /** virtqueue_enable_cb_delayed_split's return value: a comparison in int of 16-bit values. */
  predicate DelayedTest(usedIdx: nat, lastUsed: nat, bufs: nat) {
    usedIdx - lastUsed <= bufs
  }

  /** The number of buffers to wait for, from 16-bit values. */
  function DelayedBufs(masterIdx: nat, lastUsed: nat): (n: nat) {
    U16(masterIdx - lastUsed) * 3 / 4
  }

  lemma DelayedBufsIs(u: nat, a: nat)
    requires u <= a <= u + 0x8000
    ensures DelayedBufs(U16(a), U16(u)) == (a - u) * 3 / 4
  {
    U16Distance(a, a - u);
    U16Is(a - u, 0, a - u);
  }

  lemma DelayedStart(d: Counters, r: Ring)
    requires CountersOk(d, r) && r.u <= r.a <= r.u + 0x8000
    ensures DelayedBufs(d.masterIdx, d.lastUsed) == (r.a - r.u) * 3 / 4
    ensures U16(d.lastUsed + DelayedBufs(d.masterIdx, d.lastUsed)) == U16(r.u + (r.a - r.u) * 3 / 4)
  {
    DelayedBufsIs(r.u, r.a);
    var n := (r.a - r.u) * 3 / 4;
    U16Sub(r.u, -n, 0);
  }

  lemma DelayedTestIs(u: nat, v: nat, bufs: nat)
    requires u <= v <= u + 0x8000
    ensures DelayedTest(U16(v), U16(u), bufs) <==> v - u <= bufs || U16(u) + (v - u) >= 0x1_0000
  {
    var i := U16Split(u);
    if U16(u) + (v - u) < 0x1_0000 {
      U16Is(v, i, U16(u) + (v - u));
    } else {
      U16Is(v, i + 1, U16(u) + (v - u) - 0x1_0000);
    }
  }

  /** The test answers whether at most bufs buffers came back, for every number the device can
      have returned by then, if and only if the 16-bit used index cannot wrap before the ring is
      drained. */
  lemma DelayedTestExact(u: nat, a: nat)
    requires u <= a <= u + 0x8000
    ensures var bufs := DelayedBufs(U16(a), U16(u));
            (forall v :: u <= v <= a ==> (DelayedTest(U16(v), U16(u), bufs) <==> v - u <= bufs))
            <==> U16(u) + (a - u) < 0x1_0000
  {
    var bufs := DelayedBufs(U16(a), U16(u));
    DelayedBufsIs(u, a);
    forall v | u <= v <= a
      ensures DelayedTest(U16(v), U16(u), bufs) <==> v - u <= bufs || U16(u) + (v - u) >= 0x1_0000
    {
      DelayedTestIs(u, v, bufs);
    }
    if U16(u) + (a - u) >= 0x1_0000 {
      assert !(a - u <= bufs) && DelayedTest(U16(a), U16(u), bufs);
    }
  }

  // ----- teardown -----

  /** A token is stored exactly where a buffer is outstanding. */
  lemma TokenTells(num: nat, desc: seq<Desc>, first: nat, unused: nat, tokens: seq<nat>, p: Pool, bufs: map<nat, Buffer>, k: nat)
    requires Threaded(num, desc, first, unused, tokens, p, bufs) && k < num
    ensures |tokens| == num && (tokens[k] != 0 <==> k in bufs) && (k in bufs ==> tokens[k] == bufs[k].token)
  {
  }

  lemma HeadsBelow(num: nat, desc: seq<Desc>, first: nat, unused: nat, tokens: seq<nat>, p: Pool, bufs: map<nat, Buffer>)
    requires Threaded(num, desc, first, unused, tokens, p, bufs)
    ensures forall id :: id in bufs ==> id < num
  {
  }

  lemma DrainStart(d: Counters, r: Ring)
    requires RingOk(r) && CountersOk(d, r)
    ensures d.masterIdx == U16(r.u + |r.log.bufs.Keys|) && d.lastUsed == U16(r.u) && r.availIdx == d.masterIdx && QueueSize(r.num)
  {
    Outstanding(r);
  }

  lemma U16Prev(p: nat)
    requires p > 0
    ensures U16(U16(p) - 1) == U16(p - 1)
  {
    U16Sub(p, 1, 0);
  }

  // ----- completion handlers -----

  lemma NoneInOrder(r: Ring)
    requires RingOk(r)
    ensures InOrder(r.log.added, r.log.done, r.log.returned, []) && r.log.returned <= |r.log.added|
  {
    ReturnedBound(r.log, r.num);
  }

  lemma NextInOrder(r: Ring, r': Ring, token: nat, len: nat, lo: nat, tokens: seq<nat>)
    requires RingOk(r) && Returned1(r, r', token, len)
    requires lo + |tokens| == r.log.returned && InOrder(r.log.added, r.log.done, lo, tokens)
    ensures r'.log.added == r.log.added && r'.log.returned == r.log.returned + 1 <= |r.log.added|
    ensures InOrder(r'.log.added, r'.log.done, lo, tokens + [token])
  {
    ReturnedBound(r.log, r.num);
    hide RingOk;
    InOrderNext(r.log.added, r.log.done, lo, tokens, token);
    InOrderGrows(r.log.added, r.log.done, r'.log.done, lo, tokens + [token]);
  }

  lemma SteadyDone(r: Ring, r': Ring, lo: nat, tokens: seq<nat>)
    requires Steady(r, r') && InOrder(r.log.added, r.log.done, lo, tokens)
    ensures r'.log.added == r.log.added && r'.log.returned == r.log.returned && r'.u == r.u && |r.log.done| <= |r'.log.done|
    ensures InOrder(r'.log.added, r'.log.done, lo, tokens)
  {
  }

  lemma MoreDone(r: Ring)
    requires RingOk(r)
    ensures r.u < r.v <==> r.log.returned < |r.log.done|
    ensures r.log.returned <= |r.log.added|
  {
    ReturnedBound(r.log, r.num);
    DriverSeesUsed(r);
  }
}
