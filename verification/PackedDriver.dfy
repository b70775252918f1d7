/**
 The driver's private side of a packed ring as a value, what ties it to the ring, and
 what the driver may rely on while the device runs.
 */
module PackedDriver {
  import opened Ledger
  import opened Positions
  import opened DescPool
  import opened PackedRing
  import opened PackedProofs

  /** vring_desc_state_packed; a token of 0 is the null pointer. */
  datatype DescState = DescState(data: nat, num: nat, next: nat, last: nat)

  /** virtqueue_packed without the per-descriptor states. */
  datatype Counters = Counters(
    nextAvailIdx: nat, availFlag: bool, usedFlag: bool, availWrapCounter: bool,
    lastUsedIdx: nat, usedWrapCounter: bool, numAdded: nat, eventFlagsShadow: nat)

  // ----- the token table and the free list -----

  /** The states' next fields carry the pool, and its chains are the outstanding buffers. */
  ghost predicate StatesOk(num: nat, state: seq<DescState>, freeHead: nat, numFree: nat, p: Pool, bufs: map<nat, Buffer>) {
    && PoolOk(num, p) && |state| == num
    && freeHead == p.head && numFree == |p.free|
    && (forall k :: 0 <= k < num ==> state[k].next == p.next[k])
    && p.chains.Keys == bufs.Keys
    && (forall id :: id in bufs ==> StateOk(state, p, id, bufs[id]))
    && (forall k: nat :: k < num && k !in bufs ==> state[k].data == 0)
  }

  ghost predicate StateOk(state: seq<DescState>, p: Pool, id: nat, b: Buffer)
    requires id in p.chains
  {
    && id < |state| && |p.chains[id]| >= 1 && b.token != 0
    && state[id].data == b.token && state[id].num == |p.chains[id]| == b.n
    && state[id].last == p.chains[id][|p.chains[id]| - 1]
  }

  lemma StatesBound(num: nat, state: seq<DescState>, freeHead: nat, numFree: nat, p: Pool, bufs: map<nat, Buffer>)
    requires StatesOk(num, state, freeHead, numFree, p, bufs)
    ensures forall id :: id in bufs ==> id < num
  {
  }

  lemma InitialStates(num: nat, state: seq<DescState>)
    requires num > 0 && |state| == num && PoolOk(num, Fresh(num))
    requires forall k :: 0 <= k < num ==> state[k] == DescState(0, 0, if k < num - 1 then k + 1 else 0, 0)
    ensures StatesOk(num, state, 0, num, Fresh(num), map[])
  {
  }

  lemma TakeStates(num: nat, state: seq<DescState>, freeHead: nat, numFree: nat, p: Pool, bufs: map<nat, Buffer>,
                   n: nat, b: Buffer)
    requires StatesOk(num, state, freeHead, numFree, p, bufs)
    requires 1 <= n <= |p.free| && b.n == n && b.token != 0 && freeHead < num
    ensures freeHead !in bufs && freeHead == p.free[0]
    ensures StatesOk(num, state[freeHead := DescState(b.token, n, state[freeHead].next, p.free[n - 1])],
                     FreeAt(p, n), numFree - n, Take(p, n), bufs[freeHead := b])
  {
    TakeKeepsPool(num, p, n);
    var id := freeHead;
    var q := Take(p, n);
    var state' := state[id := DescState(b.token, n, state[id].next, p.free[n - 1])];
    var bufs' := bufs[id := b];
    hide PoolOk, Distinct, Below, Apart, ListOk, StateOk;
    assert q.chains.Keys == bufs'.Keys;
    forall x | x in bufs'
      ensures x in q.chains && StateOk(state', q, x, bufs'[x])
    {
      if x != id {
        assert StateOk(state, p, x, bufs[x]);
        OtherState(state, state', p, q, x, bufs[x]);
      } else {
        assert StateOk(state', q, id, b) by { NewState(state', p, n, b); }
      }
    }
  }

  /** A buffer whose state and chain an add leaves alone. */
  lemma OtherState(state: seq<DescState>, state': seq<DescState>, p: Pool, q: Pool, x: nat, b: Buffer)
    requires x in p.chains && StateOk(state, p, x, b)
    requires |state'| == |state| && state'[x] == state[x] && x in q.chains && q.chains[x] == p.chains[x]
    ensures StateOk(state', q, x, b)
  {
  }

  lemma NewState(state: seq<DescState>, p: Pool, n: nat, b: Buffer)
    requires 1 <= n <= |p.free| && p.free[0] < |state| && b.n == n && b.token != 0
    requires state[p.free[0]].data == b.token && state[p.free[0]].num == n && state[p.free[0]].last == p.free[n - 1]
    requires Below(p.free, |p.next|)
    ensures p.free[0] in Take(p, n).chains && StateOk(state, Take(p, n), p.free[0], b)
  {
  }

  /** One step along the free list, as the next fields give it. */
  lemma FreeStep(num: nat, state: seq<DescState>, freeHead: nat, numFree: nat, p: Pool, bufs: map<nat, Buffer>, n: nat)
    requires StatesOk(num, state, freeHead, numFree, p, bufs) && n < numFree
    ensures Below(p.free, |p.next|) && FreeAt(p, n) == p.free[n] < num
    ensures state[FreeAt(p, n)].next == FreeAt(p, n + 1)
  {
  }

  lemma StateFacts(num: nat, state: seq<DescState>, freeHead: nat, numFree: nat, p: Pool, bufs: map<nat, Buffer>, id: nat)
    requires StatesOk(num, state, freeHead, numFree, p, bufs) && id in bufs
    ensures id < |state| && state[id].data == bufs[id].token != 0 && state[id].num == bufs[id].n
  {
  }

  lemma PutStates(num: nat, state: seq<DescState>, freeHead: nat, numFree: nat, p: Pool, bufs: map<nat, Buffer>, id: nat)
    requires StatesOk(num, state, freeHead, numFree, p, bufs) && id in bufs
    ensures id < num && state[id].last < num && freeHead < num
    ensures id in p.chains && |p.chains[id]| >= 1 && Below(p.chains[id], |p.next|)
    ensures var state1 := state[id := state[id].(data := 0)];
            StatesOk(num, state1[state[id].last := state1[state[id].last].(next := freeHead)],
                     id, numFree + state[id].num, Put(p, id), bufs - {id})
  {
    StatesBound(num, state, freeHead, numFree, p, bufs);
    assert StateOk(state, p, id, bufs[id]);
    assert ChainOk(p.next, id, p.chains[id]);
    PutKeepsPool(num, p, id);
    hide PoolOk;
    var last := state[id].last;
    var state1 := state[id := state[id].(data := 0)];
    var state2 := state1[last := state1[last].(next := freeHead)];
    var q := Put(p, id);
    var bufs' := bufs - {id};
    forall x | x in bufs'
      ensures x in q.chains && StateOk(state2, q, x, bufs'[x])
    {
      assert StateOk(state, p, x, bufs[x]);
    }
    assert forall k: nat :: k < num ==> state2[k].data == if k == id then 0 else state[k].data;
  }

  /** With no buffer outstanding every descriptor is free. */
  lemma AllFree(num: nat, state: seq<DescState>, freeHead: nat, numFree: nat, p: Pool)
    requires StatesOk(num, state, freeHead, numFree, p, map[])
    ensures numFree == num
  {
    assert forall x: nat :: x < num ==> x in p.free;
    ListOfAll(num, p.free);
  }

  // ----- counters -----

  /** The counters hold the positions: slot numbers, wrap bits and truncated counts. */
  ghost predicate CountersOk(d: Counters, r: Ring)
    requires Shape(r)
  {
    && d.nextAvailIdx == Slot(r.a, r.num)
    && d.availFlag == Wrap(r.a, r.num) && d.usedFlag == !Wrap(r.a, r.num)
    && d.availWrapCounter == AvailWrapCounter(r)
    && d.lastUsedIdx == Slot(r.u, r.num) && d.usedWrapCounter == Wrap(r.u, r.num)
    && r.lastKick <= r.a && d.numAdded == U32(r.a - r.lastKick)
    && d.eventFlagsShadow == r.driverEvent.flags <= EVENT_DESC
  }

  /** The counters right after publishing n descriptors: the avail wrap counter follows the flag
      bits exactly when the buffer is not a direct chain over the whole ring. */
  lemma WrapCounterFollows(r: Ring, r': Ring, direct: bool, n: nat)
    requires Shape(r) && r'.num == r.num && 1 <= n <= r.num && r'.a == r.a + n
    requires r'.full == r.full + if direct && n == r.num then 1 else 0
    ensures var i := Slot(r'.a, r.num);
            AvailWrapCounter(r') ==
            if direct then (if i < Slot(r.a, r.num) then !AvailWrapCounter(r) else AvailWrapCounter(r))
            else (if Slot(r.a, r.num) + n >= r.num then !AvailWrapCounter(r) else AvailWrapCounter(r))
  {
    SlotAdvance(r.a, n, r.num);
  }

  // ----- what the device leaves alone -----

  /** What neither the device nor the writing of unpublished descriptors changes. */
  ghost predicate Stable(r: Ring, r': Ring) {
    && r'.num == r.num && r'.u == r.u && r'.a == r.a && r'.bufs == r.bufs && r'.added == r.added
    && r'.returned == r.returned && r'.driverEvent == r.driverEvent && r'.armed == r.armed
    && r'.lastKick == r.lastKick && r'.full == r.full && (r.kicksExact ==> r'.kicksExact)
    && r.v <= r'.v && r.c <= r'.c && r.used <= r'.used && r.done <= r'.done
  }

  /** What the driver may rely on while the device runs. */
  ghost predicate Rely(r: Ring, r': Ring) {
    && Stable(r, r') && r'.w == r.w && r'.tables == r.tables
    && Shape(r) && Shape(r') && Same(r, r', r.a, r.u + r.num)
  }

  lemma DeviceStepRely(r: Ring, act: Act)
    requires RingOk(r) && DeviceAct(act) && Can(r, act)
    ensures RingOk(Do(r, act)) && Rely(r, Do(r, act))
  {
    StepKeeps(r, act);
    if act.Complete? {
      CompleteRely(r, act);
    } else if act.Consume? {
      ConsumeRely(r, act);
    }
  }

  lemma ConsumeRely(r: Ring, act: Act)
    requires RingOk(r) && act.Consume? && Can(r, act) && Shape(Do(r, act))
    ensures Rely(r, Do(r, act))
  {
    DeviceSeesWholeBuffers(r);
    hide RingOk;
    assert forall p {:trigger At(Do(r, act), p)} :: At(Do(r, act), p) == At(r, p);
  }

  lemma CompleteRely(r: Ring, act: Act)
    requires RingOk(r) && act.Complete? && Can(r, act) && Shape(Do(r, act))
    ensures Rely(r, Do(r, act))
  {
    CompleteRoom(r, act.k);
    CompleteFrame(r, act.k, act.len, act.write);
    hide RingOk;
    CompleteSame(r, DoComplete(r, act.k, act.len, act.write));
  }

  /** The only descriptor a device step stores to is the next used entry. */
  lemma DeviceStores(r: Ring, act: Act)
    requires Shape(r) && DeviceAct(act) && Can(r, act)
    ensures |Do(r, act).desc| == r.num
    ensures Do(r, act).desc ==
            if act.Complete? then r.desc[Slot(r.v, r.num) := Do(r, act).desc[Slot(r.v, r.num)]] else r.desc
  {
  }

  lemma RelyFields(r: Ring, r': Ring)
    requires Rely(r, r')
    ensures r'.num == r.num && r'.tables == r.tables && r'.driverEvent == r.driverEvent && Shape(r) && Shape(r')
  {
  }

  lemma RelyTrans(r: Ring, s: Ring, t: Ring)
    requires Rely(r, s) && Rely(s, t)
    ensures Rely(r, t)
  {
  }

  // ----- writing a buffer that is not published yet -----

  /** From r to r' the driver stored d at position a + k and the device may have run. */
  ghost predicate Wrote(r: Ring, r': Ring, k: nat, d: Desc) {
    && Shape(r) && Shape(r') && Stable(r, r') && r'.tables == r.tables && r'.w == Max(r.w, k + 1)
    && r.a + k < r.u + r.num && At(r', r.a + k) == d
    && Same(r, r', r.a, r.a + k) && Same(r, r', r.a + k + 1, r.u + r.num)
  }

  lemma PokeIs(r: Ring, k: nat, d: Desc)
    requires Shape(r) && r.a + k < r.u + r.num && (k == 0 ==> d.flags == At(r, r.a).flags)
    ensures Can(r, Poke(k, d))
    ensures Do(r, Poke(k, d)) == r.(desc := r.desc[Slot(r.a + k, r.num) := d], w := Max(r.w, k + 1))
  {
  }

  lemma PokeStores(r: Ring, k: nat, d: Desc)
    requires RingOk(r) && r.a + k < r.u + r.num && (k == 0 ==> d.flags == At(r, r.a).flags)
    ensures Can(r, Poke(k, d)) && RingOk(Do(r, Poke(k, d)))
    ensures Do(r, Poke(k, d)).desc == r.desc[Slot(r.a + k, r.num) := d]
    ensures Do(r, Poke(k, d)).num == r.num && Do(r, Poke(k, d)).tables == r.tables
    ensures Do(r, Poke(k, d)).driverEvent == r.driverEvent && Do(r, Poke(k, d)).deviceEvent == r.deviceEvent
  {
    RingShape(r);
    hide RingOk, Can, Do, Slot, Wrap;
    PokeIs(r, k, d);
    StepKeeps(r, Poke(k, d));
  }

  lemma PokeSame(r: Ring, s: Ring, k: nat, d: Desc)
    requires Shape(r) && r.a + k < r.u + r.num && s == r.(desc := r.desc[Slot(r.a + k, r.num) := d], w := Max(r.w, k + 1))
    ensures |s.desc| == r.num && At(s, r.a + k) == d
    ensures Same(r, s, r.a, r.a + k) && Same(r, s, r.a + k + 1, r.u + r.num)
  {
    PokeFrame(r, k, d);
    var t := Store(r, r.a + k, d);
    assert forall p {:trigger At(s, p)} :: At(s, p) == At(t, p);
  }

  lemma StoredWrote(r: Ring, s: Ring, r': Ring, k: nat, d: Desc)
    requires Shape(r) && r.a + k < r.u + r.num && |s.desc| == r.num
    requires s == r.(desc := s.desc, w := Max(r.w, k + 1)) && Rely(s, r') && At(s, r.a + k) == d
    requires Same(r, s, r.a, r.a + k) && Same(r, s, r.a + k + 1, r.u + r.num)
    ensures Wrote(r, r', k, d) && At(r', r.a + k) == d && r'.a == r.a && r'.num == r.num
  {
    hide At;
  }

  lemma PokeWrote(r: Ring, k: nat, d: Desc, r': Ring)
    requires RingOk(r) && Can(r, Poke(k, d)) && Rely(Do(r, Poke(k, d)), r')
    ensures Wrote(r, r', k, d) && At(r', r.a + k) == d && r'.a == r.a && r'.num == r.num
  {
    hide RingOk, Rely, Wrote;
    RingShape(r);
    assert r.a + k < r.u + r.num && (k == 0 ==> d.flags == At(r, r.a).flags);
    hide Can, Do, Slot, Wrap, Same;
    PokeIs(r, k, d);
    PokeSame(r, Do(r, Poke(k, d)), k, d);
    StoredWrote(r, Do(r, Poke(k, d)), r', k, d);
  }

  lemma WroteTwice(r: Ring, s: Ring, t: Ring, k: nat, d: Desc, d': Desc)
    requires Wrote(r, s, k, d) && Wrote(s, t, k, d')
    ensures Wrote(r, t, k, d')
  {
  }

  lemma WroteKeeps(r: Ring, r': Ring, k: nat, d: Desc)
    requires Wrote(r, r', k, d)
    ensures Shape(r) && Shape(r') && Stable(r, r') && r'.tables == r.tables && r'.w == Max(r.w, k + 1)
    ensures r'.num == r.num && r'.a == r.a && r'.u == r.u
  {
  }

  /** From r to r' the driver stored into tables that no outstanding buffer uses. */
  ghost predicate TableWrote(r: Ring, r': Ring) {
    Shape(r) && Shape(r') && Stable(r, r') && r'.w == r.w && Same(r, r', r.a, r.u + r.num)
  }

  lemma TableStores(r: Ring, t: nat, page: seq<Desc>)
    requires RingOk(r) && TableFree(r, t)
    ensures Can(r, PokeTable(t, page)) && RingOk(Do(r, PokeTable(t, page)))
    ensures Do(r, PokeTable(t, page)) == r.(tables := r.tables[t := page])
  {
    assert Shape(r);
    StepKeeps(r, PokeTable(t, page));
    hide RingOk;
  }

  lemma TablePoked(r: Ring, t: nat, page: seq<Desc>, r': Ring)
    requires Shape(r) && TableFree(r, t) && Rely(Do(r, PokeTable(t, page)), r')
    ensures TableWrote(r, r') && r'.tables == r.tables[t := page]
  {
    assert forall p {:trigger At(Do(r, PokeTable(t, page)), p)} :: At(Do(r, PokeTable(t, page)), p) == At(r, p);
  }

  lemma TableWroteRefl(r: Ring)
    requires Shape(r)
    ensures TableWrote(r, r)
  {
  }

  lemma TableWroteTrans(r: Ring, s: Ring, t: Ring)
    requires TableWrote(r, s) && TableWrote(s, t)
    ensures TableWrote(r, t)
  {
  }

  lemma TableFreeStable(r: Ring, r': Ring, t: nat)
    requires Stable(r, r') && TableFree(r, t)
    ensures TableFree(r', t)
  {
  }

  lemma TableWroteFields(r: Ring, r': Ring, t: nat)
    requires TableWrote(r, r')
    ensures Shape(r) && Shape(r') && Stable(r, r') && r'.w == r.w && r'.a == r.a && r'.u == r.u && r'.bufs == r.bufs
    ensures r'.added == r.added && r'.num == r.num
    ensures TableFree(r, t) <==> TableFree(r', t)
  {
  }

  /** The first n descriptors of b are in place, the flags of the first one excepted. */
  ghost predicate Prefix(r: Ring, id: nat, b: Buffer, n: nat)
    requires Shape(r)
  {
    && (n > 0 && b.table.None? && |b.sg| >= 1 ==>
          At(r, r.a).addr == b.sg[0].addr && At(r, r.a).len == b.sg[0].len && At(r, r.a).id == id)
    && forall k :: r.a < k < r.a + n ==>
         && Encodes(At(r, k), id, b, k - r.a)
         && At(r, k).flags.avail == Wrap(k, r.num) && At(r, k).flags.used == !Wrap(k, r.num)
  }

  /** Descriptor n of a direct buffer. */
  function DirectDesc(id: nat, b: Buffer, n: nat, flags: Flags): (d: Desc)
    requires n < |b.sg|
  {
    Desc(b.sg[n].addr, b.sg[n].len, id, flags)
  }

  function DirectFlags(b: Buffer, n: nat, avail: bool, used: bool): (f: Flags) {
    Flags(n + 1 != |b.sg|, n >= b.out, false, avail, used)
  }

  lemma PrefixEmpty(r: Ring, id: nat, b: Buffer)
    requires Shape(r)
    ensures Prefix(r, id, b, 0)
  {
  }

  lemma PrefixGrows(r: Ring, r': Ring, id: nat, b: Buffer, n: nat, flags: Flags)
    requires Shape(r) && Prefix(r, id, b, n) && n < |b.sg| && b.table.None? && b.n == |b.sg|
    requires Wrote(r, r', n, DirectDesc(id, b, n, flags))
    requires n > 0 ==> flags == DirectFlags(b, n, Wrap(r.a + n, r.num), !Wrap(r.a + n, r.num))
    ensures Prefix(r', id, b, n + 1)
  {
  }

  /** A buffer written in full can be published under a free id. */
  lemma DirectPublishable(r: Ring, id: nat, b: Buffer)
    requires RingOk(r) && id !in r.bufs && id < r.num && BufferOk(b) && b.table.None?
    requires b.serial == |r.added| && b.pos == r.a && r.w <= b.n && r.a + b.n <= r.u + r.num
    requires Prefix(r, id, b, b.n)
    ensures Can(r, Publish(id, b, DirectFlags(b, 0, Wrap(r.a, r.num), !Wrap(r.a, r.num))))
  {
    hide RingOk;
  }

  lemma IndirectPublishable(r: Ring, id: nat, b: Buffer)
    requires RingOk(r) && id !in r.bufs && id < r.num && BufferOk(b) && b.table.Some?
    requires b.serial == |r.added| && b.pos == r.a && r.w <= b.n && r.a + b.n <= r.u + r.num
    requires At(r, r.a).addr == b.table.value && At(r, r.a).len == 16 * |b.sg| && At(r, r.a).id == id
    requires TableFree(r, b.table.value) && b.table.value in r.tables && TableHolds(r.tables[b.table.value], b.sg, b.out)
    ensures Can(r, Publish(id, b, Flags(false, false, true, Wrap(r.a, r.num), !Wrap(r.a, r.num))))
  {
    hide RingOk;
  }

  /** From r to r' buffer b was added under id, and the device may have run. */
  ghost predicate Extended(r: Ring, r': Ring, id: nat, b: Buffer) {
    && r'.num == r.num && r'.u == r.u && r'.a == r.a + b.n && r'.w == 0
    && id !in r.bufs && r'.bufs == r.bufs[id := b] && r'.added == r.added + [b.token] && r'.returned == r.returned
    && r'.driverEvent == r.driverEvent && r'.armed == r.armed && r'.lastKick == r.lastKick
    && (r.kicksExact ==> r'.kicksExact) && r'.full == r.full + (if b.table.None? && b.n == r.num then 1 else 0)
    && r.v <= r'.v && r.used <= r'.used && r.done <= r'.done
  }

  lemma PublishStores(r: Ring, id: nat, b: Buffer, flags: Flags)
    requires RingOk(r) && Can(r, Publish(id, b, flags))
    ensures RingOk(Do(r, Publish(id, b, flags)))
    ensures Do(r, Publish(id, b, flags)).desc == r.desc[Slot(r.a, r.num) := r.desc[Slot(r.a, r.num)].(flags := flags)]
    ensures Do(r, Publish(id, b, flags)).num == r.num && Do(r, Publish(id, b, flags)).tables == r.tables
    ensures Do(r, Publish(id, b, flags)).driverEvent == r.driverEvent
    ensures Do(r, Publish(id, b, flags)).deviceEvent == r.deviceEvent
  {
    assert Shape(r);
    StepKeeps(r, Publish(id, b, flags));
    hide RingOk, Can;
  }

  lemma PublishExtended(r0: Ring, r: Ring, id: nat, b: Buffer, flags: Flags, r': Ring)
    requires Shape(r) && Stable(r0, r) && Can(r, Publish(id, b, flags)) && Rely(Do(r, Publish(id, b, flags)), r')
    ensures Extended(r0, r', id, b) && Shape(r')
  {
  }

  /** The counters after adding, once the flag bits follow the new end of the ring. */
  lemma ExtendedCounters(d: Counters, r: Ring, d': Counters, r': Ring, id: nat, b: Buffer)
    requires Shape(r) && Shape(r') && CountersOk(d, r) && Extended(r, r', id, b) && 1 <= b.n <= r.num
    requires d' == d.(nextAvailIdx := Slot(r'.a, r.num), availFlag := Wrap(r'.a, r.num), usedFlag := !Wrap(r'.a, r.num),
                      availWrapCounter := AvailWrapCounter(r'), numAdded := U32(d.numAdded + b.n))
    ensures CountersOk(d', r')
  {
    U32Add(r.a - r.lastKick, b.n);
  }

  lemma U32Add(x: nat, n: nat)
    ensures U32(U32(x) + n) == U32(x + n)
  {
  }

  /** What add_buf starts from. */
  lemma AddStart(d: Counters, r: Ring, num: nat, state: seq<DescState>, freeHead: nat, numFree: nat, p: Pool)
    requires RingOk(r) && CountersOk(d, r) && num == r.num && numFree == num - (r.a - r.u)
    requires StatesOk(num, state, freeHead, numFree, p, r.bufs)
    ensures d.nextAvailIdx == Slot(r.a, num) && d.availFlag == Wrap(r.a, num) && d.usedFlag == !Wrap(r.a, num)
    ensures Below(p.free, |p.next|) && numFree == |p.free| && freeHead == FreeAt(p, 0) < num
    ensures r.a + numFree == r.u + num
    ensures numFree > 0 ==> freeHead !in r.bufs
  {
    if numFree > 0 {
      FreeNotHead(num, p);
    }
  }

  lemma StableRefl(r: Ring)
    ensures Stable(r, r)
  {
  }

  lemma StableTrans(r: Ring, s: Ring, t: Ring)
    requires Stable(r, s) && Stable(s, t)
    ensures Stable(r, t) && t.a == s.a && t.u == s.u && t.bufs == s.bufs && t.added == s.added && t.num == s.num
  {
  }

  lemma StableFields(r: Ring, r': Ring)
    requires Stable(r, r')
    ensures r'.num == r.num && r'.a == r.a && r'.u == r.u && r'.bufs == r.bufs && r'.added == r.added
  {
  }

  /** The counters as add_buf leaves them. A direct chain flips avail_wrap_counter only if the
      next slot is before the head's, an indirect descriptor whenever the slot wraps. */
  function CountersAfter(d: Counters, r: Ring, b: Buffer): (d': Counters)
    requires r.num > 0
  {
    var i := Slot(r.a + b.n, r.num);
    var flip := if b.table.None? then i < d.nextAvailIdx else d.nextAvailIdx + 1 >= r.num;
    d.(nextAvailIdx := i,
       availFlag := Wrap(r.a + b.n, r.num), usedFlag := !Wrap(r.a + b.n, r.num),
       availWrapCounter := if flip then !d.availWrapCounter else d.availWrapCounter,
       numAdded := U32(d.numAdded + b.n))
  }

  /** After add_buf, for either form of buffer, the counters hold the new positions. */
  lemma AddEnd(d: Counters, r: Ring, r': Ring, id: nat, b: Buffer)
    requires Shape(r) && Shape(r') && CountersOk(d, r) && Extended(r, r', id, b)
    requires 1 <= b.n <= r.num && (b.table.Some? ==> b.n == 1)
    ensures CountersOk(CountersAfter(d, r, b), r') && CountersAfter(d, r, b).eventFlagsShadow == d.eventFlagsShadow
    ensures r'.num == r.num && r'.w == 0 && r'.a - r'.u == r.a - r.u + b.n && r'.bufs == r.bufs[id := b]
  {
    WrapCounterFollows(r, r', b.table.None?, b.n);
    ExtendedCounters(d, r, CountersAfter(d, r, b), r', id, b);
  }

  // ----- reclaiming -----

  /** What get_buf finds at the next used entry: the device's oldest completion that was not
      returned yet. So neither BAD_RING check can fail. */
  lemma OldestCompletion(r: Ring)
    requires RingOk(r) && r.u < r.v
    ensures r.used != [] && r.used[0].id == At(r, r.u).id && r.returned < |r.done|
    ensures var id := At(r, r.u).id;
            && id < r.num && id in r.bufs && r.bufs[id].token != 0 && 1 <= r.bufs[id].n <= r.num
            && r.bufs[id].serial < |r.added| && r.added[r.bufs[id].serial] == r.bufs[id].token
            && r.done[r.returned] == Completion(r.bufs[id].serial, At(r, r.u).len)
  {
    OldestRoom(r);
    assert UsedEntry(r, r.used[0]);
    Ledger.OldestDone(LogOf(r), r.num);
  }

  lemma ReclaimAt(r: Ring)
    requires RingOk(r) && r.u < r.v
    ensures Shape(r) && Can(r, Reclaim) && RingOk(Do(r, Reclaim)) && Shape(Do(r, Reclaim))
    ensures var id := At(r, r.u).id;
            && id in r.bufs
            && Do(r, Reclaim) == r.(u := r.u + r.bufs[id].n, used := r.used[1..], bufs := r.bufs - {id},
                                    returned := r.returned + 1, armed := None)
  {
    hide RingOk, Do;
    RingShape(r);
    CanReclaim(r);
    OldestCompletion(r);
    StepKeeps(r, Reclaim);
    RingShape(Do(r, Reclaim));
    ReclaimIs(r);
  }

  lemma CanReclaim(r: Ring)
    requires RingOk(r) && Shape(r) && r.u < r.v
    ensures Can(r, Reclaim)
  {
    hide RingOk;
    MoreUsedExact(r);
  }

  lemma ReclaimIs(r: Ring)
    requires Shape(r) && Can(r, Reclaim) && r.used != [] && r.used[0].id in r.bufs
    ensures Do(r, Reclaim) == DoReclaim(r)
  {
  }

  lemma RingShape(r: Ring)
    requires RingOk(r)
    ensures Shape(r)
  {
  }

  lemma OldestRoom(r: Ring)
    requires Shape(r) && UsedOk(r) && r.used != []
    ensures r.used[0].id in r.bufs && r.u + r.bufs[r.used[0].id].n <= r.v
  {
    assert UsedEnd(r, 0) <= r.v by {
      if |r.used| > 1 {
        assert UsedEntry(r, r.used[1]);
      }
    }
  }

  /** The poll of get_buf and enable_cb is exact. */
  lemma PollExact(d: Counters, r: Ring)
    requires RingOk(r) && CountersOk(d, r)
    ensures d.lastUsedIdx == Slot(r.u, r.num) < |r.desc| && d.usedWrapCounter == Wrap(r.u, r.num)
    ensures IsUsedDesc(r.desc, d.lastUsedIdx, d.usedWrapCounter) <==> r.u < r.v
    ensures r.u < r.v <==> r.returned < |r.done|
  {
    MoreUsedExact(r);
  }

  /** What is left as it was, or only grew, while the device ran. */
  lemma RelyProgress(r: Ring, r': Ring)
    requires Rely(r, r')
    ensures r'.num == r.num && r'.u == r.u && r'.a == r.a && r'.w == r.w && r'.bufs == r.bufs && r'.added == r.added
    ensures r'.returned == r.returned && r'.armed == r.armed && r'.driverEvent == r.driverEvent
    ensures r'.lastKick == r.lastKick && r'.full == r.full && (r.kicksExact ==> r'.kicksExact)
    ensures r.v <= r'.v && r.done <= r'.done && r'.tables == r.tables && Shape(r) && Shape(r')
  {
  }

  /** The used counters after n more descriptors. */
  function CountersReclaimed(d: Counters, num: nat, n: nat): (d': Counters) {
    var next := d.lastUsedIdx + n;
    if next >= num then d.(lastUsedIdx := next - num, usedWrapCounter := !d.usedWrapCounter)
    else d.(lastUsedIdx := next)
  }

  lemma ReclaimCounters(d: Counters, r: Ring, r': Ring, n: nat)
    requires Shape(r) && Shape(r') && CountersOk(d, r) && n <= r.num
    requires r'.num == r.num && r'.a == r.a && r'.u == r.u + n && r'.lastKick == r.lastKick && r'.full == r.full
    requires r'.driverEvent == r.driverEvent
    ensures CountersOk(CountersReclaimed(d, r.num, n), r')
    ensures CountersReclaimed(d, r.num, n).eventFlagsShadow == d.eventFlagsShadow
  {
    SlotAdvance(r.u, n, r.num);
  }

  /** Counters that only an event structure changed under. */
  lemma EventCounters(d: Counters, r: Ring, r': Ring, flags: nat)
    requires Shape(r) && Shape(r') && CountersOk(d, r) && r'.driverEvent.flags == flags <= EVENT_DESC
    requires r'.num == r.num && r'.a == r.a && r'.u == r.u && r'.lastKick == r.lastKick && r'.full == r.full
    ensures CountersOk(d.(eventFlagsShadow := flags), r')
  {
  }

  lemma SameCounters(d: Counters, r: Ring, r': Ring)
    requires Shape(r) && Shape(r') && CountersOk(d, r) && r'.driverEvent.flags == r.driverEvent.flags
    requires r'.num == r.num && r'.a == r.a && r'.u == r.u && r'.lastKick == r.lastKick && r'.full == r.full
    ensures CountersOk(d, r')
  {
  }

  lemma SetEventStep(r: Ring, ev: Event)
    requires RingOk(r)
    ensures Shape(r) && Can(r, SetEvent(ev))
    ensures Do(r, SetEvent(ev)) == r.(driverEvent := ev, armed := None) && RingOk(Do(r, SetEvent(ev)))
  {
    StepKeeps(r, SetEvent(ev));
    hide RingOk;
  }

  lemma ArmStepAt(r: Ring, e: nat)
    requires RingOk(r) && r.u <= e && AsksFor(r.driverEvent, e, r.num)
    requires !IsUsedDesc(r.desc, Slot(r.u, r.num), Wrap(r.u, r.num))
    ensures Can(r, Arm(e)) && Do(r, Arm(e)) == r.(armed := Some(e), irq := false) && RingOk(Do(r, Arm(e)))
  {
    StepKeeps(r, Arm(e));
    hide RingOk;
  }

  lemma KickStep(r: Ring)
    requires RingOk(r)
    ensures Shape(r) && Can(r, Kick) && RingOk(Do(r, Kick))
    ensures Do(r, Kick) == r.(lastKick := r.a, kicked := r.kicked || DriverKicks(r), kicksExact := r.kicksExact && KickExact(r))
  {
    assert Shape(r) by { hide Can, Do; }
    hide RingOk;
    KickDoes(r);
    hide Can, Do;
    StepKeeps(r, Kick);
  }

  lemma KickDoes(r: Ring)
    requires Shape(r)
    ensures Can(r, Kick)
    ensures Do(r, Kick) == r.(lastKick := r.a, kicked := r.kicked || DriverKicks(r), kicksExact := r.kicksExact && KickExact(r))
  {
    hide Slot, Wrap;
  }

  lemma KickRoom(r: Ring)
    requires RingOk(r)
    ensures r.lastKick <= r.a
  {
  }

  lemma KickCounters(d: Counters, r: Ring, r': Ring)
    requires Shape(r) && Shape(r') && CountersOk(d, r)
    requires r'.num == r.num && r'.a == r.a && r'.u == r.u && r'.lastKick == r'.a && r'.full == r.full
    requires r'.driverEvent == r.driverEvent
    ensures CountersOk(d.(numAdded := 0), r')
    ensures DriverKicks(r) == KickDecision(r.num, d.nextAvailIdx, d.availWrapCounter, d.numAdded, r.deviceEvent)
  {
  }

  /** From r to r' the oldest completion was returned as (token, len). */
  ghost predicate Returned1(r: Ring, r': Ring, token: nat, len: nat) {
    && r.returned < |r.done| && r.done[r.returned].serial < |r.added|
    && token == r.added[r.done[r.returned].serial] != 0 && len == r.done[r.returned].len
    && r'.num == r.num && r'.added == r.added && r'.returned == r.returned + 1 && r.done <= r'.done
    && r'.a == r.a && r'.lastKick == r.lastKick && r'.full == r.full && (r.kicksExact ==> r'.kicksExact)
    && TookOut(r.bufs, r'.bufs, token)
  }

  lemma ReclaimReturns(r: Ring, s: Ring, r': Ring, token: nat, len: nat)
    requires Rely(r, s) && r.returned < |r.done| && RingOk(s) && s.u < s.v
    requires var id := At(s, s.u).id;
             && id in s.bufs && token == s.bufs[id].token && len == At(s, s.u).len
             && r' == s.(u := s.u + s.bufs[id].n, used := s.used[1..], bufs := s.bufs - {id},
                         returned := s.returned + 1, armed := None)
    ensures Returned1(r, r', token, len)
  {
    OldestCompletion(s);
    hide RingOk;
  }

  // ----- event structures -----

  /** An index and a wrap bit as an event field holds them. */
  function EventOf(idx: nat, wrap: bool): nat {
    idx + if wrap then 0x8000 else 0
  }

  lemma UsedOffWrap(d: Counters, r: Ring)
    requires Shape(r) && CountersOk(d, r)
    ensures EventOf(d.lastUsedIdx, d.usedWrapCounter) == OffWrap(r.u, r.num)
  {
  }

  lemma ShadowIs(d: Counters, r: Ring)
    requires Shape(r) && CountersOk(d, r)
    ensures d.eventFlagsShadow == r.driverEvent.flags <= EVENT_DESC
  {
  }

  /** From r to r' no buffer was added or returned; only the device and events moved on. */
  ghost predicate Undisturbed(r: Ring, r': Ring) {
    && r'.num == r.num && r'.u == r.u && r'.a == r.a && r'.bufs == r.bufs && r'.added == r.added
    && r'.returned == r.returned && r'.lastKick == r.lastKick && r'.full == r.full && (r.kicksExact ==> r'.kicksExact)
    && r.v <= r'.v && r.done <= r'.done && r'.tables == r.tables
  }

  lemma LaterOffWrap(d: Counters, r: Ring, n: nat)
    requires Shape(r) && CountersOk(d, r) && n <= r.num
    ensures var idx := d.lastUsedIdx + n;
            OffWrap(r.u + n, r.num) ==
            if idx >= r.num then EventOf(idx - r.num, !d.usedWrapCounter) else EventOf(idx, d.usedWrapCounter)
  {
    SlotAdvance(r.u, n, r.num);
  }

  /** A token is stored exactly where a buffer is outstanding. */
  lemma DataTells(num: nat, state: seq<DescState>, freeHead: nat, numFree: nat, p: Pool, bufs: map<nat, Buffer>, k: nat)
    requires StatesOk(num, state, freeHead, numFree, p, bufs) && k < num
    ensures |state| == num && (state[k].data != 0 <==> k in bufs)
    ensures k in bufs ==> state[k].data == bufs[k].token
  {
  }

  // ----- completion handlers -----

  lemma NoneInOrder(r: Ring)
    requires RingOk(r)
    ensures InOrder(r.added, r.done, r.returned, []) && r.returned <= |r.added|
  {
    ReturnedBound(LogOf(r), r.num);
  }

  lemma NextInOrder(r: Ring, r': Ring, token: nat, len: nat, lo: nat, tokens: seq<nat>)
    requires RingOk(r) && Returned1(r, r', token, len)
    requires lo + |tokens| == r.returned && InOrder(r.added, r.done, lo, tokens)
    ensures r'.added == r.added && r'.returned == r.returned + 1 <= |r.added|
    ensures InOrder(r'.added, r'.done, lo, tokens + [token])
  {
    ReturnedBound(LogOf(r), r.num);
    hide RingOk;
    InOrderNext(r.added, r.done, lo, tokens, token);
    InOrderGrows(r.added, r.done, r'.done, lo, tokens + [token]);
  }

  lemma UndisturbedDone(r: Ring, r': Ring, lo: nat, tokens: seq<nat>)
    requires Undisturbed(r, r') && InOrder(r.added, r.done, lo, tokens)
    ensures r'.added == r.added && r'.returned == r.returned && r'.u == r.u && |r.done| <= |r'.done|
    ensures InOrder(r'.added, r'.done, lo, tokens)
  {
  }

  lemma MoreDone(r: Ring)
    requires RingOk(r)
    ensures r.u < r.v <==> r.returned < |r.done|
    ensures r.returned <= |r.added|
  {
    ReturnedBound(LogOf(r), r.num);
    MoreUsedExact(r);
  }
}
