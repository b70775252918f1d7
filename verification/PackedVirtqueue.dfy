/**
 The packed virtqueue's operations, statement by statement over the arrays it updates in
 place. DeviceRuns stands between any two accesses to shared memory: the device may then
 take any number of its steps.
 */
module PackedVirtqueue {
  import opened Ledger
  import opened Positions
  import opened DescPool
  import opened PackedRing
  import opened PackedProofs
  import opened PackedDriver

  class Queue {
    const num: nat
    const eventSuppression: bool

    // shared with the device
    const desc: array<Desc>
    var tables: map<nat, seq<Desc>>
    var driver: Event
    var device: Event

    // private to the driver
    var vq: Counters
    var freeHead: nat
    var numFree: nat
    const state: array<DescState>

    // bookkeeping that the operations never branch on: the ring as a whole (the memory above, the
    // device's progress and the history) and the descriptor states as a pool
    var ring: Ring
    ghost var pool: Pool

    ghost predicate Shared()
      reads this, desc
    {
      && desc.Length == num && RingOk(ring) && ring.num == num && ring.desc == desc[..]
      && ring.tables == tables && ring.driverEvent == driver && ring.deviceEvent == device
    }

    ghost predicate Private()
      reads this, state
    {
      && Shape(ring) && ring.num == num && state.Length == num
      && CountersOk(vq, ring)
      && numFree == num - (ring.a - ring.u)
      && StatesOk(num, state[..], freeHead, numFree, pool, ring.bufs)
      && (vq.eventFlagsShadow == EVENT_DESC ==> eventSuppression)
    }

    ghost predicate Valid()
      reads this, desc, state
    {
      Shared() && Private() && ring.w == 0
    }

    /** vring_new_virtqueue_packed, over zeroed pages; indirect holds the pages that callers
        will offer for indirect tables. */
    constructor (num: nat, eventSuppression: bool, indirect: map<nat, seq<Desc>>)
      requires QueueSize(num)
      ensures Valid() && this.num == num && this.eventSuppression == eventSuppression
      ensures ring == Initial(num, indirect) && numFree == num && driver == device == Event(0, EVENT_ENABLE)
      ensures vq.nextAvailIdx == 0 && vq.lastUsedIdx == 0 && vq.numAdded == 0
      ensures vq.availFlag && !vq.usedFlag && vq.availWrapCounter && vq.usedWrapCounter
    {
      this.num := num;
      this.eventSuppression := eventSuppression;
      var zero := Desc(0, 0, 0, Flags(false, false, false, false, false));
      desc := new Desc[num](_ => zero);
      state := new DescState[num](_ => DescState(0, 0, 0, 0));
      tables := indirect;
      driver, device := Event(0, 0), Event(0, 0);
      numFree, freeHead := num, 0;
      vq := Counters(
        nextAvailIdx := 0, availFlag := true, usedFlag := false, availWrapCounter := true,
        lastUsedIdx := 0, usedWrapCounter := true, numAdded := 0, eventFlagsShadow := 0);
      ring := Initial(num, indirect);
      pool := Fresh(num);
      new;
      hide RingOk, StatesOk, PoolOk, Fresh;
      var i := 0;
      while i < num - 1
        modifies state
        invariant 0 <= i <= num - 1
        invariant forall k :: 0 <= k < num ==> state[k] == DescState(0, 0, if k < i then k + 1 else 0, 0)
      {
        state[i] := state[i].(next := i + 1);
        i := i + 1;
      }
      InitialOk(num, indirect);
      FreshOk(num);
      InitialStates(num, state[..]);
      assert ring.desc == desc[..];
    }

    /** The device takes any number of steps. */
    method DeviceRuns()
      requires Shared()
      modifies this`ring, this`device, desc
      ensures Shared() && Rely(old(ring), ring)
    {
      ghost var r0 := ring;
      var steps: nat := *;
      while steps > 0
        invariant Shared() && Rely(r0, ring)
      {
        var act: Act := *;
        if DeviceAct(act) && Can(ring, act) {
          DeviceStep(act, r0);
        }
        steps := steps - 1;
      }
    }

    method DeviceStep(act: Act, ghost r0: Ring)
      requires Shared() && Shape(ring) && DeviceAct(act) && Can(ring, act) && Rely(r0, ring)
      modifies this`ring, this`device, desc
      ensures Shared() && Rely(r0, ring) && ring == Do(old(ring), act)
    {
      hide RingOk, Do, Can, Same, Rely, DeviceAct;
      DeviceStepRely(ring, act);
      DeviceStores(ring, act);
      RelyTrans(r0, ring, Do(ring, act));
      RelyFields(ring, Do(ring, act));
      var slot := Slot(ring.v, num);
      ring := Do(ring, act);
      if act.Complete? {
        desc[slot] := ring.desc[slot];
      }
      device := ring.deviceEvent;
    }

    /** One store to a descriptor that is not published, after which the device runs. */
    method Store1(slot: nat, k: nat, d: Desc)
      requires Shared() && Shape(ring) && ring.a + k < ring.u + num && slot == Slot(ring.a + k, num)
      requires k == 0 ==> d.flags == desc[slot].flags
      modifies this`ring, this`device, desc
      ensures Shared() && Wrote(old(ring), ring, k, d) && desc[slot] == d
    {
      hide RingOk, Can, Do, Rely, Stable, Wrote, Wrap;
      ghost var r := ring;
      PokeStores(ring, k, d);
      desc[slot] := d;
      ring := Do(ring, Poke(k, d));
      DeviceRuns();
      PokeWrote(r, k, d, ring);
    }

    /** The addr, len and id of one descriptor, stored one after the other. */
    method StoreBody(slot: nat, k: nat, addr: nat, len: nat, id: nat)
      requires Shared() && Shape(ring) && ring.a + k < ring.u + num && slot == Slot(ring.a + k, num)
      modifies this`ring, this`device, desc
      ensures Shared() && Wrote(old(ring), ring, k, Desc(addr, len, id, old(desc[slot].flags)))
      ensures desc[slot] == Desc(addr, len, id, old(desc[slot].flags))
    {
      hide RingOk, Wrote;
      ghost var r := ring;
      Store1(slot, k, desc[slot].(addr := addr));
      ghost var r1 := ring;
      WroteKeeps(r, r1, k, desc[slot]);
      Store1(slot, k, desc[slot].(len := len));
      ghost var r2 := ring;
      WroteKeeps(r1, r2, k, desc[slot]);
      WroteTwice(r, r1, r2, k, Desc(addr, r.desc[slot].len, r.desc[slot].id, r.desc[slot].flags), desc[slot]);
      Store1(slot, k, desc[slot].(id := id));
      WroteTwice(r, r2, ring, k, Desc(addr, len, r.desc[slot].id, r.desc[slot].flags), desc[slot]);
    }

    /** One round of the loop that writes a direct chain; the first descriptor's flags wait. */
    method StoreDirect(slot: nat, n: nat, id: nat, b: Buffer, flags: Flags)
      requires Shared() && Shape(ring) && ring.a + n < ring.u + num && slot == Slot(ring.a + n, num)
      requires n < |b.sg| && b.table.None? && b.n == |b.sg| && Prefix(ring, id, b, n)
      requires flags == DirectFlags(b, n, Wrap(ring.a + n, num), !Wrap(ring.a + n, num))
      modifies this`ring, this`device, desc
      ensures Shared() && Shape(ring) && Stable(old(ring), ring) && ring.tables == old(ring.tables)
      ensures Prefix(ring, id, b, n + 1) && ring.w == Max(old(ring.w), n + 1)
    {
      hide RingOk, Wrote, Prefix, Wrap;
      ghost var r := ring;
      StoreBody(slot, n, b.sg[n].addr, b.sg[n].len, id);
      ghost var r1 := ring;
      WroteKeeps(r, r1, n, desc[slot]);
      if n != 0 {
        Store1(slot, n, desc[slot].(flags := flags));
        WroteTwice(r, r1, ring, n, r1.desc[slot], desc[slot]);
        WroteKeeps(r, ring, n, desc[slot]);
        PrefixGrows(r, ring, id, b, n, flags);
      } else {
        PrefixGrows(r, ring, id, b, n, r.desc[slot].flags);
      }
    }

    /** The store of the head's flags that makes buffer b available. */
    method PublishHead(slot: nat, id: nat, b: Buffer, flags: Flags, ghost r0: Ring)
      requires Shared() && Shape(ring) && Stable(r0, ring) && slot == Slot(ring.a, num) && Can(ring, Publish(id, b, flags))
      modifies this`ring, this`device, desc
      ensures Shared() && Shape(ring) && Extended(r0, ring, id, b)
    {
      hide RingOk, Can, Do, Rely, Stable, Extended;
      ghost var r := ring;
      PublishStores(ring, id, b, flags);
      desc[slot] := desc[slot].(flags := flags);
      ring := Do(ring, Publish(id, b, flags));
      DeviceRuns();
      PublishExtended(r0, r, id, b, flags, ring);
    }

    /** Steps to the next slot; the flag bits flip when the ring wraps. */
    method NextSlot(i: nat, ghost p: nat) returns (i': nat)
      requires 0 < num <= 0x8000 && i == Slot(p, num) && vq.availFlag == Wrap(p, num) && vq.usedFlag == !Wrap(p, num)
      modifies this`vq
      ensures i' == Slot(p + 1, num)
      ensures vq == old(vq).(availFlag := Wrap(p + 1, num), usedFlag := !Wrap(p + 1, num))
    {
      SlotAdvance(p, 1, num);
      i' := i + 1;
      if i' >= num {
        i' := 0;
        vq := vq.(availFlag := !vq.availFlag, usedFlag := !vq.usedFlag);
      }
    }

    /** One descriptor of a direct chain. */
    method StoreNth(slot: nat, n: nat, id: nat, b: Buffer, ghost r: Ring) returns (flags: Flags)
      requires Shared() && Shape(ring) && ring.a + n < ring.u + num && slot == Slot(ring.a + n, num) && ring.w == n
      requires n < |b.sg| && b.table.None? && b.n == |b.sg| && Prefix(ring, id, b, n)
      requires Stable(r, ring) && ring.tables == r.tables
      requires vq.availFlag == Wrap(ring.a + n, num) && vq.usedFlag == !Wrap(ring.a + n, num)
      modifies this`ring, this`device, desc
      ensures Shared() && Shape(ring) && Stable(r, ring) && ring.tables == r.tables && ring.a == r.a && ring.u == r.u
      ensures Prefix(ring, id, b, n + 1) && ring.w == n + 1
      ensures flags == DirectFlags(b, n, vq.availFlag, vq.usedFlag)
    {
      hide RingOk, Wrap, Prefix, Slot, Shape;
      ghost var s := ring;
      flags := Flags(n != |b.sg| - 1, n >= b.out, false, vq.availFlag, vq.usedFlag);
      StoreDirect(slot, n, id, b, flags);
      StableTrans(r, s, ring);
    }

    /** The loop over a direct chain: returns the slot after it, the free list's next node, the
        chain's last node and the flags the head is to get. */
    method StoreChain(id: nat, b: Buffer) returns (i: nat, curr: nat, prev: nat, headFlags: Flags)
      requires Shared() && Shape(ring) && ring.w == 0 && BufferOk(b) && b.table.None?
      requires state.Length == num && StatesOk(num, state[..], freeHead, numFree, pool, ring.bufs)
      requires id == freeHead && b.n <= numFree && ring.a + b.n <= ring.u + num
      requires Below(pool.free, |pool.next|) && b.n <= |pool.free| && freeHead == FreeAt(pool, 0)
      requires vq.nextAvailIdx == Slot(ring.a, num) && vq.availFlag == Wrap(ring.a, num) && vq.usedFlag == !Wrap(ring.a, num)
      modifies this`ring, this`device, this`vq, desc
      ensures Shared() && Shape(ring) && Stable(old(ring), ring) && ring.tables == old(ring.tables)
      ensures Prefix(ring, id, b, b.n) && ring.w == b.n
      ensures i == Slot(ring.a + b.n, num)
      ensures vq == old(vq).(availFlag := Wrap(ring.a + b.n, num), usedFlag := !Wrap(ring.a + b.n, num))
      ensures curr == FreeAt(pool, b.n) && prev == pool.free[b.n - 1]
      ensures headFlags == DirectFlags(b, 0, Wrap(ring.a, num), !Wrap(ring.a, num))
    {
      hide RingOk, StatesOk, Wrap, Prefix, FreeAt, Slot, Below, Stable;
      assert b.n == |b.sg| && 0 < num <= 0x8000;
      hide Shape;
      ghost var r := ring;
      StableRefl(r);
      ghost var st := state[..];
      i, curr, prev := vq.nextAvailIdx, id, id;
      headFlags := Flags(false, false, false, false, false);
      var n := 0;
      PrefixEmpty(ring, id, b);
      while n < |b.sg|
        modifies this`ring, this`device, this`vq, desc
        invariant 0 <= n <= |b.sg|
        invariant Shared() && Shape(ring) && Stable(r, ring) && ring.tables == r.tables
        invariant ring.a == r.a && ring.u == r.u && ring.w == n && Prefix(ring, id, b, n)
        invariant i == Slot(ring.a + n, num)
        invariant vq == old(vq).(availFlag := Wrap(ring.a + n, num), usedFlag := !Wrap(ring.a + n, num))
        invariant curr == FreeAt(pool, n)
        invariant n > 0 ==> prev == pool.free[n - 1]
        invariant n > 0 ==> headFlags == DirectFlags(b, 0, Wrap(r.a, num), !Wrap(r.a, num))
      {
        var flags := StoreNth(i, n, id, b, r);
        if n == 0 {
          headFlags := flags;
        }
        FreeStep(num, st, freeHead, numFree, pool, r.bufs, n);
        prev := curr;
        curr := state[curr].next;
        i := NextSlot(i, r.a + n);
        n := n + 1;
      }
    }

    /** Takes the buffer's nodes off the free list and stores its token. */
    method StoreToken(id: nat, b: Buffer, curr: nat, prev: nat, ghost bufs: map<nat, Buffer>)
      requires state.Length == num && StatesOk(num, state[..], freeHead, numFree, pool, bufs)
      requires id == freeHead < num && 1 <= b.n <= numFree == |pool.free| && b.token != 0
      requires Below(pool.free, |pool.next|) && curr == FreeAt(pool, b.n) && prev == pool.free[b.n - 1]
      modifies this`freeHead, this`numFree, this`pool, state
      ensures StatesOk(num, state[..], freeHead, numFree, pool, bufs[id := b])
      ensures numFree == old(numFree) - b.n
    {
      hide StatesOk, FreeAt, Below, Take;
      ghost var p, st := pool, state[..];
      TakeStates(num, st, freeHead, numFree, p, bufs, b.n, b);
      numFree := numFree - b.n;
      freeHead := curr;
      state[id] := state[id].(num := b.n);
      state[id] := state[id].(data := b.token);
      state[id] := state[id].(last := prev);
      pool := Take(p, b.n);
      assert state[..] == st[id := DescState(b.token, b.n, st[id].next, prev)];
    }

    /** The counters after a direct chain that ends before slot i. */
    method ChainEnd(head: nat, i: nat, ghost d: Counters, ghost r: Ring, b: Buffer)
      requires r.num > 0 && b.table.None? && b.n == |b.sg| && head == d.nextAvailIdx && i == Slot(r.a + b.n, r.num)
      requires vq == d.(availFlag := Wrap(r.a + b.n, r.num), usedFlag := !Wrap(r.a + b.n, r.num))
      modifies this`vq
      ensures vq == CountersAfter(d, r, b)
    {
      if i < head {
        vq := vq.(availWrapCounter := !vq.availWrapCounter);
      }
      vq := vq.(nextAvailIdx := i);
      vq := vq.(numAdded := U32(vq.numAdded + |b.sg|));
    }

    /** The direct branch of add_buf. */
    method AddDirect(b: Buffer)
      requires Shared() && Shape(ring) && ring.w == 0 && BufferOk(b) && b.table.None?
      requires state.Length == num && StatesOk(num, state[..], freeHead, numFree, pool, ring.bufs)
      requires b.n <= numFree == |pool.free| && ring.a + numFree == ring.u + num
      requires Below(pool.free, |pool.next|) && freeHead == FreeAt(pool, 0) < num && freeHead !in ring.bufs
      requires vq.nextAvailIdx == Slot(ring.a, num) && vq.availFlag == Wrap(ring.a, num) && vq.usedFlag == !Wrap(ring.a, num)
      requires b.serial == |ring.added| && b.pos == ring.a
      modifies this, desc, state
      ensures Shared() && Shape(ring) && Extended(old(ring), ring, old(freeHead), b)
      ensures numFree == old(numFree) - b.n
      ensures StatesOk(num, state[..], freeHead, numFree, pool, old(ring.bufs)[old(freeHead) := b])
      ensures vq == CountersAfter(old(vq), old(ring), b)
    {
      hide RingOk, StatesOk, Wrap, Slot, Prefix, FreeAt, Below, Stable, Extended, Can, U32, CountersAfter;
      ghost var r, d := ring, vq;
      var head, id := vq.nextAvailIdx, freeHead;
      var i, curr, prev, headFlags := StoreChain(id, b);
      StableFields(r, ring);
      DirectPublishable(ring, id, b);
      ChainEnd(head, i, d, r, b);
      StoreToken(id, b, curr, prev, r.bufs);
      PublishHead(head, id, b, headFlags, r);
    }

    /** One store into an indirect table that no outstanding buffer uses. */
    method StoreEntry(t: nat, i: nat, d: Desc)
      requires Shared() && Shape(ring) && TableFree(ring, t) && t in tables && i < |tables[t]|
      modifies this`ring, this`device, this`tables, desc
      ensures Shared() && TableWrote(old(ring), ring)
      ensures tables == old(tables)[t := old(tables)[t][i := d]]
    {
      hide RingOk, Can, Do, Rely, TableFree, TableWrote;
      ghost var r := ring;
      var page := tables[t][i := d];
      TableStores(ring, t, page);
      tables := tables[t := page];
      ring := Do(ring, PokeTable(t, page));
      DeviceRuns();
      TablePoked(r, t, page, ring);
    }

    /** The loop that fills an indirect table. */
    method StoreTable(t: nat, sg: seq<Sg>, out: nat)
      requires Shared() && Shape(ring) && TableFree(ring, t) && t in tables && |sg| <= |tables[t]|
      modifies this`ring, this`device, this`tables, desc
      ensures Shared() && TableWrote(old(ring), ring)
      ensures t in tables && TableHolds(tables[t], sg, out)
    {
      hide RingOk, TableFree, TableWrote;
      ghost var r := ring;
      TableWroteRefl(r);
      var i := 0;
      while i < |sg|
        modifies this`ring, this`device, this`tables, desc
        invariant 0 <= i <= |sg|
        invariant Shared() && TableWrote(r, ring)
        invariant t in tables && |sg| <= |tables[t]|
        invariant TableHolds(tables[t], sg[..i], out)
      {
        StoreElement(t, i, sg[i], i >= out, r);
        i := i + 1;
      }
      assert sg[..i] == sg;
    }

    method StoreElement(t: nat, i: nat, e: Sg, write: bool, ghost r: Ring)
      requires Shared() && TableWrote(r, ring) && TableFree(r, t) && t in tables && i < |tables[t]|
      modifies this`ring, this`device, this`tables, desc
      ensures Shared() && TableWrote(r, ring)
      ensures tables.Keys == old(tables.Keys) && |tables[t]| == |old(tables[t])|
      ensures forall k :: 0 <= k < |tables[t]| && k != i ==> tables[t][k] == old(tables[t][k])
      ensures SegmentOf(tables[t][i]) == Segment(e.addr, e.len, write)
      ensures tables[t][i].flags == Flags(false, write, false, false, false)
    {
      hide RingOk, TableFree, TableWrote;
      ghost var s := ring;
      TableWroteFields(r, s, t);
      StoreEntry(t, i, tables[t][i].(flags := Flags(false, write, false, false, false)));
      TableWroteTrans(r, s, ring);
      TableWroteFields(r, ring, t);
      s := ring;
      StoreEntry(t, i, tables[t][i].(addr := e.addr));
      TableWroteTrans(r, s, ring);
      TableWroteFields(r, ring, t);
      s := ring;
      StoreEntry(t, i, tables[t][i].(len := e.len));
      TableWroteTrans(r, s, ring);
    }

    /** The counters after an indirect descriptor. */
    method NextHead(ghost r: Ring, ghost b: Buffer)
      requires r.num == num > 0 && b.n == 1 && b.table.Some?
      requires vq.nextAvailIdx == Slot(r.a, num) && vq.availFlag == Wrap(r.a, num) && vq.usedFlag == !Wrap(r.a, num)
      modifies this`vq
      ensures vq == CountersAfter(old(vq), r, b)
    {
      SlotAdvance(r.a, 1, num);
      var head := vq.nextAvailIdx + 1;
      if head >= num {
        head := 0;
        vq := vq.(availWrapCounter := !vq.availWrapCounter, availFlag := !vq.availFlag, usedFlag := !vq.usedFlag);
      }
      vq := vq.(nextAvailIdx := head, numAdded := U32(vq.numAdded + 1));
    }

    /** The indirect branch of add_buf. */
    method AddIndirect(b: Buffer)
      requires Shared() && Shape(ring) && ring.w == 0 && BufferOk(b) && b.table.Some?
      requires TableFree(ring, b.table.value) && b.table.value in tables && |b.sg| <= |tables[b.table.value]|
      requires state.Length == num && StatesOk(num, state[..], freeHead, numFree, pool, ring.bufs)
      requires 1 <= numFree == |pool.free| && ring.a + numFree == ring.u + num
      requires Below(pool.free, |pool.next|) && freeHead == FreeAt(pool, 0) < num && freeHead !in ring.bufs
      requires vq.nextAvailIdx == Slot(ring.a, num) && vq.availFlag == Wrap(ring.a, num) && vq.usedFlag == !Wrap(ring.a, num)
      requires b.serial == |ring.added| && b.pos == ring.a
      modifies this, desc, state
      ensures Shared() && Shape(ring) && Extended(old(ring), ring, old(freeHead), b)
      ensures numFree == old(numFree) - 1
      ensures StatesOk(num, state[..], freeHead, numFree, pool, old(ring.bufs)[old(freeHead) := b])
      ensures vq == CountersAfter(old(vq), old(ring), b)
    {
      hide RingOk, StatesOk, Wrap, Slot, FreeAt, Below, Stable, Extended, Can, U32, TableFree, TableWrote, TableHolds, Wrote, CountersAfter;
      ghost var r, d := ring, vq;
      var head, id, t := vq.nextAvailIdx, freeHead, b.table.value;
      StoreTable(t, b.sg, b.out);
      TableWroteFields(r, ring, t);
      ghost var r1 := ring;
      StoreBody(head, 0, t, 16 * |b.sg|, id);
      WroteKeeps(r1, ring, 0, desc[head]);
      StableTrans(r, r1, ring);
      TableFreeStable(r, ring, t);
      IndirectPublishable(ring, id, b);
      PublishHead(head, id, b, Flags(false, false, true, vq.availFlag, vq.usedFlag), r);
      NextHead(r, b);
      FreeStep(num, state[..], freeHead, numFree, pool, r.bufs, 0);
      StoreToken(id, b, state[id].next, id, r.bufs);
    }

    /** virtqueue_add_buf_packed. A table is given by its physical address; the caller owns it
        and, as for the 16-bit loop counter of the source, keeps it below 65536 entries. */
    method AddBuf(sg: seq<Sg>, out: nat, token: nat, indirect: Option<nat>) returns (ok: bool)
      requires Valid()
      requires |sg| >= 1 && out <= |sg| && token != 0
      requires indirect.Some? ==>
                 |sg| < 0x1_0000 && TableFree(ring, indirect.value) &&
                 indirect.value in tables && |sg| <= |tables[indirect.value]|
      modifies this, desc, state
      ensures Valid()
      ensures ok <==> (if indirect.Some? && old(numFree) > 0 then 1 else |sg|) <= old(numFree)
      ensures !ok ==> ring == old(ring) && numFree == old(numFree)
      ensures ok ==>
                var table := if old(numFree) > 0 then indirect else None;
                var n := if table.Some? then 1 else |sg|;
                && Extended(old(ring), ring, old(freeHead),
                            Buffer(|old(ring.added)|, token, sg, out, table, old(ring.a), n))
                && numFree == old(numFree) - n
    {
      hide RingOk, StatesOk, Wrap, Slot, FreeAt, Below, Extended, CountersOk, CountersAfter, TableFree;
      AddStart(vq, ring, num, state[..], freeHead, numFree, pool);
      ghost var r, d := ring, vq;
      var id := freeHead;
      assert |sg| != 0 && id < num; // the two BUG_ON checks
      var b: Buffer;
      if indirect.Some? && numFree > 0 {
        b := Buffer(|ring.added|, token, sg, out, indirect, ring.a, 1);
        AddIndirect(b);
      } else {
        if numFree < |sg| {
          return false;
        }
        b := Buffer(|ring.added|, token, sg, out, None, ring.a, |sg|);
        AddDirect(b);
      }
      AddEnd(d, r, ring, id, b);
      ok := true;
    }

    /** detach_buf_packed: the buffer's nodes go back to the free list. */
    method DetachBuf(id: nat, ghost bufs: map<nat, Buffer>)
      requires state.Length == num && StatesOk(num, state[..], freeHead, numFree, pool, bufs) && id in bufs && id < num
      modifies this`freeHead, this`numFree, this`pool, state
      ensures StatesOk(num, state[..], freeHead, numFree, pool, bufs - {id})
      ensures numFree == old(numFree) + old(state[id].num) && state[id].num == old(state[id].num)
    {
      hide StatesOk;
      ghost var p, st := pool, state[..];
      PutStates(num, st, freeHead, numFree, p, bufs, id);
      state[id] := state[id].(data := 0);
      var last := state[id].last;
      state[last] := state[last].(next := freeHead);
      freeHead := id;
      numFree := numFree + state[id].num;
      pool := Put(p, id);
      ghost var st1 := st[id := st[id].(data := 0)];
      assert state[..] == st1[last := st1[last].(next := old(freeHead))];
    }

    /** Stores the driver's event structure; the device runs after it. */
    method StoreEvent(ev: Event)
      requires Shared()
      modifies this`ring, this`device, this`driver, desc
      ensures Shared() && driver == ev && Shape(ring)
      ensures Undisturbed(old(ring), ring) && ring.w == old(ring.w) && ring.armed == None
    {
      hide RingOk, Can, Do, Rely;
      SetEventStep(ring, ev);
      ghost var r := Do(ring, SetEvent(ev));
      driver := ev;
      ring := Do(ring, SetEvent(ev));
      DeviceRuns();
      RelyProgress(r, ring);
    }

    /** Reads and reclaims the next used entry. */
    method TakeUsed() returns (token: nat, len: nat)
      requires Valid() && ring.u < ring.v && ring.returned < |ring.done|
      modifies this, desc, state
      ensures Valid() && vq.eventFlagsShadow == old(vq.eventFlagsShadow) && driver == old(driver)
      ensures Returned1(old(ring), ring, token, len)
    {
      hide RingOk, StatesOk, Wrap, Slot, CountersOk, Rely, Can, Do, Returned1;
      ghost var r := ring;
      DeviceRuns(); // a barrier, after the poll
      RelyProgress(r, ring);
      SameCounters(vq, r, ring);
      PollExact(vq, ring);
      ghost var s, d := ring, vq;
      var id := desc[vq.lastUsedIdx].id;
      len := desc[vq.lastUsedIdx].len;
      OldestCompletion(s);
      ReclaimAt(s);
      StateFacts(num, state[..], freeHead, numFree, pool, s.bufs, id);
      assert id < num; // the first BAD_RING check
      assert state[id].data != 0; // the second
      token := state[id].data;
      DetachBuf(id, s.bufs);
      ring := Do(ring, Reclaim);
      ReclaimReturns(r, s, ring, token, len);
      var next := vq.lastUsedIdx + state[id].num;
      vq := if next >= num
        then vq.(lastUsedIdx := next - num, usedWrapCounter := !vq.usedWrapCounter)
        else vq.(lastUsedIdx := next);
      ReclaimCounters(d, s, ring, state[id].num);
    }

    /** virtqueue_get_buf_packed: returns the completions in the order in which the device
        published them; token 0 stands for NULL. While callbacks are on, each one returned moves the
        driver's event to the next used entry. */
    method GetBuf() returns (token: nat, len: nat)
      requires Valid()
      modifies this, desc, state
      ensures Valid() && vq.eventFlagsShadow == old(vq.eventFlagsShadow)
      ensures token != 0 <==> old(ring.returned < |ring.done|)
      ensures token == 0 ==> ring == old(ring) && numFree == old(numFree)
      ensures token != 0 ==> Returned1(old(ring), ring, token, len)
      ensures token != 0 && driver.flags != EVENT_DISABLE ==> AsksFor(driver, ring.u, num)
      ensures token == 0 || vq.eventFlagsShadow != EVENT_DESC ==> driver == old(driver)
    {
      hide RingOk, StatesOk, Wrap, Slot, CountersOk, Rely;
      PollExact(vq, ring);
      token, len := 0, 0;
      if IsUsedDesc(desc[..], vq.lastUsedIdx, vq.usedWrapCounter) {
        token, len := TakeUsed();
        ShadowIs(vq, ring);
        if vq.eventFlagsShadow == EVENT_DESC {
          UsedOffWrap(vq, ring);
          ghost var r := ring;
          StoreEvent(driver.(offWrap := EventOf(vq.lastUsedIdx, vq.usedWrapCounter)));
          SameCounters(vq, r, ring);
        }
      }
    }

    /** virtqueue_disable_cb_packed. */
    method DisableCb()
      requires Valid()
      modifies this, desc
      ensures Valid() && vq.eventFlagsShadow == EVENT_DISABLE == driver.flags
      ensures Undisturbed(old(ring), ring) && numFree == old(numFree)
    {
      hide RingOk, StatesOk, CountersOk, Rely;
      ShadowIs(vq, ring);
      if vq.eventFlagsShadow != EVENT_DISABLE {
        ghost var r, d := ring, vq;
        vq := vq.(eventFlagsShadow := EVENT_DISABLE);
        StoreEvent(driver.(flags := vq.eventFlagsShadow));
        EventCounters(d, r, ring, EVENT_DISABLE);
      }
    }

    /** The event stores of both enable_cb operations: ask for an interrupt at position e. */
    method AskForEvent(offWrap: nat, ghost e: nat)
      requires Valid() && offWrap == OffWrap(e, num)
      modifies this, desc
      ensures Valid() && AsksFor(ring.driverEvent, e, num) && vq.lastUsedIdx == old(vq.lastUsedIdx)
      ensures vq.usedWrapCounter == old(vq.usedWrapCounter)
      ensures Undisturbed(old(ring), ring) && numFree == old(numFree)
    {
      hide RingOk, StatesOk, CountersOk, Rely, OffWrap;
      if eventSuppression {
        ghost var r := ring;
        StoreEvent(driver.(offWrap := offWrap));
        SameCounters(vq, r, ring);
      }
      ShadowIs(vq, ring);
      if vq.eventFlagsShadow == EVENT_DISABLE {
        ghost var r, d := ring, vq;
        vq := vq.(eventFlagsShadow := if eventSuppression then EVENT_DESC else EVENT_ENABLE);
        StoreEvent(driver.(flags := vq.eventFlagsShadow));
        EventCounters(d, r, ring, vq.eventFlagsShadow);
      }
    }

    /** The last look at the ring before enable_cb returns; if nothing is there, the driver is armed. */
    method PollAndArm(e: nat) returns (drained: bool)
      requires Valid() && AsksFor(ring.driverEvent, e, num) && ring.u <= e
      modifies this`ring, this`device, desc
      ensures Valid() && Undisturbed(old(ring), ring)
      ensures drained ==> ring.armed == Some(e)
      ensures !drained ==> ring.u < ring.v
      ensures AsksFor(ring.driverEvent, e, num)
    {
      hide RingOk, StatesOk, CountersOk, Rely, OffWrap, Slot, Wrap, Can, Do;
      ghost var r := ring;
      DeviceRuns(); // a barrier
      RelyProgress(r, ring);
      SameCounters(vq, r, ring);
      PollExact(vq, ring);
      drained := !IsUsedDesc(desc[..], vq.lastUsedIdx, vq.usedWrapCounter);
      if drained {
        ghost var s := ring;
        ArmStepAt(ring, e);
        ring := Do(ring, Arm(e));
        SameCounters(vq, s, ring);
      }
    }

    /** virtqueue_enable_cb_packed. If it returns true the driver is armed for the next used entry;
        the ring's invariant then rules out a completion without an interrupt. */
    method EnableCb() returns (drained: bool)
      requires Valid()
      modifies this, desc
      ensures Valid() && Undisturbed(old(ring), ring) && numFree == old(numFree)
      ensures AsksFor(driver, ring.u, num)
      ensures drained ==> ring.armed == Some(ring.u)
      ensures !drained ==> ring.u < ring.v
    {
      hide RingOk, StatesOk, CountersOk, Rely, OffWrap;
      PollExact(vq, ring);
      UsedOffWrap(vq, ring);
      ghost var r := ring;
      AskForEvent(EventOf(vq.lastUsedIdx, vq.usedWrapCounter), r.u);
      drained := PollAndArm(ring.u);
    }

    /** virtqueue_enable_cb_delayed_packed: with event suppression the interrupt is asked for after
        three quarters of the descriptors in use. */
    method EnableCbDelayed() returns (drained: bool)
      requires Valid()
      modifies this, desc
      ensures Valid() && Undisturbed(old(ring), ring) && numFree == old(numFree)
      ensures AsksFor(driver, ring.u + if eventSuppression then (ring.a - ring.u) * 3 / 4 else 0, num)
      ensures drained ==> ring.armed == Some(ring.u + if eventSuppression then (ring.a - ring.u) * 3 / 4 else 0)
      ensures !drained ==> ring.u < ring.v
    {
      hide RingOk, StatesOk, CountersOk, Rely, OffWrap;
      var bufs := if eventSuppression then (num - numFree) * 3 / 4 else 0;
      var offWrap := LaterEvent(bufs);
      AskForEvent(offWrap, ring.u + bufs);
      drained := PollAndArm(ring.u + bufs);
    }

    /** The event field for the position bufs after the next used entry. */
    method LaterEvent(bufs: nat) returns (offWrap: nat)
      requires Shape(ring) && ring.num == num && CountersOk(vq, ring) && bufs <= num
      ensures offWrap == OffWrap(ring.u + bufs, num)
    {
      var usedIdx, wrap := vq.lastUsedIdx + bufs, vq.usedWrapCounter;
      LaterOffWrap(vq, ring, bufs);
      if usedIdx >= num {
        usedIdx := usedIdx - num;
        wrap := !wrap;
      }
      offWrap := EventOf(usedIdx, wrap);
    }

    /** virtqueue_kick_prepare_packed: its decision is the one of the state s it looks at, after
        which a device asleep behind the ring's end has been kicked, kicks being exact. */
    method KickPrepare() returns (notify: bool, ghost s: Ring)
      requires Valid()
      modifies this, desc
      ensures Valid() && numFree == old(numFree) && vq == old(vq).(numAdded := 0)
      ensures Rely(old(ring), s) && notify == DriverKicks(s)
      ensures ring == s.(lastKick := s.a, kicked := s.kicked || notify, kicksExact := s.kicksExact && KickExact(s))
      ensures ring.kicksExact && ring.asleep && ring.c < ring.a ==> ring.kicked
      ensures s.num == num && s.lastKick <= s.a
      ensures s.deviceEvent.flags == EVENT_DISABLE ==> !notify
      ensures s.deviceEvent.flags != EVENT_DISABLE && s.deviceEvent.flags != EVENT_DESC ==> notify
      ensures s.deviceEvent.flags == EVENT_DESC ==>
                forall e: nat :: e <= s.a <= e + num && OffWrap(e, num) == s.deviceEvent.offWrap ==> (notify <==> Announces(s, e))
    {
      hide RingOk, StatesOk, CountersOk, Rely, Can, Do, DriverKicks, KickDecision, Announces;
      ghost var r := ring;
      DeviceRuns(); // a barrier
      RelyProgress(r, ring);
      SameCounters(vq, r, ring);
      s := ring;
      ghost var d := vq;
      KickStep(s);
      KickRoom(s);
      KickMeans(s);
      notify := KickDecision(num, vq.nextAvailIdx, vq.availWrapCounter, vq.numAdded, device);
      vq := vq.(numAdded := 0);
      ring := Do(ring, Kick);
      KickCounters(d, s, ring);
      Kicked(ring);
    }

    /** virtqueue_detach_unused_buf_packed, for a device that no longer uses the ring: takes out the
        outstanding buffer with the lowest id, or returns 0 when all descriptors are free again. */
    method DetachUnusedBuf(ghost bufs: map<nat, Buffer>) returns (token: nat, ghost id: nat)
      requires num > 0 && state.Length == num && StatesOk(num, state[..], freeHead, numFree, pool, bufs)
      modifies this`freeHead, this`numFree, this`pool, state
      ensures token == 0 ==> bufs == map[] && numFree == num && StatesOk(num, state[..], freeHead, numFree, pool, bufs)
      ensures token != 0 ==> id in bufs && token == bufs[id].token && forall k :: k in bufs ==> id <= k
      ensures token != 0 ==> StatesOk(num, state[..], freeHead, numFree, pool, bufs - {id})
    {
      hide StatesOk;
      id := 0;
      var i := 0;
      while i < num
        invariant 0 <= i <= num
        invariant StatesOk(num, state[..], freeHead, numFree, pool, bufs)
        invariant forall k: nat :: k < i ==> k !in bufs
      {
        DataTells(num, state[..], freeHead, numFree, pool, bufs, i);
        if state[i].data != 0 {
          token := state[i].data;
          id := i;
          DetachBuf(i, bufs);
          return;
        }
        i := i + 1;
      }
      StatesBound(num, state[..], freeHead, numFree, pool, bufs);
      assert bufs == map[];
      AllFree(num, state[..], freeHead, numFree, pool);
      assert numFree == num; // the BUG_ON check
      token := 0;
    }

    /** Teardown calls detach_unused_buf until it returns NULL: every outstanding token comes back
        once and every descriptor is free. */
    method DrainUnused(ghost bufs: map<nat, Buffer>) returns (taken: seq<nat>, ghost ids: seq<nat>)
      requires num > 0 && state.Length == num && StatesOk(num, state[..], freeHead, numFree, pool, bufs)
      modifies this`freeHead, this`numFree, this`pool, state
      ensures numFree == num && StatesOk(num, state[..], freeHead, numFree, pool, map[])
      ensures |taken| == |ids| && multiset(ids) == multiset(bufs.Keys)
      ensures forall k :: 0 <= k < |ids| ==> ids[k] in bufs && taken[k] == bufs[ids[k]].token
    {
      hide StatesOk, Drained;
      taken, ids := [], [];
      ghost var left := bufs;
      DrainedStart(bufs);
      var token := 1;
      while token != 0
        invariant StatesOk(num, state[..], freeHead, numFree, pool, left)
        invariant token == 0 ==> left == map[] && numFree == num
        invariant Drained(bufs, left, taken, ids)
        decreases |left.Keys|, token
      {
        ghost var id;
        token, id := DetachUnusedBuf(left);
        if token != 0 {
          DrainedStep(bufs, left, taken, ids, id);
          taken, ids := taken + [token], ids + [id];
          left := left - {id};
        }
      }
      DrainedAll(bufs, taken, ids);
    }

    /** The same from any valid state. */
    method Teardown() returns (taken: seq<nat>, ghost ids: seq<nat>)
      requires Valid()
      modifies this`freeHead, this`numFree, this`pool, state
      ensures numFree == num
      ensures |taken| == |ids| && multiset(ids) == multiset(old(ring.bufs).Keys)
      ensures forall k :: 0 <= k < |ids| ==> ids[k] in old(ring.bufs) && taken[k] == old(ring.bufs)[ids[k]].token
    {
      hide StatesOk, CountersOk;
      taken, ids := DrainUnused(ring.bufs);
    }

    /** The inner loop of a completion handler: get_buf until it returns NULL. */
    method GetAll(ghost lo: nat, before: seq<nat>) returns (got: seq<nat>)
      requires vq.eventFlagsShadow == EVENT_DISABLE
      requires Valid() && lo + |before| == ring.returned && InOrder(ring.added, ring.done, lo, before)
      modifies this, desc, state
      ensures Valid() && before <= got && ring.added == old(ring.added) && vq.eventFlagsShadow == EVENT_DISABLE
      ensures lo + |got| == ring.returned && InOrder(ring.added, ring.done, lo, got)
      ensures old(ring.returned < |ring.done|) ==> old(ring.returned) < ring.returned
    {
      hide RingOk, StatesOk, CountersOk, Rely, Returned1, InOrder;
      got := before;
      while true
        invariant Valid() && before <= got && ring.added == old(ring.added) && vq.eventFlagsShadow == EVENT_DISABLE
        invariant lo + |got| == ring.returned && InOrder(ring.added, ring.done, lo, got)
        invariant |got| == |before| ==> ring == old(ring)
        decreases |ring.added| - ring.returned
      {
        ghost var r := ring;
        var token, len := GetBuf();
        if token == 0 {
          return;
        }
        NextInOrder(r, ring, token, len, lo, got);
        got := got + [token];
      }
    }

    /** A completion handler that leaves callbacks on: get_buf until it returns NULL. Each get_buf moved
        the event, so the driver is armed for the next completion when it stops. */
    method GetAllArmed() returns (got: seq<nat>)
      requires Valid() && AsksFor(driver, ring.u, num)
      modifies this, desc, state
      ensures Valid() && ring.armed == Some(ring.u) && ring.added == old(ring.added)
      ensures ring.returned == old(ring.returned) + |got|
      ensures InOrder(ring.added, ring.done, old(ring.returned), got)
    {
      hide RingOk, StatesOk, CountersOk, Rely, Returned1, InOrder, OffWrap, Can, Do;
      ghost var lo := ring.returned;
      got := [];
      NoneInOrder(ring);
      while true
        invariant Valid() && AsksFor(driver, ring.u, num) && ring.added == old(ring.added)
        invariant lo + |got| == ring.returned && InOrder(ring.added, ring.done, lo, got)
        invariant ring.returned <= |ring.added|
        decreases |ring.added| - ring.returned
      {
        ShadowIs(vq, ring);
        ghost var r := ring;
        var token, len := GetBuf();
        ShadowIs(vq, ring);
        MoreDone(ring);
        if token == 0 {
          break;
        }
        NextInOrder(r, ring, token, len, lo, got);
        got := got + [token];
      }
      PollExact(vq, ring);
      ghost var s := ring;
      ArmStepAt(ring, ring.u);
      ring := Do(ring, Arm(ring.u));
      SameCounters(vq, s, ring);
    }

    /** The loop of every completion handler: disable interrupts, get all buffers, enable interrupts,
        until nothing came in meanwhile. It ends, returns the completions in order, and leaves the
        driver armed for the next one. */
    method ProcessCompletions() returns (got: seq<nat>)
      requires Valid()
      modifies this, desc, state
      ensures Valid() && ring.armed == Some(ring.u) && ring.added == old(ring.added)
      ensures ring.returned == old(ring.returned) + |got|
      ensures InOrder(ring.added, ring.done, old(ring.returned), got)
    {
      hide RingOk, StatesOk, CountersOk, Rely, Returned1, InOrder, Undisturbed;
      ghost var lo := ring.returned;
      got := [];
      NoneInOrder(ring);
      var first, drained := true, false;
      while !drained
        invariant Valid() && ring.added == old(ring.added)
        invariant lo + |got| == ring.returned && InOrder(ring.added, ring.done, lo, got)
        invariant drained ==> ring.armed == Some(ring.u)
        invariant !drained && !first ==> ring.returned < |ring.done|
        invariant ring.returned <= |ring.added|
        decreases |ring.added| - ring.returned + (if first then 1 else 0), !drained
      {
        ghost var r := ring;
        DisableCb();
        UndisturbedDone(r, ring, lo, got);
        got := GetAll(lo, got);
        r := ring;
        drained := EnableCb();
        UndisturbedDone(r, ring, lo, got);
        MoreDone(ring);
        first := false;
      }
    }
  }
}
