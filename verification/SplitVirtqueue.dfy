/**
 The split virtqueue's operations, statement by statement over the arrays it updates in
 place. DeviceRuns stands between any two accesses to shared memory: the device may then
 take any number of its steps.
 */
module SplitVirtqueue {
  import opened Bits
  import opened DescPool
  import opened Ledger
  import opened Positions
  import opened SplitRing
  import opened SplitProofs
  import opened SplitDriver

  class Queue {
    const num: nat
    const eventSuppression: bool

    // shared, written by the driver
    const desc: array<Desc>
    var tables: map<nat, seq<Desc>>
    const availRing: array<nat>
    var availIdx: nat
    var noInterrupt: bool
    var usedEvent: nat
    // shared, written by the device
    const usedRing: array<Elem>
    var usedIdx: nat
    var noNotify: bool
    var availEvent: nat

    // private to the driver
    var vq: Counters
    var firstUnused: nat
    var numUnused: nat
    const tokens: array<nat>

    // bookkeeping: the ring as a whole (the memory above, the device's progress and the history) and
    // the descriptors as a pool. No result and no store depends on it; EnableCbDelayed looks at it
    // only to note that the driver now waits
    var ring: Ring
    var pool: Pool

    ghost predicate Shared()
      reads this, desc, availRing, usedRing
    {
      && RingOk(ring) && ring.num == num && ring.eventIdx == eventSuppression
      && ring.desc == desc[..] && ring.tables == tables && ring.availRing == availRing[..]
      && ring.availIdx == availIdx && ring.noInterrupt == noInterrupt && ring.usedEvent == usedEvent
      && ring.usedRing == usedRing[..] && ring.usedIdx == usedIdx
      && ring.noNotify == noNotify && ring.availEvent == availEvent
      && availRing != tokens && desc.Length == num && availRing.Length == num && usedRing.Length == num
    }

    ghost predicate Private()
      reads this, desc, tokens
    {
      && CountersOk(vq, ring) && pool.chains == ring.chains && tokens.Length == num
      && Threaded(num, desc[..], firstUnused, numUnused, tokens[..], pool, ring.log.bufs)
    }

    ghost predicate Valid()
      reads this, desc, availRing, usedRing, tokens
    {
      Shared() && Private()
    }

    /** vring_new_virtqueue_split for an accepted size, over zeroed pages. */
    constructor (num: nat, eventSuppression: bool, indirect: map<nat, seq<Desc>>)
      requires QueueSize(num) && And(num, num - 1) == 0
      ensures Valid() && this.num == num && this.eventSuppression == eventSuppression
      ensures ring == Initial(num, eventSuppression, indirect) && numUnused == num && vq == Counters(0, false, 0, 0)
      ensures availIdx == usedIdx == usedEvent == availEvent == 0 && !noInterrupt && !noNotify
      ensures fresh(desc) && fresh(availRing) && fresh(usedRing) && fresh(tokens)
    {
      this.num := num;
      this.eventSuppression := eventSuppression;
      desc := new Desc[num](_ => Desc(0, 0, false, false, false, 0));
      availRing := new nat[num](_ => 0);
      usedRing := new Elem[num](_ => Elem(0, 0));
      tokens := new nat[num](_ => 0);
      tables := indirect;
      availIdx, noInterrupt, usedEvent := 0, false, 0;
      usedIdx, noNotify, availEvent := 0, false, 0;
      vq := Counters(0, false, 0, 0);
      numUnused, firstUnused := num, 0;
      ring := Initial(num, eventSuppression, indirect);
      pool := Fresh(num);
      new;
      hide RingOk, Threaded, Fresh, PowerOfTwo;
      ThreadDescs();
      MaskTest(num);
      InitialOk(num, eventSuppression, indirect);
      InitialThreaded(num, desc[..], tokens[..]);
      assert ring.availRing == availRing[..];
      assert ring.usedRing == usedRing[..];
    }

    /** Builds the list of unused descriptors in a zeroed table. */
    method ThreadDescs()
      requires 0 < num == desc.Length
      requires forall k :: 0 <= k < num ==> desc[k] == Desc(0, 0, false, false, false, 0)
      modifies desc
      ensures desc[..] == Initial(num, eventSuppression, map[]).desc
    {
      var i := 0;
      while i < num - 1
        invariant 0 <= i <= num - 1
        invariant forall k :: 0 <= k < num ==> desc[k] == Desc(0, 0, k < i, false, false, if k < i then k + 1 else 0)
      {
        desc[i] := desc[i].(next := true);
        desc[i] := desc[i].(link := i + 1);
        i := i + 1;
      }
    }

    /** vring_new_virtqueue_split: no queue for a length that is not a power of two. */
    static method Create(num: nat, eventSuppression: bool, indirect: map<nat, seq<Desc>>) returns (q: Queue?)
      requires QueueSize(num)
      ensures q == null <==> !PowerOfTwo(num)
      ensures q != null ==> q.Valid() && q.num == num && q.ring == Initial(num, eventSuppression, indirect)
    {
      MaskTest(num);
      if And(num, num - 1) != 0 {
        return null;
      }
      q := new Queue(num, eventSuppression, indirect);
    }

    /** The device takes any number of steps. */
    method DeviceRuns()
      requires Shared()
      modifies this`ring, this`usedIdx, this`noNotify, this`availEvent, usedRing
      ensures Shared() && Rely(old(ring), ring)
    {
      ghost var r0 := ring;
      SteadyRefl(r0);
      var steps: nat := *;
      hide RingOk, Rely;
      while steps > 0
        invariant Shared() && Rely(r0, ring)
      {
        var act: Act := *;
        RingShape(ring);
        if DeviceAct(act) && Can(ring, act) {
          DeviceStep(act, r0);
        }
        steps := steps - 1;
      }
    }

    method DeviceStep(act: Act, ghost r0: Ring)
      requires Shared() && Shape(ring) && DeviceAct(act) && Can(ring, act) && Rely(r0, ring)
      modifies this`ring, this`usedIdx, this`noNotify, this`availEvent, usedRing
      ensures Shared() && Rely(r0, ring) && ring == Do(old(ring), act)
    {
      hide RingOk, Do, Can, DeviceAct, Slot, PowerOfTwo, U16;
      DeviceStepRely(ring, act);
      DeviceStores(ring, act);
      RelyTrans(r0, ring, Do(ring, act));
      var slot := Slot(ring.v, num);
      ring := Do(ring, act);
      if act.Complete? {
        usedRing[slot] := ring.usedRing[slot];
      }
      usedIdx := ring.usedIdx;
      noNotify := ring.noNotify;
      availEvent := ring.availEvent;
    }

    /** One store to a descriptor of no outstanding buffer, after which the device runs. */
    method StoreDesc(k: nat, d: Desc)
      requires Shared() && k < num && DescFree(ring, k) && desc.Length == num
      modifies this`ring, this`usedIdx, this`noNotify, this`availEvent, usedRing, desc
      ensures Shared() && Steady(old(ring), ring) && desc[..] == old(desc[..])[k := d]
      ensures ring.tables == old(ring.tables) && Asked(old(ring), ring) && ring.availRing == old(ring.availRing)
    {
      hide RingOk, Do, Can, DescFree;
      PokeIs(ring, k, d);
      desc[k] := d;
      ring := Do(ring, Poke(k, d));
      DeviceRuns();
    }

    /** get_unused_desc. */
    method GetUnusedDesc() returns (idx: nat)
      requires numUnused > 0 && firstUnused < desc.Length
      modifies this`firstUnused, this`numUnused
      ensures idx == old(firstUnused) && firstUnused == desc[idx].link && numUnused == old(numUnused) - 1
    {
      idx := firstUnused;
      firstUnused := desc[idx].link;
      numUnused := numUnused - 1;
    }

    /** The stores to one descriptor of a direct chain. */
    method StoreElement(idx: nat, e: Sg, write: bool)
      requires Shared() && idx < num == desc.Length && DescFree(ring, idx) && desc[idx].link == firstUnused
      modifies this`ring, this`usedIdx, this`noNotify, this`availEvent, usedRing, desc
      ensures Shared() && Steady(old(ring), ring) && ring.tables == old(ring.tables) && Asked(old(ring), ring)
      ensures desc[..] == old(desc[..])[idx := Desc(e.addr, e.len, true, write, false, old(desc[idx].link))]
    {
      hide RingOk, Steady, DescFree;
      ghost var r := ring;
      StoreDesc(idx, desc[idx].(addr := e.addr));
      SteadyFree(r, r, ring, idx);
      ghost var s := ring;
      StoreDesc(idx, desc[idx].(len := e.len));
      SteadyFree(r, s, ring, idx);
      s := ring;
      StoreDesc(idx, desc[idx].(next := true, write := false, indirect := false));
      SteadyFree(r, s, ring, idx);
      if write {
        s := ring;
        StoreDesc(idx, desc[idx].(write := true));
        SteadyFree(r, s, ring, idx);
      }
      s := ring;
      StoreDesc(idx, desc[idx].(link := firstUnused));
      SteadyFree(r, s, ring, idx);
    }

    /** One round of the loop over a direct chain. */
    method StoreNth(i: nat, b: Buffer, ghost desc0: seq<Desc>) returns (idx: nat)
      requires Shared() && desc.Length == num == |pool.next| && BufferOk(b) && b.table.None? && i < |b.sg| <= |pool.free|
      requires PoolOk(num, pool) && pool.chains == ring.chains && Linked(desc[..], pool) && Below(pool.free, num)
      requires firstUnused == FreeAt(pool, i) && numUnused == |pool.free| - i
      requires Filling(desc[..], pool, b, i) && Outside(desc0, desc[..], pool.free[..b.n])
      modifies this`ring, this`usedIdx, this`noNotify, this`availEvent, this`firstUnused, this`numUnused, usedRing, desc
      ensures Shared() && Steady(old(ring), ring) && ring.tables == old(ring.tables) && Asked(old(ring), ring)
      ensures idx == pool.free[i] && firstUnused == FreeAt(pool, i + 1) && numUnused == |pool.free| - i - 1
      ensures Linked(desc[..], pool) && Filling(desc[..], pool, b, i + 1) && Outside(desc0, desc[..], pool.free[..b.n])
    {
      PoolFacts(num, pool);
      hide RingOk, Steady, DescFree, PoolOk, Filling, Outside, Linked;
      FreeLink(desc[..], pool, i);
      FreeIsFree(num, pool, ring, i);
      ghost var before := desc[..];
      idx := GetUnusedDesc();
      StoreElement(idx, b.sg[i], i >= b.out);
      FillingGrows(before, desc[..], pool, b, i);
      StoredOutside(desc0, before, desc[..], pool, b.n, i);
    }

    /** The loop over a direct chain, and the end mark on its last descriptor. */
    method StoreChain(b: Buffer) returns (head: nat)
      requires Shared() && desc.Length == num == |pool.next| && BufferOk(b) && b.table.None?
      requires PoolOk(num, pool) && pool.chains == ring.chains && Linked(desc[..], pool) && Below(pool.free, num)
      requires b.n <= numUnused == |pool.free| && firstUnused == FreeAt(pool, 0)
      modifies this`ring, this`usedIdx, this`noNotify, this`availEvent, this`firstUnused, this`numUnused, usedRing, desc
      ensures Shared() && Steady(old(ring), ring) && ring.tables == old(ring.tables) && Asked(old(ring), ring)
      ensures head == pool.free[0] && firstUnused == FreeAt(pool, b.n) && numUnused == old(numUnused) - b.n
      ensures Encoded(desc[..], pool.free[..b.n], head, b) && Marked(desc[..], pool.free[..b.n]) && Linked(desc[..], pool)
      ensures Outside(old(desc[..]), desc[..], pool.free[..b.n])
    {
      hide RingOk, Steady, DescFree, PoolOk, Encoded, Marked, Filling, Outside, Linked, FreeAt;
      ghost var r, desc0 := ring, desc[..];
      ChainStart(num, desc0, pool, b, r);
      var last := firstUnused;
      head := firstUnused;
      var i := 0;
      while i < |b.sg|
        modifies this`ring, this`usedIdx, this`noNotify, this`availEvent, this`firstUnused, this`numUnused, usedRing, desc
        invariant 0 <= i <= |b.sg|
        invariant Shared() && Steady(r, ring) && ring.tables == r.tables && Asked(r, ring)
        invariant ring.chains == pool.chains
        invariant firstUnused == FreeAt(pool, i) && numUnused == |pool.free| - i
        invariant i > 0 ==> last == pool.free[i - 1]
        invariant Linked(desc[..], pool) && Filling(desc[..], pool, b, i) && Outside(desc0, desc[..], pool.free[..b.n])
      {
        ghost var s := ring;
        last := StoreNth(i, b, desc0);
        SteadyTrans(r, s, ring);
        SteadyFields(r, ring);
        i := i + 1;
      }
      MarkEnd(last, b, desc0, r);
    }

    method MarkEnd(last: nat, b: Buffer, ghost desc0: seq<Desc>, ghost r: Ring)
      requires Shared() && Steady(r, ring) && desc.Length == num == |pool.next| && BufferOk(b) && b.table.None?
      requires b.n <= |pool.free| && last == pool.free[b.n - 1]
      requires PoolOk(num, pool) && pool.chains == ring.chains && Linked(desc[..], pool) && Below(pool.free, num)
      requires Filling(desc[..], pool, b, |b.sg|) && Outside(desc0, desc[..], pool.free[..b.n])
      modifies this`ring, this`usedIdx, this`noNotify, this`availEvent, usedRing, desc
      ensures Shared() && Steady(r, ring) && ring.tables == old(ring.tables) && Asked(old(ring), ring)
      ensures Encoded(desc[..], pool.free[..b.n], pool.free[0], b) && Marked(desc[..], pool.free[..b.n])
      ensures Linked(desc[..], pool) && Outside(desc0, desc[..], pool.free[..b.n])
    {
      PoolFacts(num, pool);
      hide RingOk, Steady, DescFree, PoolOk, Encoded, Marked, Filling, Outside, Linked;
      FilledEncodes(num, desc[..], pool, b);
      FreeIsFree(num, pool, ring, b.n - 1);
      ghost var s, before := ring, desc[..];
      StoreDesc(last, desc[last].(next := false));
      SteadyTrans(r, s, ring);
      StoredOutside(desc0, before, desc[..], pool, b.n, b.n - 1);
    }

    /** The store of a head into the avail ring, which ends at a barrier. */
    method StoreAvail(slot: nat, id: nat)
      requires Shared() && ring.a < ring.u + num && slot == Slot(ring.a, num)
      modifies this`ring, this`usedIdx, this`noNotify, this`availEvent, usedRing, availRing
      ensures Shared() && Rely(old(ring).(availRing := old(ring.availRing)[slot := id]), ring)
    {
      hide RingOk, Do, Can, Slot;
      PokeAvailIs(ring, id);
      availRing[slot] := id;
      ring := Do(ring, PokeAvail(id));
      DeviceRuns();
    }

    /** The store of the avail index that makes a buffer available. */
    method StoreIdx(idx: nat, id: nat, b: Buffer, chain: seq<nat>)
      requires Shared() && Shape(ring) && Can(ring, Publish(id, b, chain)) && idx == U16(ring.a + 1)
      modifies this`ring, this`usedIdx, this`noNotify, this`availEvent, this`availIdx, usedRing
      ensures Shared() && Rely(DoPublish(old(ring), id, b, chain), ring)
    {
      hide RingOk, Do, Can, Shape, U16;
      PublishIs(ring, id, b, chain);
      availIdx := idx;
      ring := Do(ring, Publish(id, b, chain));
      DeviceRuns();
    }

    /** The store of a head to the avail ring, which changes nothing that the device looks at. */
    method NameHead(id: nat, ghost b: Buffer, ghost r: Ring)
      requires Shared() && Steady(r, ring) && Asked(r, ring) && vq.masterIdx == U16(ring.a) && ring.a < ring.u + num
      modifies this`ring, this`usedIdx, this`noNotify, this`availEvent, usedRing, availRing
      ensures Shared() && Steady(r, ring) && Asked(r, ring) && ring.a == old(ring.a) && ring.u == old(ring.u)
      ensures ring.tables == old(ring.tables) && ring.desc == old(ring.desc) && ring.chains == old(ring.chains)
      ensures Slot(ring.a, num) < |ring.availRing| && ring.availRing[Slot(ring.a, num)] == id
      ensures ring.log.bufs == old(ring.log.bufs) && ring.log.added == old(ring.log.added)
      ensures b.table.Some? && old(TableFree(ring, b.table.value)) ==> TableFree(ring, b.table.value)
    {
      hide RingOk, Steady, TableFree, Rely, Slot, U16, PowerOfTwo, Shape, And;
      RingShape(ring);
      ShapeNum(ring);
      IndexIsSlot(ring.a, num);
      ghost var s := ring;
      var i := And(vq.masterIdx, num - 1);
      StoreAvail(i, id);
      PokedSteady(r, s, i, id, ring, b);
    }

    /** The head goes into the avail ring; after a barrier the index makes it available. */
    method PublishHead(id: nat, b: Buffer, chain: seq<nat>, ghost r: Ring)
      requires Shared() && Steady(r, ring) && Asked(r, ring) && vq.masterIdx == U16(ring.a)
      requires PoolOk(num, pool) && pool.chains == ring.chains && pool.free != [] && chain <= pool.free
      requires id !in ring.log.bufs && id < num && BufferOk(b) && b.serial == |ring.log.added| && b.pos == ring.a
      requires Encoded(desc[..], chain, id, b)
      requires b.table.Some? ==>
                 TableFree(ring, b.table.value) && b.table.value in tables && TableHolds(tables[b.table.value], b.sg, b.out)
      modifies this`ring, this`usedIdx, this`noNotify, this`availEvent, this`availIdx, this`vq, usedRing, availRing
      ensures Shared() && Extended(r, ring, id, b, chain)
      ensures vq == old(vq).(masterIdx := U16(old(vq.masterIdx) + 1))
    {
      hide RingOk, Steady, PoolOk, Encoded, TableFree, TableHolds, Can, Extended, Rely, Slot, U16, BufferOk, Shape;
      RoomForOne(ring, id);
      NameHead(id, b, r);
      RingShape(ring);
      CanPublish(num, pool, ring, id, b, chain);
      ghost var s := ring;
      U16Next(ring.a);
      vq := vq.(masterIdx := U16(vq.masterIdx + 1));
      StoreIdx(vq.masterIdx, id, b, chain);
      PublishExtended(r, s, id, b, chain, ring);
    }

    /** Publishes a chain written on the first free nodes, and stores its token. */
    method FinishAdd(head: nat, b: Buffer, ghost r: Ring, ghost desc0: seq<Desc>, ghost unused: nat)
      requires Shared() && Steady(r, ring) && Asked(r, ring) && vq.masterIdx == U16(r.a)
      requires tokens.Length == num && Threaded(num, desc0, head, unused, tokens[..], pool, r.log.bufs) && pool.chains == r.chains
      requires head < num && 1 <= b.n <= |pool.free| && head == pool.free[0] && head !in r.log.bufs
      requires Below(pool.free, num) && |pool.next| == num && PoolOk(num, pool)
      requires BufferOk(b) && b.serial == |r.log.added| && b.pos == r.a
      requires firstUnused == FreeAt(pool, b.n) && numUnused == unused - b.n
      requires Linked(desc[..], pool) && Outside(desc0, desc[..], pool.free[..b.n])
      requires Encoded(desc[..], pool.free[..b.n], head, b) && Marked(desc[..], pool.free[..b.n])
      requires b.table.Some? ==>
                 TableFree(ring, b.table.value) && b.table.value in tables && TableHolds(tables[b.table.value], b.sg, b.out)
      modifies this`ring, this`usedIdx, this`noNotify, this`availEvent, this`availIdx, this`vq, this`pool, usedRing, availRing, tokens
      ensures Shared() && Extended(r, ring, head, b, old(pool).free[..b.n]) && pool.chains == ring.chains
      ensures Threaded(num, desc[..], firstUnused, numUnused, tokens[..], pool, ring.log.bufs)
      ensures vq == old(vq).(masterIdx := U16(old(vq.masterIdx) + 1))
    {
      hide RingOk, Threaded, Steady, Encoded, Marked, Outside, Linked, Extended, TableFree, TableHolds, PoolOk, FreeAt, BufferOk, U16;
      var p := pool;
      ghost var tokens0 := tokens[..];
      SteadyFields(r, ring);
      TokenNotZero(b);
      TakeThreaded(num, desc0, head, unused, tokens0, p, r.log.bufs, desc[..], b.n, b);
      PublishHead(head, b, p.free[..b.n], r);
      tokens[head] := b.token;
      ExtendedFields(r, ring, head, b, p.free[..b.n]);
      pool := Take(p, b.n);
      assert tokens[..] == tokens0[head := b.token];
    }

    /** The direct branch of add_buf: the chain is taken and written, its token stored, its head published. */
    method AddDirect(b: Buffer)
      requires Valid() && BufferOk(b) && b.table.None? && b.n <= numUnused
      requires b.serial == |ring.log.added| && b.pos == ring.a
      modifies this, desc, availRing, usedRing, tokens
      ensures Shared() && Extended(old(ring), ring, old(firstUnused), b, old(pool).free[..b.n])
      ensures numUnused == old(numUnused) - b.n && pool.chains == ring.chains
      ensures Threaded(num, desc[..], firstUnused, numUnused, tokens[..], pool, ring.log.bufs)
      ensures vq == old(vq).(masterIdx := U16(old(vq.masterIdx) + 1))
    {
      hide RingOk, Threaded, Steady, Encoded, Marked, Outside, Linked, Extended, CountersOk, PoolOk, FreeAt;
      ghost var r, desc0, unused := ring, desc[..], numUnused;
      AddStart(num, desc0, firstUnused, numUnused, tokens[..], pool, r, vq);
      var head := StoreChain(b);
      FinishAdd(head, b, r, desc0, unused);
    }

    /** One store into an indirect table that no outstanding buffer uses. */
    method StoreEntry(t: nat, i: nat, d: Desc)
      requires Shared() && TableFree(ring, t) && t in tables && i < |tables[t]|
      modifies this`ring, this`usedIdx, this`noNotify, this`availEvent, this`tables, usedRing
      ensures Shared() && Rely(old(ring).(tables := old(tables)[t := old(tables)[t][i := d]]), ring)
      ensures tables == old(tables)[t := old(tables)[t][i := d]]
    {
      hide RingOk, Can, Do, Rely, TableFree;
      var page := tables[t][i := d];
      PokeTableIs(ring, t, page);
      tables := tables[t := page];
      ring := Do(ring, PokeTable(t, page));
      ghost var s := ring;
      DeviceRuns();
      RelyTables(s, ring);
    }

    /** One more store to a table, after others that started from r. */
    method StoreMore(t: nat, i: nat, d: Desc, ghost r: Ring)
      requires Shared() && TableWrote(r, ring) && TableFree(r, t) && t in tables && i < |tables[t]|
      modifies this`ring, this`usedIdx, this`noNotify, this`availEvent, this`tables, usedRing
      ensures Shared() && TableWrote(r, ring) && t in tables && tables[t] == old(tables[t])[i := d]
    {
      hide RingOk, TableFree, TableWrote, Rely;
      ghost var s := ring;
      TableFreeNow(r, s, t);
      StoreEntry(t, i, d);
      TableStored(r, s, ring, t, tables[t]);
    }

    /** The stores to one entry of an indirect table. */
    method StoreTableElement(t: nat, i: nat, e: Sg, write: bool, ghost r: Ring)
      requires Shared() && TableWrote(r, ring) && TableFree(r, t) && t in tables && i < |tables[t]|
      modifies this`ring, this`usedIdx, this`noNotify, this`availEvent, this`tables, usedRing
      ensures Shared() && TableWrote(r, ring)
      ensures t in tables && tables[t] == old(tables[t])[i := Desc(e.addr, e.len, true, write, false, U16(U16(i) + 1))]
    {
      hide RingOk, TableFree, TableWrote, U16;
      StoreMore(t, i, tables[t][i].(next := false, write := write, indirect := false), r);
      StoreMore(t, i, tables[t][i].(next := true), r);
      StoreMore(t, i, tables[t][i].(addr := e.addr), r);
      StoreMore(t, i, tables[t][i].(len := e.len), r);
      StoreMore(t, i, tables[t][i].(link := U16(U16(i) + 1)), r);
    }

    /** The loop that fills an indirect table, and the end mark on its last entry. */
    method StoreTable(t: nat, sg: seq<Sg>, out: nat)
      requires Shared() && TableFree(ring, t) && t in tables && 1 <= |sg| <= |tables[t]| && |sg| <= 0x1_0000
      modifies this`ring, this`usedIdx, this`noNotify, this`availEvent, this`tables, usedRing
      ensures Shared() && TableWrote(old(ring), ring)
      ensures t in tables && TableHolds(tables[t], sg, out)
    {
      hide RingOk, TableFree, TableWrote, Rely;
      ghost var r := ring;
      TableWroteRefl(r);
      var i := 0;
      while i < |sg|
        modifies this`ring, this`usedIdx, this`noNotify, this`availEvent, this`tables, usedRing
        invariant 0 <= i <= |sg|
        invariant Shared() && TableWrote(r, ring)
        invariant t in tables && |sg| <= |tables[t]|
        invariant forall k :: 0 <= k < i ==> tables[t][k] == Desc(sg[k].addr, sg[k].len, true, k >= out, false, U16(U16(k) + 1))
      {
        StoreTableElement(t, i, sg[i], i >= out, r);
        i := i + 1;
      }
      StoreMore(t, i - 1, tables[t][i - 1].(next := false), r);
      TableFilled(tables[t], sg, out);
    }

    /** The stores to the one descriptor of an indirect buffer. */
    method StoreIndirect(idx: nat, t: nat, len: nat, ghost r: Ring)
      requires Shared() && Steady(r, ring) && idx < num && DescFree(ring, idx)
      modifies this`ring, this`usedIdx, this`noNotify, this`availEvent, usedRing, desc
      ensures Shared() && Steady(r, ring) && ring.tables == old(ring.tables) && Asked(old(ring), ring)
      ensures desc[..] == old(desc[..])[idx := Desc(t, len, false, false, true, old(desc[idx].link))]
    {
      hide RingOk, Steady, DescFree;
      ghost var s := ring;
      StoreDesc(idx, desc[idx].(next := false, write := false, indirect := true));
      SteadyFree(r, s, ring, idx);
      s := ring;
      StoreDesc(idx, desc[idx].(addr := t));
      SteadyFree(r, s, ring, idx);
      s := ring;
      StoreDesc(idx, desc[idx].(len := len));
      SteadyFree(r, s, ring, idx);
    }

    /** The stores of an indirect add before its head is named: the table and its one descriptor. */
    method WriteIndirect(b: Buffer) returns (idx: nat)
      requires Valid() && b.table.Some? && numUnused > 0 && 1 <= |b.sg| <= 0x1_0000
      requires TableFree(ring, b.table.value) && b.table.value in tables && |b.sg| <= |tables[b.table.value]|
      modifies this`ring, this`usedIdx, this`noNotify, this`availEvent, this`tables, this`firstUnused, this`numUnused, desc, usedRing
      ensures Shared() && Steady(old(ring), ring) && Asked(old(ring), ring) && TableFree(ring, b.table.value)
      ensures b.table.value in tables && TableHolds(tables[b.table.value], b.sg, b.out)
      ensures idx == old(firstUnused) < num && firstUnused == old(desc[idx].link) && numUnused == old(numUnused) - 1
      ensures desc[..] == old(desc[..])[idx := Desc(b.table.value, 16 * |b.sg|, false, false, true, old(desc[idx].link))]
    {
      hide RingOk, Threaded, Steady, CountersOk, TableFree, TableWrote, TableHolds, DescFree, U16;
      ghost var r := ring;
      AddStart(num, desc[..], firstUnused, numUnused, tokens[..], pool, r, vq);
      StoreTable(b.table.value, b.sg, b.out);
      TableWroteFields(r, ring, b.table.value);
      SteadyFields(r, ring);
      FreeIsFree(num, pool, ring, 0);
      idx := GetUnusedDesc();
      StoreIndirect(idx, b.table.value, 16 * |b.sg|, r);
      TableFreeSteady(r, ring, b.table.value);
    }

    /** The indirect branch of add_buf. */
    method AddIndirect(b: Buffer)
      requires Valid() && BufferOk(b) && b.table.Some? && numUnused > 0 && |b.sg| <= 0x1_0000
      requires TableFree(ring, b.table.value) && b.table.value in tables && |b.sg| <= |tables[b.table.value]|
      requires b.serial == |ring.log.added| && b.pos == ring.a
      modifies this, desc, availRing, usedRing, tokens
      ensures Shared() && Extended(old(ring), ring, old(firstUnused), b, old(pool).free[..1])
      ensures numUnused == old(numUnused) - 1 && pool.chains == ring.chains
      ensures Threaded(num, desc[..], firstUnused, numUnused, tokens[..], pool, ring.log.bufs)
      ensures vq == old(vq).(masterIdx := U16(old(vq.masterIdx) + 1))
    {
      hide RingOk, Threaded, Steady, Encoded, Marked, Outside, Linked, Extended, CountersOk, TableFree, TableHolds, PoolOk, FreeAt;
      ghost var r, desc0, unused := ring, desc[..], numUnused;
      AddStart(num, desc0, firstUnused, numUnused, tokens[..], pool, r, vq);
      FreeNext(num, desc0, firstUnused, unused, tokens[..], pool, r.log.bufs);
      var idx := WriteIndirect(b);
      IndirectEncodes(desc0, desc[..], pool, b);
      FinishAdd(idx, b, r, desc0, unused);
    }

    /** virtqueue_add_buf_split. A table is given by its physical address; the caller owns it, and
        it has at most the 65536 entries that a 16-bit link can name. */
    method AddBuf(sg: seq<Sg>, out: nat, token: nat, indirect: Option<nat>) returns (ok: bool)
      requires Valid()
      requires |sg| >= 1 && out <= |sg| && token != 0
      requires indirect.Some? && |sg| > 1 ==>
                 |sg| <= 0x1_0000 && TableFree(ring, indirect.value) &&
                 indirect.value in tables && |sg| <= |tables[indirect.value]|
      modifies this, desc, availRing, usedRing, tokens
      ensures Valid()
      ensures ok <==> (if indirect.Some? && |sg| > 1 && old(numUnused) > 0 then 1 else |sg|) <= old(numUnused)
      ensures !ok ==> ring == old(ring) && numUnused == old(numUnused)
      ensures vq.noInterrupt == old(vq.noInterrupt)
      ensures ok ==>
                var table := if |sg| > 1 && old(numUnused) > 0 then indirect else None;
                var n := if table.Some? then 1 else |sg|;
                && n <= |old(pool).free|
                && Extended(old(ring), ring, old(firstUnused),
                            Buffer(|old(ring.log.added)|, token, sg, out, table, old(ring.a), n), old(pool).free[..n])
                && numUnused == old(numUnused) - n
    {
      hide RingOk, Threaded, Extended, CountersOk, TableFree;
      ghost var r, p, d, id := ring, pool, vq, firstUnused;
      ThreadedFacts(num, desc[..], firstUnused, numUnused, tokens[..], pool, ring.log.bufs);
      var b: Buffer;
      if indirect.Some? && |sg| > 1 && numUnused > 0 {
        b := Buffer(|ring.log.added|, token, sg, out, indirect, ring.a, 1);
        AddIndirect(b);
      } else {
        if |sg| > numUnused {
          return false;
        }
        b := Buffer(|ring.log.added|, token, sg, out, None, ring.a, |sg|);
        AddDirect(b);
      }
      vq := vq.(numAdded := U32(vq.numAdded + 1));
      ExtendedCounters(d, r, ring, id, b, p.free[..b.n]);
      ok := true;
    }

    /** The walk of put_unused_desc_chain along NEXT: returns the chain's last descriptor. */
    method WalkChain(start: nat, ghost bufs: map<nat, Buffer>) returns (idx: nat, n: nat)
      requires desc.Length == num && start in bufs
      requires Threaded(num, desc[..], firstUnused, numUnused, tokens[..], pool, bufs)
      ensures start in pool.chains && |pool.chains[start]| == bufs[start].n && bufs[start].n >= 1
      ensures n == bufs[start].n && idx == pool.chains[start][n - 1] && idx < num
    {
      ChainFacts(num, desc[..], firstUnused, numUnused, tokens[..], pool, bufs, start);
      hide Threaded;
      ghost var chain := pool.chains[start];
      idx, n := start, 1;
      while desc[idx].next
        invariant 1 <= n <= |chain| && idx == chain[n - 1] && idx < num
        decreases |chain| - n
      {
        assert n - 1 != |chain| - 1;
        idx := desc[idx].link;
        n := n + 1;
      }
    }

    /** The stores of put_unused_desc_chain, at its two ends. */
    method Release(start: nat, last: nat)
      requires Shared() && ring.u < ring.v && ring.log.used != [] && start == ring.log.used[0].id && start in ring.log.bufs
      requires tokens.Length == num && start < num && last < num && start in ring.chains && last in ring.chains[start]
      requires forall x, y :: x in ring.chains && y in ring.chains[x] && y in ring.chains[start] ==> x == start
      modifies this`ring, this`usedIdx, this`noNotify, this`availEvent, usedRing, desc, tokens
      ensures Shared() && Steady(DoReclaim(old(ring)), ring) && ring.noInterrupt == old(ring.noInterrupt)
      ensures ring.chains == old(ring.chains) - {start} && ring.log.bufs == old(ring.log.bufs) - {start}
      ensures tokens[..] == old(tokens[..])[start := 0]
      ensures desc[..] == old(desc[..])[last := Desc(old(desc[last].addr), old(desc[last].len), true, false, false, firstUnused)]
    {
      hide RingOk, Steady, DescFree, Can, Do;
      ghost var r := ring;
      tokens[start] := 0;
      ReclaimIs(ring);
      ring := Do(ring, Reclaim);
      LastIsFree(r, start, last);
      ReturnLast(last);
      SteadyFields(DoReclaim(r), ring);
    }

    /** put_unused_desc_chain on the buffer of the next used entry, which is reclaimed with it. */
    method PutChain(start: nat)
      requires Shared() && ring.u < ring.v && ring.log.used != [] && start == ring.log.used[0].id && start in ring.log.bufs
      requires tokens.Length == num && pool.chains == ring.chains
      requires Threaded(num, desc[..], firstUnused, numUnused, tokens[..], pool, ring.log.bufs)
      modifies this`ring, this`usedIdx, this`noNotify, this`availEvent, this`firstUnused, this`numUnused, this`pool, usedRing, desc, tokens
      ensures Shared() && Steady(DoReclaim(old(ring)), ring) && ring.noInterrupt == old(ring.noInterrupt)
      ensures Threaded(num, desc[..], firstUnused, numUnused, tokens[..], pool, ring.log.bufs) && pool.chains == ring.chains
    {
      hide RingOk, Threaded, Steady, DoReclaim;
      ghost var r, desc0, tokens0 := ring, desc[..], tokens[..];
      var last, n := WalkChain(start, r.log.bufs);
      ChainFacts(num, desc0, firstUnused, numUnused, tokens0, pool, r.log.bufs, start);
      PutThreaded(num, desc0, firstUnused, numUnused, tokens0, pool, r.log.bufs, start, last,
                  Desc(desc0[last].addr, desc0[last].len, true, false, false, firstUnused));
      Release(start, last);
      numUnused := numUnused + n;
      firstUnused := start;
      pool := Put(pool, start);
    }

    /** The two stores that link the last descriptor of a returned chain to the free list. */
    method ReturnLast(last: nat)
      requires Shared() && last < num && DescFree(ring, last)
      modifies this`ring, this`usedIdx, this`noNotify, this`availEvent, usedRing, desc
      ensures Shared() && Steady(old(ring), ring) && Asked(old(ring), ring)
      ensures desc[..] == old(desc[..])[last := Desc(old(desc[last].addr), old(desc[last].len), true, false, false, firstUnused)]
    {
      hide RingOk, Steady, DescFree;
      ghost var r := ring;
      StoreDesc(last, desc[last].(next := true, write := false, indirect := false));
      SteadyFree(r, r, ring, last);
      ghost var s := ring;
      StoreDesc(last, desc[last].(link := firstUnused));
      SteadyFree(r, s, ring, last);
    }

    /** Reads the next used entry, after the barrier that follows the poll. */
    method NextUsed() returns (idx: nat, len: nat)
      requires Valid() && ring.u < ring.v
      modifies this`ring, this`usedIdx, this`noNotify, this`availEvent, usedRing
      ensures Valid() && Rely(old(ring), ring) && ring.u < ring.v && ring.log.used != []
      ensures idx == ring.log.used[0].id && idx in ring.log.bufs && len == ring.log.used[0].len
      ensures idx < num && tokens[idx] == ring.log.bufs[idx].token
    {
      hide RingOk, Threaded, CountersOk, Rely, Steady, And, U16, Slot, PowerOfTwo, Shape;
      ghost var r := ring;
      DeviceRuns();
      RelyProgress(r, ring);
      SameCounters(vq, r, ring);
      UsedHere(vq, ring);
      var i := And(vq.lastUsed, num - 1);
      idx, len := usedRing[i].id, usedRing[i].len;
      ChainFacts(num, desc[..], firstUnused, numUnused, tokens[..], pool, ring.log.bufs, idx);
    }

    /** Reads and reclaims the next used entry: the token stored for the head it names. */
    method TakeUsed() returns (token: nat, len: nat)
      requires Valid() && ring.u < ring.v
      modifies this, desc, usedRing, tokens
      ensures Valid() && Returned1(old(ring), ring, token, len)
      ensures vq == old(vq).(lastUsed := U16(old(vq.lastUsed) + 1))
      ensures usedEvent == old(usedEvent) && noInterrupt == old(noInterrupt)
    {
      hide RingOk, Threaded, CountersOk, Rely, Steady, U16, Returned1, DoReclaim;
      ghost var r := ring;
      var idx;
      idx, len := NextUsed();
      ghost var s, d := ring, vq;
      token := tokens[idx];
      PutChain(idx);
      OldestReturned(r, s, ring, token, len);
      vq := vq.(lastUsed := U16(vq.lastUsed + 1));
      ReclaimCounters(d, s, ring);
    }

    /** Stores used_event and avail.flags; the device runs after it. */
    method StoreEvent(e: nat, n: bool)
      requires Shared()
      modifies this`ring, this`usedIdx, this`noNotify, this`availEvent, this`usedEvent, this`noInterrupt, usedRing
      ensures Shared() && usedEvent == e && noInterrupt == n && Steady(old(ring), ring) && ring.armed == None
    {
      hide RingOk, Can, Do;
      SetEventIs(ring, e, n);
      usedEvent := e;
      noInterrupt := n;
      ring := Do(ring, SetEvent(e, n));
      DeviceRuns();
    }

    /** virtqueue_get_buf_split: returns the completions in the order in which the device published
        them; token 0 stands for NULL. While callbacks are on, each one returned moves used_event to the
        next used entry. */
    method GetBuf() returns (token: nat, len: nat)
      requires Valid()
      modifies this, desc, usedRing, tokens
      ensures Valid()
      ensures token != 0 <==> old(ring.log.returned < |ring.log.done|)
      ensures token == 0 ==> ring == old(ring) && numUnused == old(numUnused)
      ensures token != 0 ==> Returned1(old(ring), ring, token, len)
      ensures vq.noInterrupt == old(vq.noInterrupt)
      ensures token != 0 && !vq.noInterrupt ==> AsksInterrupt(ring, ring.u)
      ensures token == 0 || vq.noInterrupt || !eventSuppression ==> usedEvent == old(usedEvent)
      ensures noInterrupt == old(noInterrupt)
    {
      hide RingOk, Threaded, CountersOk, Steady, U16;
      PollExact(vq, ring);
      token, len := 0, 0;
      if vq.lastUsed != usedIdx {
        ghost var r := ring;
        token, len := TakeUsed();
        ReturnedToken(r, ring, token, len);
        FlagIs(vq, ring);
        PollExact(vq, ring);
        if eventSuppression && !vq.noInterrupt {
          ghost var s := ring;
          StoreEvent(vq.lastUsed, noInterrupt);
          SteadyFields(s, ring);
          SameCounters(vq, s, ring);
          ReturnedSteady(r, s, ring, token, len);
        }
      }
    }

    /** virtqueue_disable_cb_split. */
    method DisableCb()
      requires Valid()
      modifies this`vq, this`ring, this`usedIdx, this`noNotify, this`availEvent, this`usedEvent, this`noInterrupt, usedRing
      ensures Valid() && Steady(old(ring), ring) && vq == old(vq).(noInterrupt := true)
    {
      hide RingOk, Threaded, CountersOk, Steady;
      SteadyRefl(ring);
      ghost var r, d := ring, vq;
      if !vq.noInterrupt {
        vq := vq.(noInterrupt := true);
        if !eventSuppression {
          StoreEvent(usedEvent, true);
          SteadyFields(r, ring);
        }
        FlagCounters(d, r, ring, true);
      }
    }

    /** The stores of both enable_cb operations: ask for an interrupt at position p. */
    method AskForEvent(e: nat, ghost p: nat)
      requires Valid() && e == U16(p)
      modifies this`vq, this`ring, this`usedIdx, this`noNotify, this`availEvent, this`usedEvent, this`noInterrupt, usedRing
      ensures Valid() && Steady(old(ring), ring) && vq == old(vq).(noInterrupt := false) && AsksInterrupt(ring, p)
    {
      hide RingOk, Threaded, CountersOk, Steady, U16;
      ghost var r, d := ring, vq;
      SteadyRefl(r);
      if vq.noInterrupt {
        vq := vq.(noInterrupt := false);
        if !eventSuppression {
          StoreEvent(usedEvent, false);
          SteadyFields(r, ring);
        }
        FlagCounters(d, r, ring, false);
      }
      FlagIs(vq, ring);
      ghost var s := ring;
      StoreEvent(e, noInterrupt);
      SteadyTrans(r, s, ring);
      SteadyFields(s, ring);
      SameCounters(vq, s, ring);
    }

    /** virtqueue_enable_cb_split. If it returns true the driver is armed for the next used entry;
        the ring's invariant then rules out a completion without an interrupt. */
    method EnableCb() returns (drained: bool)
      requires Valid()
      modifies this`vq, this`ring, this`usedIdx, this`noNotify, this`availEvent, this`usedEvent, this`noInterrupt, usedRing
      ensures Valid() && Steady(old(ring), ring) && vq == old(vq).(noInterrupt := false)
      ensures AsksInterrupt(ring, ring.u)
      ensures drained ==> ring.armed == Some(ring.u) && !ring.irq
      ensures !drained ==> ring.u < ring.v
    {
      hide RingOk, Threaded, CountersOk, Steady, U16, Can, Do;
      ghost var r := ring;
      PollExact(vq, ring);
      AskForEvent(vq.lastUsed, ring.u);
      SteadyFields(r, ring);
      PollExact(vq, ring);
      drained := vq.lastUsed == usedIdx;
      if drained {
        ArmNow(ring.u, r);
        SteadyFields(r, ring);
      }
    }

    /** The driver now waits for the interrupt that the device owes it beyond position e. */
    method ArmNow(e: nat, ghost r: Ring)
      requires Valid() && Steady(r, ring) && ring.u <= e && ring.v <= e && AsksInterrupt(ring, e)
      modifies this`ring
      ensures Valid() && Steady(r, ring) && ring.armed == Some(e) && !ring.irq && ring.v == old(ring.v) && ring.a == old(ring.a)
      ensures AsksInterrupt(ring, e)
    {
      hide RingOk, Threaded, CountersOk, Can, Do;
      ghost var s := ring;
      ArmIs(ring, e);
      ring := Do(ring, Arm(e));
      SameCounters(vq, s, ring);
    }

    /** virtqueue_enable_cb_delayed_split. Its answer can be trusted when the used index cannot wrap
        before the ring is drained; DelayedTestExact shows that it cannot otherwise. */
    method EnableCbDelayed() returns (waiting: bool)
      requires Valid()
      modifies this`vq, this`ring, this`usedIdx, this`noNotify, this`availEvent, this`usedEvent, this`noInterrupt, usedRing
      ensures Valid() && Steady(old(ring), ring) && vq == old(vq).(noInterrupt := false)
      ensures var bufs := (ring.a - ring.u) * 3 / 4;
              && AsksInterrupt(ring, ring.u + bufs)
              && (waiting <==> ring.v - ring.u <= bufs || U16(ring.u) + (ring.v - ring.u) >= 0x1_0000)
              && (ring.v - ring.u <= bufs ==> ring.armed == Some(ring.u + bufs) && !ring.irq)
    {
      hide RingOk, Threaded, CountersOk, Steady, U16;
      ghost var r := ring;
      PollExact(vq, ring);
      DelayedStart(vq, ring);
      var bufs := DelayedBufs(vq.masterIdx, vq.lastUsed);
      AskForEvent(U16(vq.lastUsed + bufs), ring.u + bufs);
      SteadyFields(r, ring);
      PollExact(vq, ring);
      DelayedTestIs(ring.u, ring.v, bufs);
      waiting := DelayedTest(usedIdx, vq.lastUsed, bufs);
      if ring.v - ring.u <= bufs {
        ArmNow(ring.u + bufs, r);
        SteadyFields(r, ring);
      }
    }

    /** virtqueue_kick_prepare_split: its decision is the one of the state s it looks at, after which
        a device asleep behind the ring's end has been kicked, kicks being exact. */
    method KickPrepare() returns (notify: bool, ghost s: Ring)
      requires Valid()
      modifies this`vq, this`ring, this`usedIdx, this`noNotify, this`availEvent, usedRing
      ensures Valid() && vq == old(vq).(numAdded := 0)
      ensures Rely(old(ring), s) && notify == DriverKicks(s)
      ensures ring == s.(lastKick := s.a, kicked := s.kicked || notify, kicksExact := s.kicksExact && KickExact(s))
      ensures ring.kicksExact && ring.asleep && ring.c < ring.a ==> ring.kicked
      ensures s.eventIdx == eventSuppression && s.lastKick <= s.a
      ensures eventSuppression ==> (notify <==> Crossed(s.a - U32(s.a - s.lastKick), s.a, s.availEvent))
      ensures !eventSuppression ==> (notify <==> !s.noNotify)
    {
      hide RingOk, Threaded, CountersOk, Rely, Can, Do, DriverKicks, KickDecision, Crossed, U32;
      ghost var r := ring;
      DeviceRuns(); // a barrier
      RelyProgress(r, ring);
      SameCounters(vq, r, ring);
      s := ring;
      ghost var d := vq;
      KickIs(s);
      KickSays(s);
      notify := KickDecision(eventSuppression, vq.masterIdx, vq.numAdded, availEvent, noNotify);
      vq := vq.(numAdded := 0);
      ring := Do(ring, Kick);
      KickCounters(d, s, ring);
    }

    /** virtqueue_detach_unused_buf_split, for a device that no longer uses the ring: takes out the
        outstanding buffer with the lowest head and steps the avail index back, or returns 0. */
    method DetachUnusedBuf(ghost bufs: map<nat, Buffer>) returns (token: nat, ghost id: nat)
      requires desc.Length == num == tokens.Length && QueueSize(num)
      requires Threaded(num, desc[..], firstUnused, numUnused, tokens[..], pool, bufs)
      modifies this`firstUnused, this`numUnused, this`pool, this`vq, this`availIdx, desc, tokens
      ensures token == 0 ==>
                && bufs == map[] && numUnused == num && vq == old(vq) && availIdx == old(availIdx)
                && Threaded(num, desc[..], firstUnused, numUnused, tokens[..], pool, bufs)
      ensures token != 0 ==>
                && id in bufs && token == bufs[id].token && (forall k :: k in bufs ==> id <= k)
                && Threaded(num, desc[..], firstUnused, numUnused, tokens[..], pool, bufs - {id})
                && vq == old(vq).(masterIdx := U16(old(vq.masterIdx) - 1)) && availIdx == vq.masterIdx
    {
      hide Threaded, U16;
      id := 0;
      token := 0;
      var idx := 0;
      while idx < num
        invariant 0 <= idx <= num && token == 0
        invariant Threaded(num, desc[..], firstUnused, numUnused, tokens[..], pool, bufs)
        invariant vq == old(vq) && availIdx == old(availIdx)
        invariant forall k: nat :: k < idx ==> k !in bufs
      {
        token := tokens[idx];
        TokenTells(num, desc[..], firstUnused, numUnused, tokens[..], pool, bufs, idx);
        if token != 0 {
          id := idx;
          DetachChain(idx, bufs);
          vq := vq.(masterIdx := U16(vq.masterIdx - 1));
          availIdx := vq.masterIdx;
          return;
        }
        idx := idx + 1;
      }
      HeadsBelow(num, desc[..], firstUnused, numUnused, tokens[..], pool, bufs);
      assert bufs == map[];
      AllFree(num, desc[..], firstUnused, numUnused, tokens[..], pool);
    }

    /** put_unused_desc_chain while nothing else uses the ring. */
    method DetachChain(start: nat, ghost bufs: map<nat, Buffer>)
      requires desc.Length == num == tokens.Length && start in bufs
      requires Threaded(num, desc[..], firstUnused, numUnused, tokens[..], pool, bufs)
      modifies this`firstUnused, this`numUnused, this`pool, desc, tokens
      ensures Threaded(num, desc[..], firstUnused, numUnused, tokens[..], pool, bufs - {start})
    {
      hide Threaded;
      ghost var desc0, tokens0 := desc[..], tokens[..];
      var last, n := WalkChain(start, bufs);
      ChainFacts(num, desc0, firstUnused, numUnused, tokens0, pool, bufs, start);
      PutThreaded(num, desc0, firstUnused, numUnused, tokens0, pool, bufs, start, last,
                  Desc(desc0[last].addr, desc0[last].len, true, false, false, firstUnused));
      tokens[start] := 0;
      desc[last] := desc[last].(next := true, write := false, indirect := false);
      desc[last] := desc[last].(link := firstUnused);
      numUnused := numUnused + n;
      firstUnused := start;
      pool := Put(pool, start);
      assert tokens[..] == tokens0[start := 0];
      assert desc[..] == desc0[last := Desc(desc0[last].addr, desc0[last].len, true, false, false, old(firstUnused))];
    }

    /** Teardown calls detach_unused_buf until it returns NULL: every outstanding token comes back
        once, every descriptor is free, and the avail index is back at the last used one. */
    method DrainUnused(ghost bufs: map<nat, Buffer>, ghost u: nat) returns (taken: seq<nat>, ghost ids: seq<nat>)
      requires desc.Length == num == tokens.Length && QueueSize(num)
      requires Threaded(num, desc[..], firstUnused, numUnused, tokens[..], pool, bufs)
      requires vq.masterIdx == U16(u + |bufs.Keys|) == availIdx
      modifies this`firstUnused, this`numUnused, this`pool, this`vq, this`availIdx, desc, tokens
      ensures numUnused == num && Threaded(num, desc[..], firstUnused, numUnused, tokens[..], pool, map[])
      ensures |taken| == |ids| && multiset(ids) == multiset(bufs.Keys)
      ensures forall k :: 0 <= k < |ids| ==> ids[k] in bufs && taken[k] == bufs[ids[k]].token
      ensures availIdx == vq.masterIdx == U16(u)
    {
      hide Threaded, U16, Drained;
      taken, ids := [], [];
      ghost var left := bufs;
      DrainedStart(bufs);
      var token := 1;
      while token != 0
        invariant Threaded(num, desc[..], firstUnused, numUnused, tokens[..], pool, left)
        invariant token == 0 ==> left == map[] && numUnused == num
        invariant Drained(bufs, left, taken, ids)
        invariant vq.masterIdx == U16(u + |left.Keys|) == availIdx
        decreases |left.Keys|, token
      {
        ghost var id;
        token, id := DetachUnusedBuf(left);
        if token != 0 {
          DrainedStep(bufs, left, taken, ids, id);
          U16Prev(u + |left.Keys|);
          taken, ids := taken + [token], ids + [id];
          left := left - {id};
        }
      }
      DrainedAll(bufs, taken, ids);
    }

    /** The same from any valid state: avail.idx ends up equal to last_used. */
    method Teardown() returns (taken: seq<nat>, ghost ids: seq<nat>)
      requires Valid()
      modifies this`firstUnused, this`numUnused, this`pool, this`vq, this`availIdx, desc, tokens
      ensures numUnused == num && availIdx == old(vq.lastUsed)
      ensures |taken| == |ids| && multiset(ids) == multiset(old(ring.log.bufs).Keys)
      ensures forall k :: 0 <= k < |ids| ==> ids[k] in old(ring.log.bufs) && taken[k] == old(ring.log.bufs)[ids[k]].token
    {
      hide Threaded, U16, RingOk, CountersOk;
      DrainStart(vq, ring);
      taken, ids := DrainUnused(ring.log.bufs, ring.u);
    }

    /** The inner loop of a completion handler: get_buf until it returns NULL. */
    method GetAll(ghost lo: nat, before: seq<nat>) returns (got: seq<nat>)
      requires vq.noInterrupt
      requires Valid() && lo + |before| == ring.log.returned && InOrder(ring.log.added, ring.log.done, lo, before)
      modifies this, desc, usedRing, tokens
      ensures Valid() && before <= got && ring.log.added == old(ring.log.added) && vq.noInterrupt
      ensures lo + |got| == ring.log.returned && InOrder(ring.log.added, ring.log.done, lo, got)
      ensures old(ring.log.returned < |ring.log.done|) ==> old(ring.log.returned) < ring.log.returned
    {
      hide RingOk, Threaded, CountersOk, Steady, Returned1, InOrder;
      got := before;
      while true
        invariant Valid() && before <= got && ring.log.added == old(ring.log.added) && vq.noInterrupt
        invariant lo + |got| == ring.log.returned && InOrder(ring.log.added, ring.log.done, lo, got)
        invariant |got| == |before| ==> ring == old(ring)
        decreases |ring.log.added| - ring.log.returned
      {
        ghost var r := ring;
        var token, len := GetBuf();
        if token == 0 {
          return;
        }
        NextInOrder(r, ring, token, len, lo, got);
        got := got + [token];
      }
    }

    /** A completion handler that leaves callbacks on: get_buf until it returns NULL. Each get_buf moved
        used_event, so the driver is armed for the next completion when it stops. */
    method GetAllArmed() returns (got: seq<nat>)
      requires Valid() && AsksInterrupt(ring, ring.u) && !vq.noInterrupt
      modifies this, desc, usedRing, tokens
      ensures Valid() && ring.armed == Some(ring.u) && ring.log.added == old(ring.log.added)
      ensures ring.log.returned == old(ring.log.returned) + |got|
      ensures InOrder(ring.log.added, ring.log.done, old(ring.log.returned), got)
    {
      hide RingOk, Threaded, CountersOk, Steady, Returned1, InOrder, U16, AsksInterrupt;
      ghost var lo := ring.log.returned;
      got := [];
      NoneInOrder(ring);
      while true
        invariant Valid() && AsksInterrupt(ring, ring.u) && !vq.noInterrupt && ring.log.added == old(ring.log.added)
        invariant lo + |got| == ring.log.returned && InOrder(ring.log.added, ring.log.done, lo, got)
        invariant ring.log.returned <= |ring.log.added|
        decreases |ring.log.added| - ring.log.returned
      {
        ghost var r := ring;
        var token, len := GetBuf();
        MoreDone(ring);
        if token == 0 {
          break;
        }
        NextInOrder(r, ring, token, len, lo, got);
        got := got + [token];
      }
      ghost var s := ring;
      PollExact(vq, ring);
      SteadyRefl(s);
      ArmNow(ring.u, s);
      SteadyFields(s, ring);
      SteadyDone(s, ring, lo, got);
    }

    /** The loop of every completion handler: disable interrupts, get all buffers, enable interrupts,
        until nothing came in meanwhile. It ends, returns the completions in order, and leaves the
        driver armed for the next one. */
    method ProcessCompletions() returns (got: seq<nat>)
      requires Valid()
      modifies this, desc, usedRing, tokens
      ensures Valid() && ring.armed == Some(ring.u) && ring.log.added == old(ring.log.added)
      ensures ring.log.returned == old(ring.log.returned) + |got|
      ensures InOrder(ring.log.added, ring.log.done, old(ring.log.returned), got)
    {
      hide RingOk, Threaded, CountersOk, Steady, Returned1, InOrder, U16;
      ghost var lo := ring.log.returned;
      got := [];
      NoneInOrder(ring);
      var first, drained := true, false;
      while !drained
        invariant Valid() && ring.log.added == old(ring.log.added)
        invariant lo + |got| == ring.log.returned && InOrder(ring.log.added, ring.log.done, lo, got)
        invariant drained ==> ring.armed == Some(ring.u)
        invariant !drained && !first ==> ring.log.returned < |ring.log.done|
        invariant ring.log.returned <= |ring.log.added|
        decreases |ring.log.added| - ring.log.returned + (if first then 1 else 0), !drained
      {
        ghost var r := ring;
        DisableCb();
        SteadyDone(r, ring, lo, got);
        got := GetAll(lo, got);
        r := ring;
        drained := EnableCb();
        SteadyDone(r, ring, lo, got);
        MoreDone(ring);
        first := false;
      }
    }
  }
}
