/**
 Runs of the packed ring that the code can really take, from a new queue of any size: a direct chain
 over the whole ring, or 65536 descriptors without a kick, that leave a sleeping device behind.
 */
module PackedRuns {
  import opened Ledger
  import opened PackedDriver
  import opened PackedProofs
  import opened PackedRing
  import opened Positions

  /** Some run leads from r0 to r. */
  ghost predicate Reachable(r0: Ring, r: Ring) {
    exists states, acts :: IsRun(states, acts) && states[0] == r0 && states[|acts|] == r
  }

  lemma ReachableStart(r: Ring)
    ensures Reachable(r, r)
  {
    assert IsRun([r], []);
  }

  /** One more step at the end of a run. */
  lemma ReachableStep(r0: Ring, r: Ring, act: Act)
    requires Reachable(r0, r) && RingOk(r) && Shape(r) && Can(r, act)
    ensures Reachable(r0, Do(r, act)) && RingOk(Do(r, act)) && Shape(Do(r, act))
  {
    hide RingOk, Can, Do, Shape;
    StepKeeps(r, act);
    RingShape(Do(r, act));
    var states, acts :| IsRun(states, acts) && states[0] == r0 && states[|acts|] == r;
    var states', acts' := states + [Do(r, act)], acts + [act];
    forall i | 0 <= i < |acts'|
      ensures Shape(states'[i]) && Can(states'[i], acts'[i]) && states'[i + 1] == Do(states'[i], acts'[i])
    {
      if i < |acts| {
        assert states'[i] == states[i] && states'[i + 1] == states[i + 1];
      }
    }
    assert IsRun(states', acts');
  }

  lemma RelyRefl(r: Ring)
    requires Shape(r)
    ensures Rely(r, r)
  {
  }

  /** The flags that the chain's n-th store leaves: the first descriptor keeps its old ones. */
  function FlagsFor(r: Ring, b: Buffer, n: nat): (f: Flags)
    requires r.num > 0 && |r.desc| == r.num
  {
    if n == 0 then At(r, r.a).flags else DirectFlags(b, n, Wrap(r.a + n, r.num), !Wrap(r.a + n, r.num))
  }

  /** The step that writes descriptor n of a direct buffer. */
  lemma WriteOne(r: Ring, id: nat, b: Buffer, n: nat) returns (act: Act)
    requires RingOk(r) && Shape(r) && Prefix(r, id, b, n) && n < |b.sg| && b.table.None? && b.n == |b.sg|
    requires r.num > 0 && |r.desc| == r.num && r.a + b.n <= r.u + r.num && r.w <= n
    ensures Can(r, act)
    ensures var r' := Do(r, act);
            r' == r.(desc := r'.desc, w := n + 1) && |r'.desc| == r.num && Shape(r') && Prefix(r', id, b, n + 1)
  {
    hide RingOk, Shape, Can, Do, Prefix, Wrote;
    var d := DirectDesc(id, b, n, FlagsFor(r, b, n));
    act := Poke(n, d);
    PokeStores(r, n, d);
    PokeIs(r, n, d);
    var r' := Do(r, act);
    RingShape(r');
    RelyRefl(r');
    PokeWrote(r, n, d, r');
    PrefixGrows(r, r', id, b, n, FlagsFor(r, b, n));
  }

  /** All of a direct chain is written behind a position that stays unpublished. */
  lemma WriteAll(r0: Ring, r: Ring, id: nat, b: Buffer) returns (r': Ring)
    requires Reachable(r0, r) && RingOk(r) && Shape(r) && r.w == 0 && r.a + b.n <= r.u + r.num
    requires b.table.None? && b.n == |b.sg|
    ensures Reachable(r0, r') && RingOk(r') && Shape(r') && Prefix(r', id, b, b.n)
    ensures r' == r.(desc := r'.desc, w := b.n)
  {
    PrefixEmpty(r, id, b);
    assert r.num > 0 && |r.desc| == r.num;
    hide Reachable, RingOk, Can, Do, Prefix, Shape, DirectFlags, Slot, Wrap;
    r' := r;
    for n := 0 to b.n
      invariant Reachable(r0, r') && RingOk(r') && Shape(r') && Prefix(r', id, b, n)
      invariant r' == r.(desc := r'.desc, w := n) && |r'.desc| == r.num
    {
      var act := WriteOne(r', id, b, n);
      ReachableStep(r0, r', act);
      r' := Do(r', act);
    }
  }

  /** A written buffer becomes available. */
  lemma PublishDirect(r0: Ring, r: Ring, id: nat, b: Buffer) returns (r': Ring)
    requires Reachable(r0, r) && RingOk(r) && Shape(r) && id !in r.bufs && id < r.num && BufferOk(b) && b.table.None?
    requires b.serial == |r.added| && b.pos == r.a && r.w <= b.n && r.a + b.n <= r.u + r.num && Prefix(r, id, b, b.n)
    ensures Reachable(r0, r') && RingOk(r') && Shape(r')
    ensures r' == r.(desc := r'.desc, a := r.a + b.n, w := 0, bufs := r.bufs[id := b], avail := r.avail + [id],
                     added := r.added + [b.token], full := r.full + if b.n == r.num then 1 else 0)
  {
    var publish := Publish(id, b, DirectFlags(b, 0, Wrap(r.a, r.num), !Wrap(r.a, r.num)));
    hide Reachable, RingOk, Slot, Wrap;
    DirectPublishable(r, id, b);
    PublishDoes(r, id, b, publish.flags);
    hide Can, Do, Prefix, BufferOk, Shape;
    ReachableStep(r0, r, publish);
    r' := Do(r, publish);
  }

  lemma PublishDoes(r: Ring, id: nat, b: Buffer, flags: Flags)
    requires Shape(r) && Can(r, Publish(id, b, flags))
    ensures var r' := Do(r, Publish(id, b, flags));
            r' == r.(desc := r'.desc, a := r.a + b.n, w := 0, bufs := r.bufs[id := b], avail := r.avail + [id],
                     added := r.added + [b.token], full := r.full + if b.n == r.num && b.table.None? then 1 else 0)
  {
    hide Slot, Wrap;
    assert Do(r, Publish(id, b, flags)) == DoPublish(r, id, b, flags);
  }

  /** A device that has consumed everything asks for the next descriptor and goes to sleep. */
  lemma FallAsleep(r0: Ring, r: Ring) returns (r': Ring)
    requires Reachable(r0, r) && RingOk(r) && Shape(r) && !r.asleep && r.c == r.a
    ensures Reachable(r0, r') && RingOk(r') && Shape(r')
    ensures r' == r.(deviceEvent := Event(OffWrap(r.c, r.num), EVENT_DESC), asleep := true, kicked := false, kicksExact := true)
  {
    var ev := Event(OffWrap(r.c, r.num), EVENT_DESC);
    NotAvailableAtEnd(r);
    hide Reachable, RingOk;
    ReachableStep(r0, r, PublishEvent(ev));
    r' := Do(r, PublishEvent(ev));
    assert LooksAvailable(r', r'.c) == LooksAvailable(r, r.c);
    ReachableStep(r0, r', Sleep);
    r' := Do(r', Sleep);
  }

  /** A kick decision that misses a sleeping device leaves nothing to be done. */
  lemma KickMisses(r0: Ring, r: Ring) returns (r': Ring)
    requires Reachable(r0, r) && RingOk(r) && Shape(r) && r.asleep && !r.kicked && !DriverKicks(r)
    ensures Reachable(r0, r') && RingOk(r')
    ensures r' == r.(lastKick := r.a, kicksExact := r'.kicksExact)
  {
    hide Reachable, RingOk, DriverKicks;
    ReachableStep(r0, r, Kick);
    r' := Do(r, Kick);
  }

  /** Whatever the size of the queue: a device asleep at the start of the ring, which asked to be told
      about the first descriptor, is not kicked for a direct chain of num descriptors, and the driver
      has nothing left to do. */
  lemma FullChainRun(num: nat, sg: seq<Sg>, out: nat, token: nat) returns (r: Ring)
    requires QueueSize(num) && |sg| == num && out <= num && token != 0
    ensures Reachable(Initial(num, map[]), r) && RingOk(r)
    ensures r.asleep && r.c < r.a && !r.kicked && r.lastKick == r.a
    ensures r.added == [token] && 0 in r.bufs && r.bufs[0].sg == sg
  {
    var r0, b := Initial(num, map[]), Buffer(0, token, sg, out, None, 0, num);
    InitialOk(num, map[]);
    ReachableStart(r0);
    hide Reachable, RingOk, Prefix;
    r := FallAsleep(r0, r0);
    r := WriteAll(r0, r, 0, b);
    r := PublishDirect(r0, r, 0, b);
    FullChainLosesKick(r);
    r := KickMisses(r0, r);
  }

  // ----- many buffers without a kick -----

  /** Nothing is outstanding, a descriptors were made available and nothing was ever kicked. */
  ghost predicate Idle(r: Ring, a: nat) {
    && r.u == a && r.v == a && r.c == a && r.a == a && r.w == 0 && r.bufs == map[]
    && r.avail == [] && r.inflight == [] && r.used == []
    && !r.asleep && !r.kicked && r.lastKick == 0 && r.full == 0
  }

  /** One buffer is published, the device idle before it. */
  lemma PublishOne(r0: Ring, r: Ring, sg: Sg) returns (r': Ring, b: Buffer)
    requires Reachable(r0, r) && RingOk(r) && Shape(r) && r.num >= 2
    requires r.u == r.v == r.c == r.a && r.w == 0 && r.bufs == map[] && r.avail == [] && r.inflight == [] && r.used == []
    ensures Reachable(r0, r') && RingOk(r') && Shape(r') && b.n == 1
    ensures r' == r.(desc := r'.desc, a := r.a + 1, bufs := map[0 := b], avail := [0], added := r.added + [1])
  {
    b := Buffer(|r.added|, 1, [sg], 0, None, r.a, 1);
    r' := WriteAll(r0, r, 0, b);
    hide Reachable, RingOk, Prefix;
    r' := PublishDirect(r0, r', 0, b);
  }

  lemma ConsumeOne(r0: Ring, r: Ring, b: Buffer) returns (r': Ring)
    requires Reachable(r0, r) && RingOk(r) && Shape(r) && !r.asleep
    requires r.c + b.n == r.a && r.c < r.a && r.bufs == map[0 := b] && r.avail == [0] && r.inflight == []
    ensures Reachable(r0, r') && RingOk(r') && Shape(r')
    ensures r' == r.(c := r.a, avail := [], inflight := [0])
  {
    DeviceSeesWholeBuffers(r);
    hide RingOk, Decode;
    assert Do(r, Consume) == r.(c := r.a, avail := [], inflight := [0]);
    hide Reachable, Can, Do, ReadLength, ReadId, LooksAvailable;
    ReachableStep(r0, r, Consume);
    r' := Do(r, Consume);
  }

  lemma CompleteOne(r0: Ring, r: Ring, b: Buffer) returns (r': Ring)
    requires Reachable(r0, r) && RingOk(r) && Shape(r)
    requires r.v + b.n == r.c && r.bufs == map[0 := b] && r.inflight == [0] && r.used == []
    ensures Reachable(r0, r') && RingOk(r') && Shape(r')
    ensures r' == r.(desc := r'.desc, v := r.c, inflight := [], used := [UsedElem(0, r.v, 0)],
                     done := r.done + [Completion(b.serial, 0)])
    ensures !At(r', r.v).flags.next && !At(r', r.v).flags.indirect
  {
    hide RingOk;
    var complete := Complete(0, 0, false);
    assert Do(r, complete) == DoComplete(r, 0, 0, false);
    hide Reachable, Can, Do;
    ReachableStep(r0, r, complete);
    r' := Do(r, complete);
    assert r'.inflight == [];
  }

  /** The device consumes and completes the only buffer: its first descriptor becomes the used entry. */
  lemma ServeOne(r0: Ring, r: Ring, b: Buffer) returns (r': Ring)
    requires Reachable(r0, r) && RingOk(r) && Shape(r) && !r.asleep
    requires r.c + b.n == r.a && r.v == r.c < r.a && r.bufs == map[0 := b]
    requires r.avail == [0] && r.inflight == [] && r.used == []
    ensures Reachable(r0, r') && RingOk(r') && Shape(r')
    ensures r' == r.(desc := r'.desc, v := r.a, c := r.a, avail := [], used := [UsedElem(0, r.v, 0)],
                     done := r.done + [Completion(b.serial, 0)])
    ensures !At(r', r.v).flags.next && !At(r', r.v).flags.indirect
  {
    hide Reachable, RingOk, Slot;
    r' := ConsumeOne(r0, r, b);
    r' := CompleteOne(r0, r', b);
  }

  /** The driver takes it back. */
  lemma ReclaimOne(r0: Ring, r: Ring, b: Buffer) returns (r': Ring)
    requires Reachable(r0, r) && RingOk(r) && Shape(r) && r.u + 1 == r.v
    requires r.bufs == map[0 := b] && b.n == 1 && |r.used| == 1
    ensures Reachable(r0, r') && RingOk(r') && Shape(r')
    ensures r' == r.(u := r.v, used := [], bufs := map[], returned := r.returned + 1, armed := None)
  {
    ReclaimAt(r);
    assert map[0 := b] - {0} == map[];
    hide Reachable, RingOk, Can, Do;
    ReachableStep(r0, r, Reclaim);
    r' := Do(r, Reclaim);
  }

  /** All of that is one round. */
  lemma Round(r0: Ring, r: Ring, a: nat) returns (r': Ring)
    requires Reachable(r0, r) && RingOk(r) && Shape(r) && r.num >= 2 && Idle(r, a)
    ensures Reachable(r0, r') && RingOk(r') && Shape(r') && r'.num == r.num && Idle(r', a + 1)
  {
    var b;
    hide Reachable, RingOk, Shape;
    r', b := PublishOne(r0, r, Sg(0, 0));
    r' := ServeOne(r0, r', b);
    r' := ReclaimOne(r0, r', b);
  }

  lemma Rounds(num: nat, n: nat) returns (r: Ring)
    requires QueueSize(num) && num >= 2
    ensures Reachable(Initial(num, map[]), r) && RingOk(r) && Shape(r) && r.num == num && Idle(r, n)
  {
    var r0 := Initial(num, map[]);
    InitialOk(num, map[]);
    ReachableStart(r0);
    hide Reachable, RingOk, Idle;
    r := r0;
    assert Idle(r, 0) by { IdleStart(num); }
    for i := 0 to n
      invariant Reachable(r0, r) && RingOk(r) && Shape(r) && r.num == num && Idle(r, i)
    {
      r := Round(r0, r, i);
    }
  }

  lemma IdleStart(num: nat)
    requires QueueSize(num)
    ensures Idle(Initial(num, map[]), 0)
  {
  }

  /** For every queue size: 65535 buffers served without a kick, then a device that asks for the next
      one and sleeps, one more buffer, and kick_prepare: the count is 65536, truncated to 0, and the
      device is left behind. */
  lemma ManyBuffersRun(num: nat) returns (r: Ring)
    requires QueueSize(num) && num >= 2
    ensures Reachable(Initial(num, map[]), r) && RingOk(r)
    ensures r.asleep && r.c < r.a && !r.kicked && r.lastKick == r.a && r.full == 0
  {
    var r0 := Initial(num, map[]);
    r := Rounds(num, 0xFFFF);
    hide Reachable, RingOk;
    r := FallAsleep(r0, r);
    var b;
    r, b := PublishOne(r0, r, Sg(0, 0));
    NoneLeft(r);
    r := KickMisses(r0, r);
  }

  lemma NoneLeft(r: Ring)
    requires Shape(r) && r.full == 0 && r.a == 0x1_0000 && r.c == 0xFFFF && r.lastKick == 0
    requires r.deviceEvent == Event(OffWrap(r.c, r.num), EVENT_DESC)
    ensures !DriverKicks(r)
  {
    FreshKick(r, r.c);
    U16Is(0x1_0000, 1, 0);
  }

  // ----- what the device overwrites -----

  /** A direct chain decodes as added only until the device has consumed it: here it is still
      outstanding, and the used entry has taken the place of its first descriptor. */
  lemma OverwrittenRun(num: nat, sg: seq<Sg>, out: nat, token: nat) returns (r: Ring)
    requires QueueSize(num) && 2 <= |sg| <= num && out <= |sg| && token != 0
    ensures Reachable(Initial(num, map[]), r) && RingOk(r) && Shape(r) && 0 in r.bufs && r.bufs[0].sg == sg
    ensures Decode(r, r.bufs[0].pos, num) != Meaning(sg, r.bufs[0].out)
  {
    var r0, b := Initial(num, map[]), Buffer(0, token, sg, out, None, 0, |sg|);
    InitialOk(num, map[]);
    ReachableStart(r0);
    hide Reachable, RingOk, Prefix;
    r := WriteAll(r0, r0, 0, b);
    r := PublishDirect(r0, r, 0, b);
    r := ServeOne(r0, r, b);
    assert |Decode(r, 0, num)| == 1;
  }
}
