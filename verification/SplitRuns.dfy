/**
 Runs of the split ring that the code can really take, from a new queue of any size: 2^32 buffers
 without a kick that leave a sleeping device behind, and a delayed enable that overlooks a used entry.
 */
module SplitRuns {
  import opened Bits
  import opened DescPool
  import opened Ledger
  import opened Positions
  import opened SplitDriver
  import opened SplitProofs
  import opened SplitRing

  /** Some run leads from r0 to r. */
  ghost predicate Reachable(r0: Ring, r: Ring) {
    exists states, acts :: IsRun(states, acts) && states[0] == r0 && states[|acts|] == r
  }

  lemma ReachableStart(r: Ring)
    ensures Reachable(r, r)
  {
    assert IsRun([r], []);
  }

  /** One more step at the end of a run. */
  lemma ReachableStep(r0: Ring, r: Ring, act: Act)
    requires Reachable(r0, r) && RingOk(r) && Shape(r) && Can(r, act)
    ensures Reachable(r0, Do(r, act)) && RingOk(Do(r, act)) && Shape(Do(r, act))
  {
    hide RingOk, Can, Do, Shape;
    StepKeeps(r, act);
    RingShape(Do(r, act));
    var states, acts :| IsRun(states, acts) && states[0] == r0 && states[|acts|] == r;
    var states', acts' := states + [Do(r, act)], acts + [act];
    forall i | 0 <= i < |acts'|
      ensures Shape(states'[i]) && Can(states'[i], acts'[i]) && states'[i + 1] == Do(states'[i], acts'[i])
    {
      if i < |acts| {
        assert states'[i] == states[i] && states'[i + 1] == states[i + 1];
      }
    }
    assert IsRun(states', acts');
  }

  /** Nothing is outstanding. */
  ghost predicate Empty(r: Ring) {
    && r.u == r.v == r.c == r.a && r.log.bufs == map[] && r.chains == map[]
    && r.log.avail == [] && r.log.inflight == [] && r.log.used == []
  }

  /** Nothing is outstanding, a buffers were made available and nothing was ever kicked. */
  ghost predicate Idle(r: Ring, a: nat) {
    Empty(r) && r.a == a && !r.asleep && !r.kicked && r.lastKick == 0
  }

  /** A buffer of one element, in descriptor 0. */
  function OneBuffer(r: Ring): (b: Buffer) {
    Buffer(|r.log.added|, 1, [Sg(0, 0)], 1, None, r.a, 1)
  }

  /** The stores of its add. */
  lemma WriteOne(r0: Ring, r: Ring) returns (r': Ring)
    requires Reachable(r0, r) && RingOk(r) && Shape(r) && Empty(r)
    ensures Reachable(r0, r') && RingOk(r') && Shape(r')
    ensures r' == r.(desc := r'.desc, availRing := r'.availRing)
    ensures Can(r', Publish(0, OneBuffer(r), [0]))
  {
    var d := Desc(0, 0, false, false, false, 0);
    PokeIs(r, 0, d);
    hide Reachable, RingOk, Can, Do;
    ReachableStep(r0, r, Poke(0, d));
    r' := Do(r, Poke(0, d));
    PokeAvailIs(r', 0);
    ReachableStep(r0, r', PokeAvail(0));
    r' := Do(r', PokeAvail(0));
    assert Encoded(r'.desc, [0], 0, OneBuffer(r));
  }

  lemma PublishOne(r0: Ring, r: Ring) returns (r': Ring)
    requires Reachable(r0, r) && RingOk(r) && Shape(r) && Empty(r)
    ensures Reachable(r0, r') && RingOk(r') && Shape(r')
    ensures r' == r.(desc := r'.desc, availRing := r'.availRing, a := r.a + 1, availIdx := U16(r.a + 1),
                     chains := map[0 := [0]], log := r'.log)
    ensures r'.log == r.log.(bufs := map[0 := OneBuffer(r)], avail := [0], added := r.log.added + [1])
  {
    hide RingOk, Reachable;
    r' := WriteOne(r0, r);
    var publish := Publish(0, OneBuffer(r), [0]);
    PublishIs(r', 0, OneBuffer(r), [0]);
    hide Can, Do;
    ReachableStep(r0, r', publish);
    r' := Do(r', publish);
  }

  lemma ConsumeOne(r0: Ring, r: Ring) returns (r': Ring)
    requires Reachable(r0, r) && RingOk(r) && Shape(r) && !r.asleep && r.c + 1 == r.a
    requires r.log.avail == [0] && r.log.inflight == []
    ensures Reachable(r0, r') && RingOk(r') && Shape(r')
    ensures r' == r.(c := r.a, log := r.log.(avail := [], inflight := [0]))
  {
    DeviceSeesAvailable(r);
    hide RingOk;
    assert Do(r, Consume) == r.(c := r.a, log := r.log.(avail := [], inflight := [0]));
    hide Reachable, Can, Do;
    ReachableStep(r0, r, Consume);
    r' := Do(r, Consume);
  }

  lemma CompleteOne(r0: Ring, r: Ring) returns (r': Ring)
    requires Reachable(r0, r) && RingOk(r) && Shape(r) && r.v + 1 == r.c
    requires 0 in r.log.bufs && r.log.inflight == [0] && r.log.used == []
    ensures Reachable(r0, r') && RingOk(r') && Shape(r')
    ensures r' == r.(v := r.c, usedIdx := U16(r.c), usedRing := r'.usedRing, log := r'.log)
    ensures r'.log == r.log.(inflight := [], used := [UsedElem(0, r.v, 0)], done := r'.log.done)
  {
    var complete := Complete(0, 0);
    CompleteIs(r);
    hide RingOk, Reachable, Can, Do, Slot, U16;
    ReachableStep(r0, r, complete);
    r' := Do(r, complete);
  }

  lemma CompleteIs(r: Ring)
    requires Shape(r) && r.v + 1 == r.c && 0 in r.log.bufs && r.log.inflight == [0] && r.log.used == []
    ensures Can(r, Complete(0, 0))
    ensures var r' := Do(r, Complete(0, 0));
            && r' == r.(v := r.c, usedIdx := U16(r.c), usedRing := r'.usedRing, log := r'.log)
            && r'.log == r.log.(inflight := [], used := [UsedElem(0, r.v, 0)], done := r'.log.done)
  {
    hide Slot, U16;
    assert Do(r, Complete(0, 0)) == DoComplete(r, 0, 0);
    assert [0][..0] + [0][1..] == [];
  }

  /** One buffer is published and served. */
  lemma ServeOne(r0: Ring, r: Ring) returns (r': Ring)
    requires Reachable(r0, r) && RingOk(r) && Shape(r) && Empty(r) && !r.asleep
    ensures Reachable(r0, r') && RingOk(r') && Shape(r') && r'.num == r.num && r'.eventIdx == r.eventIdx
    ensures r'.u == r.u && r'.v == r'.c == r'.a == r.a + 1 && r'.chains == map[0 := [0]]
    ensures r'.log.bufs.Keys == {0} && r'.log.avail == [] && r'.log.inflight == [] && r'.log.used == [UsedElem(0, r.v, 0)]
    ensures r'.asleep == r.asleep && r'.kicked == r.kicked && r'.lastKick == r.lastKick
  {
    hide Reachable, RingOk, Shape, U16;
    r' := PublishOne(r0, r);
    r' := ConsumeOne(r0, r');
    r' := CompleteOne(r0, r');
  }

  lemma ReclaimOne(r0: Ring, r: Ring) returns (r': Ring)
    requires Reachable(r0, r) && RingOk(r) && Shape(r) && r.u + 1 == r.v
    requires r.chains == map[0 := [0]] && r.log.bufs.Keys == {0} && |r.log.used| == 1 && r.log.used[0].id == 0
    ensures Reachable(r0, r') && RingOk(r') && Shape(r')
    ensures r' == r.(u := r.v, chains := map[], armed := None, log := r'.log)
    ensures r'.log == r.log.(used := [], bufs := map[], returned := r.log.returned + 1)
  {
    ReclaimIs(r);
    hide Reachable, RingOk, Can, Do;
    ReachableStep(r0, r, Reclaim);
    r' := Do(r, Reclaim);
    assert r'.log.bufs.Keys == {};
  }

  lemma Round(r0: Ring, r: Ring, a: nat) returns (r': Ring)
    requires Reachable(r0, r) && RingOk(r) && Shape(r) && Idle(r, a)
    ensures Reachable(r0, r') && RingOk(r') && Shape(r') && r'.num == r.num && r'.eventIdx == r.eventIdx && Idle(r', a + 1)
  {
    hide Reachable, RingOk, Shape;
    r' := ServeOne(r0, r);
    r' := ReclaimOne(r0, r');
  }

  lemma Rounds(num: nat, eventIdx: bool, n: nat) returns (r: Ring)
    requires QueueSize(num) && PowerOfTwo(num)
    ensures Reachable(Initial(num, eventIdx, map[]), r) && RingOk(r) && Shape(r)
    ensures r.num == num && r.eventIdx == eventIdx && Idle(r, n)
  {
    var r0 := Initial(num, eventIdx, map[]);
    InitialOk(num, eventIdx, map[]);
    ReachableStart(r0);
    RingShape(r0);
    r := r0;
    assert Idle(r, 0);
    hide Reachable, RingOk, Idle, Shape;
    for i := 0 to n
      invariant Reachable(r0, r) && RingOk(r) && Shape(r) && r.num == num && r.eventIdx == eventIdx && Idle(r, i)
    {
      r := Round(r0, r, i);
    }
  }

  /** A device that has consumed everything asks for the next buffer and goes to sleep. */
  lemma FallAsleep(r0: Ring, r: Ring) returns (r': Ring)
    requires Reachable(r0, r) && RingOk(r) && Shape(r) && !r.asleep && r.c == r.a && r.eventIdx
    ensures Reachable(r0, r') && RingOk(r') && Shape(r')
    ensures r' == r.(availEvent := U16(r.c), noNotify := false, asleep := true, kicked := false, kicksExact := true)
  {
    hide Reachable, RingOk;
    ReachableStep(r0, r, PublishEvent(U16(r.c), false));
    r' := Do(r, PublishEvent(U16(r.c), false));
    ReachableStep(r0, r', Sleep);
    r' := Do(r', Sleep);
  }

  lemma NoneLeft(r: Ring)
    requires Shape(r) && r.eventIdx && r.availEvent == U16(r.c) && r.c + 1 == r.a
    requires r.a == 0x1_0000_0000 && r.lastKick == 0
    ensures !DriverKicks(r)
  {
    KickDecides(r);
  }

  /** For every queue size: 2^32 - 1 buffers served without a kick, then a device that asks for the next
      one and sleeps, one more buffer, and kick_prepare: the 32-bit count is 0 again and the device is
      left behind. */
  lemma ManyBuffersRun(num: nat) returns (r: Ring)
    requires QueueSize(num) && PowerOfTwo(num)
    ensures Reachable(Initial(num, true, map[]), r) && RingOk(r)
    ensures r.asleep && r.c < r.a && !r.kicked && r.lastKick == r.a
  {
    var r0 := Initial(num, true, map[]);
    r := Rounds(num, true, 0xFFFF_FFFF);
    hide Reachable, RingOk;
    r := FallAsleep(r0, r);
    r := PublishOne(r0, r);
    NoneLeft(r);
    hide DriverKicks;
    ReachableStep(r0, r, Kick);
    r := Do(r, Kick);
  }

  /** For every queue size: 65535 buffers served, and one more completed but not taken back. The used
      index is 0 again, and the delayed enable overlooks that more buffers came back than it waits for. */
  lemma DelayedRun(num: nat, eventIdx: bool) returns (r: Ring)
    requires QueueSize(num) && PowerOfTwo(num)
    ensures Reachable(Initial(num, eventIdx, map[]), r) && RingOk(r)
    ensures r.u <= r.v <= r.a <= r.u + num
    ensures var bufs := DelayedBufs(U16(r.a), U16(r.u));
            r.v - r.u > bufs && DelayedTest(U16(r.v), U16(r.u), bufs)
  {
    r := Rounds(num, eventIdx, 0xFFFF);
    hide Reachable, RingOk;
    r := ServeOne(Initial(num, eventIdx, map[]), r);
    DelayedBufsIs(r.u, r.a);
    DelayedTestIs(r.u, r.v, 0);
    U16Is(0xFFFF, 0, 0xFFFF);
  }
}
