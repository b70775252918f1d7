/**
 Every step of the split ring keeps its invariant, hence so does every run; and what that
 means for interrupts and kicks.
 */
module SplitProofs {
  import opened Bits
  import opened DescPool
  import opened Ledger
  import opened Positions
  import opened SplitRing

  // ----- the device consumes a buffer -----

  lemma ConsumeAvail(r: Ring, r': Ring)
    requires Shape(r) && AvailOk(r) && r.c < r.a
    requires Shape(r') && r'.num == r.num && r'.availRing == r.availRing && r'.a == r.a && r'.c == r.c + 1
    requires r'.log.avail == r.log.avail[1..]
    ensures AvailOk(r')
  {
  }

  lemma ConsumeStep(r: Ring, act: Act)
    requires RingOk(r) && Can(r, act) && act.Consume?
    ensures RingOk(Do(r, act))
  {
    DeviceSeesAvailable(r);
    var r' := DoConsume(r);
    assert r'.log == Consumed(r.log);
    ConsumedKeeps(r.log, r.num);
    hide LogOk, ChainsOk, TablesOk, PowerOfTwo, AvailOk, UsedOk, Decode, Walk;
    ConsumeAvail(r, r');
    SameUsed(r, r');
    SameContents(r, r');
  }

  lemma SameUsed(r: Ring, r': Ring)
    requires Shape(r) && Shape(r') && UsedOk(r)
    requires r'.num == r.num && r'.u == r.u && r'.v == r.v && r'.usedRing == r.usedRing && r'.log.used == r.log.used
    ensures UsedOk(r')
  {
  }

  /** Chains and tables of the same buffers, over the same memory. */
  lemma SameContents(r: Ring, r': Ring)
    requires ChainsOk(r) && TablesOk(r)
    requires r'.desc == r.desc && r'.tables == r.tables && r'.chains == r.chains && r'.log.bufs == r.log.bufs
    ensures ChainsOk(r') && TablesOk(r')
  {
  }

  // ----- the device publishes a used entry -----

  lemma CompleteUsed(r: Ring, r': Ring, id: nat, len: nat)
    requires Shape(r) && UsedOk(r) && r.v < r.u + r.num
    requires Shape(r') && r'.num == r.num && r'.u == r.u && r'.v == r.v + 1
    requires r'.usedRing == r.usedRing[Slot(r.v, r.num) := Elem(id, len)]
    requires r'.log.used == r.log.used + [UsedElem(id, r.v, len)]
    ensures UsedOk(r')
  {
    forall p | r'.u <= p < r'.v
      ensures r'.usedRing[Slot(p, r'.num)] == Elem(r'.log.used[p - r'.u].id, r'.log.used[p - r'.u].len)
    {
      if p < r.v {
        SlotInjective(p, r.v, r.num);
      }
    }
  }

  lemma CompleteStep(r: Ring, act: Act)
    requires RingOk(r) && Can(r, act) && act.Complete?
    ensures RingOk(Do(r, act))
  {
    KnownIds(r.log, r.num);
    CompletedKeeps(r.log, r.num, act.k, r.v, act.len);
    hide LogOk, ChainsOk, TablesOk, AvailOk, UsedOk, PowerOfTwo, Slot;
    var r' := DoComplete(r, act.k, act.len);
    CompleteUsed(r, r', r.log.inflight[act.k], act.len);
    SameAvail(r, r');
    SameContents(r, r');
  }

  lemma SameAvail(r: Ring, r': Ring)
    requires Shape(r) && Shape(r') && AvailOk(r)
    requires r'.num == r.num && r'.c == r.c && r'.a == r.a && r'.availRing == r.availRing && r'.log.avail == r.log.avail
    ensures AvailOk(r')
  {
  }

  // ----- the driver writes memory that is not published -----

  lemma EncodedFrame(desc: seq<Desc>, desc': seq<Desc>, chain: seq<nat>, id: nat, b: Buffer)
    requires Encoded(desc, chain, id, b) && |desc'| == |desc|
    requires forall i :: 0 <= i < |chain| ==> desc'[chain[i]] == desc[chain[i]]
    ensures Encoded(desc', chain, id, b)
  {
  }

  lemma PokeChains(r: Ring, k: nat, d: Desc)
    requires ChainsOk(r) && k < |r.desc| && DescFree(r, k)
    ensures ChainsOk(r.(desc := r.desc[k := d]))
  {
    var desc' := r.desc[k := d];
    forall id | id in r.chains
      ensures Encoded(desc', r.chains[id], id, r.log.bufs[id])
    {
      var chain := r.chains[id];
      assert Encoded(r.desc, chain, id, r.log.bufs[id]);
      assert forall i :: 0 <= i < |chain| ==> chain[i] in chain && chain[i] != k;
      EncodedFrame(r.desc, desc', chain, id, r.log.bufs[id]);
    }
  }

  lemma PokeStep(r: Ring, act: Act)
    requires RingOk(r) && Can(r, act) && act.Poke?
    ensures RingOk(Do(r, act))
  {
    PokeChains(r, act.slot, act.d);
    hide LogOk, ChainsOk, AvailOk, UsedOk;
    var r' := r.(desc := r.desc[act.slot := act.d]);
    SameRings(r, r');
  }

  lemma SameRings(r: Ring, r': Ring)
    requires Shape(r) && Shape(r') && AvailOk(r) && UsedOk(r)
    requires r'.num == r.num && r'.u == r.u && r'.v == r.v && r'.c == r.c && r'.a == r.a && r'.log == r.log
    requires r'.availRing == r.availRing && r'.usedRing == r.usedRing
    ensures AvailOk(r') && UsedOk(r')
  {
  }

  lemma PokeTableStep(r: Ring, act: Act)
    requires RingOk(r) && Can(r, act) && act.PokeTable?
    ensures RingOk(Do(r, act))
  {
    hide LogOk, ChainsOk, AvailOk, UsedOk;
    var r' := r.(tables := r.tables[act.addr := act.table]);
    SameRings(r, r');
    assert ChainsOk(r') by { SameChains(r, r'); }
  }

  lemma SameChains(r: Ring, r': Ring)
    requires ChainsOk(r) && r'.desc == r.desc && r'.chains == r.chains && r'.log == r.log
    ensures ChainsOk(r')
  {
  }

  /** The slot about to be filled holds no entry that the device has yet to consume. */
  lemma PokeAvailStep(r: Ring, act: Act)
    requires RingOk(r) && Can(r, act) && act.PokeAvail?
    ensures RingOk(Do(r, act))
  {
    hide LogOk, ChainsOk, TablesOk;
    var r' := r.(availRing := r.availRing[Slot(r.a, r.num) := act.head]);
    forall p | r.c <= p < r.a
      ensures r'.availRing[Slot(p, r.num)] == r.availRing[Slot(p, r.num)]
    {
      SlotInjective(p, r.a, r.num);
    }
    SameContents(r, r');
  }

  // ----- the driver publishes a buffer -----

  lemma PublishAvail(r: Ring, r': Ring, id: nat)
    requires Shape(r) && AvailOk(r) && r.availRing[Slot(r.a, r.num)] == id
    requires Shape(r') && r'.num == r.num && r'.c == r.c && r'.a == r.a + 1 && r'.availRing == r.availRing
    requires r'.log.avail == r.log.avail + [id]
    ensures AvailOk(r')
  {
  }

  lemma PublishChains(r: Ring, id: nat, b: Buffer, chain: seq<nat>)
    requires ChainsOk(r) && id !in r.log.bufs
    requires Encoded(r.desc, chain, id, b) && (forall x :: x in chain ==> DescFree(r, x))
    ensures ChainsOk(DoPublish(r, id, b, chain))
  {
    var r' := DoPublish(r, id, b, chain);
    forall x | x in r'.chains
      ensures Encoded(r'.desc, r'.chains[x], x, r'.log.bufs[x])
    {
      if x != id {
        assert Encoded(r.desc, r.chains[x], x, r.log.bufs[x]);
      }
    }
  }

  lemma PublishTables(r: Ring, id: nat, b: Buffer, chain: seq<nat>)
    requires TablesOk(r) && id !in r.log.bufs
    requires b.table.Some? ==>
               TableFree(r, b.table.value) && b.table.value in r.tables && TableHolds(r.tables[b.table.value], b.sg, b.out)
    ensures TablesOk(DoPublish(r, id, b, chain))
  {
  }

  lemma PublishStep(r: Ring, act: Act)
    requires RingOk(r) && Can(r, act) && act.Publish?
    ensures RingOk(Do(r, act))
  {
    AddedKeeps(r.log, r.num, act.id, act.b);
    hide LogOk, ChainsOk, TablesOk, AvailOk, UsedOk, Encoded, TableHolds, DescFree, TableFree, PowerOfTwo, Slot;
    SameUsed(r, DoPublish(r, act.id, act.b, act.chain));
    PublishChains(r, act.id, act.b, act.chain);
    PublishTables(r, act.id, act.b, act.chain);
    PublishAvail(r, DoPublish(r, act.id, act.b, act.chain), act.id);
  }

  // ----- the driver reclaims the oldest used entry -----

  lemma ReclaimUsed(r: Ring, r': Ring)
    requires Shape(r) && UsedOk(r) && r.u < r.v
    requires Shape(r') && r'.num == r.num && r'.usedRing == r.usedRing && r'.v == r.v && r'.u == r.u + 1
    requires r'.log.used == r.log.used[1..]
    ensures UsedOk(r')
  {
  }

  lemma ReclaimContents(r: Ring)
    requires ChainsOk(r) && TablesOk(r) && r.log.used != []
    ensures ChainsOk(DoReclaim(r)) && TablesOk(DoReclaim(r))
  {
  }

  lemma ReclaimStep(r: Ring, act: Act)
    requires RingOk(r) && Can(r, act) && act.Reclaim?
    ensures RingOk(Do(r, act))
  {
    DriverSeesUsed(r);
    ReclaimedKeeps(r.log, r.num);
    hide LogOk, ChainsOk, TablesOk, UsedOk;
    ReclaimContents(r);
    ReclaimUsed(r, DoReclaim(r));
  }

  // ----- notification steps -----

  lemma NotifyKeeps(r: Ring, r': Ring)
    requires RingOk(r) && NotifyOk(r')
    requires r' == r.(noInterrupt := r'.noInterrupt, usedEvent := r'.usedEvent, noNotify := r'.noNotify,
                      availEvent := r'.availEvent, signalled := r'.signalled, irq := r'.irq, armed := r'.armed,
                      lastKick := r'.lastKick, kicked := r'.kicked, asleep := r'.asleep, kicksExact := r'.kicksExact)
    ensures RingOk(r')
  {
    hide LogOk, ChainsOk, TablesOk, AvailOk, UsedOk, NotifyOk;
    SameContents(r, r');
    SameRings(r, r');
  }

  /** An armed position that the device has passed, and has not evaluated yet, makes the
      evaluation raise an interrupt. */
  lemma ArmedCrossing(r: Ring)
    requires NotifyOk(r)
    ensures r.armed.Some? && r.armed.value < r.v && !r.irq ==> MustSignal(r)
  {
    if r.armed.Some? && r.armed.value < r.v && !r.irq && r.eventIdx {
      var e := r.armed.value;
      SplitKickExact(r.v, r.v - r.signalled, r.usedEvent);
      assert Crossed(r.signalled, r.v, r.usedEvent);
    }
  }

  /** A sleeping device behind the ring's end, last looked after before that, gets its kick. */
  lemma KickReaches(r: Ring)
    requires NotifyOk(r) && KickExact(r)
    ensures r.asleep && r.lastKick <= r.c < r.a ==> DriverKicks(r)
  {
    if r.asleep && r.lastKick <= r.c < r.a && r.eventIdx {
      var n := r.a - r.lastKick;
      assert U32(n) == n;
      SplitKickExact(r.a, n, r.availEvent);
      assert Crossed(r.lastKick, r.a, r.availEvent);
    }
  }

  lemma InterruptStep(r: Ring, act: Act)
    requires RingOk(r) && Can(r, act) && (act.Signal? || act.SetEvent? || act.Arm?)
    ensures RingOk(Do(r, act))
  {
    ArmedCrossing(r);
    hide LogOk, ChainsOk, TablesOk, AvailOk, UsedOk, InflightOk, MustSignal, DriverKicks;
    NotifyKeeps(r, Do(r, act));
  }

  lemma SleepStep(r: Ring, act: Act)
    requires RingOk(r) && Can(r, act) && (act.PublishEvent? || act.Sleep? || act.Wake?)
    ensures RingOk(Do(r, act))
  {
    if act.Sleep? {
      DeviceSeesAvailable(r);
    }
    hide LogOk, ChainsOk, TablesOk, AvailOk, UsedOk, InflightOk, MustSignal, DriverKicks, Decode, Walk;
    NotifyKeeps(r, Do(r, act));
  }

  lemma KickStep(r: Ring, act: Act)
    requires RingOk(r) && Can(r, act) && act.Kick?
    ensures RingOk(Do(r, act))
  {
    if KickExact(r) {
      KickReaches(r);
    }
    hide LogOk, ChainsOk, TablesOk, AvailOk, UsedOk, InflightOk, MustSignal, DriverKicks;
    NotifyKeeps(r, Do(r, act));
  }

  /** Every step of either side keeps the invariant. */
  lemma StepKeeps(r: Ring, act: Act)
    requires RingOk(r) && Can(r, act)
    ensures RingOk(Do(r, act))
  {
    hide RingOk, Can, Do;
    match act
    case Consume => ConsumeStep(r, act);
    case Complete(_, _) => CompleteStep(r, act);
    case Poke(_, _) => PokeStep(r, act);
    case PokeTable(_, _) => PokeTableStep(r, act);
    case PokeAvail(_) => PokeAvailStep(r, act);
    case Publish(_, _, _) => PublishStep(r, act);
    case Reclaim => ReclaimStep(r, act);
    case Kick => KickStep(r, act);
    case Signal(_) => InterruptStep(r, act);
    case SetEvent(_, _) => InterruptStep(r, act);
    case Arm(_) => InterruptStep(r, act);
    case _ => SleepStep(r, act);
  }

  // ----- notifications are not lost -----

  /** What the decision comes to: with event indices, whether the adds that the 32-bit count covers have
      crossed the device's event; without, whether the device left notifications on. */
  lemma KickMeans(r: Ring)
    requires NotifyOk(r)
    ensures r.lastKick <= r.a
    ensures r.eventIdx ==> (DriverKicks(r) <==> Crossed(r.a - U32(r.a - r.lastKick), r.a, r.availEvent))
    ensures !r.eventIdx ==> (DriverKicks(r) <==> !r.noNotify)
  {
    SplitKickExact(r.a, U32(r.a - r.lastKick), r.availEvent);
  }

  /** Exactly when the decision reaches a device asleep at c, for any number of adds since the last
      kick: the 32-bit count must not have lost the add that the device waits for. */
  lemma KickDecides(r: Ring)
    requires Shape(r) && r.eventIdx && r.availEvent == U16(r.c) && r.c < r.a && r.lastKick <= r.a
    ensures DriverKicks(r) <==> r.a - r.c <= U32(r.a - r.lastKick)
  {
    var n := U32(r.a - r.lastKick);
    SplitKickExact(r.a, n, r.availEvent);
    forall p | p < r.a && U16(p) == r.availEvent
      ensures p <= r.c
    {
      Behind(p, r.c, r.a);
    }
    hide Shape, Crossed, SplitKick, U16, U32;
    CrossedAt(r.a - n, r.a, r.availEvent, r.c);
  }

  lemma Behind(p: int, c: int, a: int)
    requires p < a <= c + 0x8000 && U16(p) == U16(c)
    ensures p <= c
  {
    var i := U16Split(p);
    var j := U16Split(c);
  }

  /** No lost interrupt: once the driver was armed for position e, completions beyond e come
      with an interrupt, raised or still owed by the device's next evaluation. */
  lemma NoLostInterrupt(r: Ring, raise: bool)
    requires RingOk(r) && r.armed.Some? && r.armed.value < r.v && Can(r, Signal(raise))
    ensures r.irq || MustSignal(r)
    ensures Do(r, Signal(raise)).irq
  {
    ArmedCrossing(r);
  }

  /** No lost kick: a device asleep behind the ring's end was kicked, or kick_prepare tells
      the driver to notify it. */
  lemma NoLostKick(r: Ring)
    requires RingOk(r) && r.asleep && r.kicksExact && r.c < r.a && KickExact(r)
    ensures r.kicked || DriverKicks(r)
    ensures Do(r, Kick).kicked
  {
    KickReaches(r);
  }

  // ----- whole runs -----

  /** A ring as vring_new_virtqueue_split leaves it, over zeroed pages. */
  function Initial(num: nat, eventIdx: bool, tables: map<nat, seq<Desc>>): (r: Ring)
    requires num > 0
  {
    Ring(num, eventIdx,
         seq(num, i requires 0 <= i < num => Desc(0, 0, i != num - 1, false, false, if i == num - 1 then 0 else i + 1)),
         tables, seq(num, _ => 0), 0, false, 0, seq(num, _ => Elem(0, 0)), 0, false, 0,
         0, 0, 0, 0, Log(map[], [], [], [], [], [], 0), map[],
         0, false, None, 0, false, false, true)
  }

  lemma InitialOk(num: nat, eventIdx: bool, tables: map<nat, seq<Desc>>)
    requires QueueSize(num) && PowerOfTwo(num)
    ensures var r := Initial(num, eventIdx, tables);
            RingOk(r) && r.a == r.u == r.v == r.c == 0 && !r.irq && r.armed == None && !r.asleep && !r.kicked
  {
    EmptyOk(num);
    hide LogOk;
  }

  ghost predicate IsRun(states: seq<Ring>, acts: seq<Act>) {
    && |states| == |acts| + 1
    && forall i :: 0 <= i < |acts| ==>
         Shape(states[i]) && Can(states[i], acts[i]) && states[i + 1] == Do(states[i], acts[i])
  }

  /** The invariant holds in every state of every run, however the steps interleave. */
  lemma {:induction false} EveryRun(states: seq<Ring>, acts: seq<Act>)
    requires IsRun(states, acts) && RingOk(states[0])
    ensures forall i :: 0 <= i < |states| ==> RingOk(states[i])
  {
    hide RingOk, Can, Do, Shape;
    var k := 0;
    while k < |acts|
      invariant k <= |acts|
      invariant forall i :: 0 <= i <= k ==> RingOk(states[i])
    {
      assert Can(states[k], acts[k]);
      StepKeeps(states[k], acts[k]);
      k := k + 1;
    }
  }
}
