/**
 The split ring shared by driver and device, as one value, and every atomic step that
 either side takes on it (section 2.6 of VIRTIO 1.1).

 Positions count buffers and only grow: a were made available, c consumed, v published as
 used and u reclaimed. The shared indices hold a and v truncated to 16 bits.
 */
module SplitRing {
  import opened Bits
  import opened DescPool
  import opened Ledger
  import opened Positions

  datatype Desc = Desc(addr: nat, len: nat, next: bool, write: bool, indirect: bool, link: nat)

  datatype Elem = Elem(id: nat, len: nat)

  datatype Ring = Ring(
    num: nat,
    // event indices were negotiated
    eventIdx: bool,
    // written by the driver
    desc: seq<Desc>, tables: map<nat, seq<Desc>>,
    availRing: seq<nat>, availIdx: nat, noInterrupt: bool, usedEvent: nat,
    // written by the device
    usedRing: seq<Elem>, usedIdx: nat, noNotify: bool, availEvent: nat,
    u: nat, v: nat, c: nat, a: nat,
    log: Log, chains: map<nat, seq<nat>>,
    // notifications to the driver
    signalled: nat, irq: bool, armed: Option<nat>,
    // notifications to the device; kicksExact: no count of added buffers was truncated in a kick
    // decision since the device last fell asleep
    lastKick: nat, kicked: bool, asleep: bool, kicksExact: bool)

  // ----- what the device reads -----

  function SegmentOf(d: Desc): Segment {
    Segment(d.addr, d.len, d.write)
  }

  /** A chain of descriptors from entry k of table t on. */
  function Walk(t: seq<Desc>, k: nat, fuel: nat): (s: seq<Segment>)
    decreases fuel
  {
    if fuel == 0 || k >= |t| then []
    else if t[k].next then [SegmentOf(t[k])] + Walk(t, t[k].link, fuel - 1)
    else [SegmentOf(t[k])]
  }

  /** The buffer with head id, as the device reads it: an indirect descriptor names a table
      of len / 16 descriptors. */
  function Decode(r: Ring, id: nat): (s: seq<Segment>) {
    if id >= |r.desc| then []
    else if r.desc[id].indirect then
      (if r.desc[id].addr in r.tables && r.desc[id].len / 16 <= |r.tables[r.desc[id].addr]|
       then Walk(r.tables[r.desc[id].addr][..r.desc[id].len / 16], 0, r.desc[id].len / 16) else [])
    else Walk(r.desc, id, r.num)
  }

  // ----- invariant -----

  predicate Shape(r: Ring) {
    && QueueSize(r.num) && PowerOfTwo(r.num)
    && |r.desc| == r.num && |r.availRing| == r.num && |r.usedRing| == r.num
    && r.u <= r.v <= r.c <= r.a <= r.u + r.num
    && r.availIdx == U16(r.a) && r.usedIdx == U16(r.v)
  }

  /** The avail ring holds the ids not consumed yet, from position c on. */
  ghost predicate AvailOk(r: Ring)
    requires Shape(r)
  {
    && |r.log.avail| == r.a - r.c
    && forall p :: r.c <= p < r.a ==> r.availRing[Slot(p, r.num)] == r.log.avail[p - r.c]
  }

  /** The used ring holds the completions not reclaimed yet, from position u on. */
  ghost predicate UsedOk(r: Ring)
    requires Shape(r)
  {
    && |r.log.used| == r.v - r.u
    && forall p :: r.u <= p < r.v ==>
         r.usedRing[Slot(p, r.num)] == Elem(r.log.used[p - r.u].id, r.log.used[p - r.u].len)
  }

  ghost predicate InflightOk(r: Ring) {
    r.v + |r.log.inflight| == r.c
  }

  function NextOf(chain: seq<nat>, i: nat): nat {
    if i + 1 < |chain| then chain[i + 1] else 0
  }

  /** Descriptor d holds element i of buffer b. */
  predicate Holds(d: Desc, sg: seq<Sg>, out: nat, i: nat) {
    && i < |sg| && !d.indirect && SegmentOf(d) == Segment(sg[i].addr, sg[i].len, i >= out)
    && d.next == (i != |sg| - 1)
  }

  /** Buffer b is written out along chain. */
  predicate Encoded(desc: seq<Desc>, chain: seq<nat>, id: nat, b: Buffer) {
    && |chain| == b.n && |chain| >= 1 && chain[0] == id
    && Below(chain, |desc|) && Distinct(chain)
    && if b.table.Some? then
         && desc[id].indirect && !desc[id].next
         && desc[id].addr == b.table.value && desc[id].len == 16 * |b.sg|
       else
         forall i :: 0 <= i < |chain| ==>
           && Holds(desc[chain[i]], b.sg, b.out, i)
           && (desc[chain[i]].next ==> desc[chain[i]].link == NextOf(chain, i))
  }

  /** Every outstanding buffer is written out along a chain of its own. */
  ghost predicate ChainsOk(r: Ring) {
    && r.chains.Keys == r.log.bufs.Keys
    && (forall id :: id in r.chains ==> Encoded(r.desc, r.chains[id], id, r.log.bufs[id]))
    && (forall id, id', x :: id in r.chains && id' in r.chains && x in r.chains[id] && x in r.chains[id'] ==> id == id')
  }

  /** Table t holds a whole buffer, chained through all its entries. */
  predicate TableHolds(t: seq<Desc>, sg: seq<Sg>, out: nat) {
    && |t| >= |sg|
    && forall i :: 0 <= i < |sg| ==> Holds(t[i], sg, out, i) && (t[i].next ==> t[i].link == i + 1)
  }

  predicate SameTable(b: Buffer, b': Buffer) {
    b.table.Some? && b.table == b'.table
  }

  /** The table of every outstanding indirect buffer holds it, and is its own. */
  ghost predicate TablesOk(r: Ring) {
    && (forall id :: id in r.log.bufs && r.log.bufs[id].table.Some? ==>
          && r.log.bufs[id].table.value in r.tables
          && TableHolds(r.tables[r.log.bufs[id].table.value], r.log.bufs[id].sg, r.log.bufs[id].out))
    && (forall id, id' :: id in r.log.bufs && id' in r.log.bufs && SameTable(r.log.bufs[id], r.log.bufs[id']) ==> id == id')
  }

  /** The driver asks for an interrupt once the device has passed position e. */
  predicate AsksInterrupt(r: Ring, e: nat) {
    if r.eventIdx then r.usedEvent == U16(e) else !r.noInterrupt
  }

  /** The device asks for a kick once the driver has passed position e. */
  predicate AsksKick(r: Ring, e: nat) {
    if r.eventIdx then r.availEvent == U16(e) else !r.noNotify
  }

  /** While the driver is armed for position e, an interrupt was raised or the device has not
      evaluated the event since it was at or before e. While the device sleeps, it was kicked or
      the driver has not run kick_prepare since the ring was at or before c. */
  ghost predicate NotifyOk(r: Ring) {
    && r.signalled <= r.v && r.lastKick <= r.a && r.availEvent < 0x1_0000
    && (r.armed.Some? ==>
          && r.u <= r.armed.value && AsksInterrupt(r, r.armed.value)
          && (r.irq || r.signalled <= r.armed.value))
    && (r.asleep ==> AsksKick(r, r.c))
    && (r.asleep && r.kicksExact ==> r.kicked || r.lastKick <= r.c)
  }

  ghost predicate RingOk(r: Ring) {
    && Shape(r) && AvailOk(r) && UsedOk(r) && InflightOk(r) && LogOk(r.log, r.num)
    && ChainsOk(r) && TablesOk(r) && NotifyOk(r)
  }

  // ----- what the invariant says about a reader of the ring -----

  lemma {:induction false} WalkIs(t: seq<Desc>, chain: seq<nat>, sg: seq<Sg>, out: nat, i: nat, fuel: nat)
    requires |chain| == |sg| && i < |chain| && |chain| - i <= fuel
    requires Below(chain, |t|)
    requires forall j :: 0 <= j < |chain| ==>
               Holds(t[chain[j]], sg, out, j) && (t[chain[j]].next ==> t[chain[j]].link == NextOf(chain, j))
    ensures Walk(t, chain[i], fuel) == Meaning(sg, out)[i..]
    decreases fuel
  {
    if i + 1 < |chain| {
      assert NextOf(chain, i) == chain[i + 1];
      WalkIs(t, chain, sg, out, i + 1, fuel - 1);
      assert Meaning(sg, out)[i..] == [Meaning(sg, out)[i]] + Meaning(sg, out)[i + 1..];
    }
  }

  lemma {:induction false} WalkTable(t: seq<Desc>, sg: seq<Sg>, out: nat)
    requires TableHolds(t, sg, out) && |sg| >= 1
    ensures Walk(t[..|sg|], 0, |sg|) == Meaning(sg, out)
  {
    var chain := seq(|sg|, i requires 0 <= i < |sg| => i);
    assert forall i :: 0 <= i < |sg| ==> t[..|sg|][i] == t[i];
    WalkIs(t[..|sg|], chain, sg, out, 0, |sg|);
  }

  /** As long as a buffer is outstanding, decoding its head gives the scatter/gather list that was
      added, whichever form it has and whatever else was added or returned meanwhile. */
  lemma OutstandingDecodes(r: Ring, id: nat)
    requires RingOk(r) && id in r.log.bufs
    ensures Decode(r, id) == Meaning(r.log.bufs[id].sg, r.log.bufs[id].out)
  {
    var b := r.log.bufs[id];
    assert Encoded(r.desc, r.chains[id], id, b) && BufferOk(b);
    if b.table.Some? {
      assert r.desc[id].len / 16 == |b.sg|;
      WalkTable(r.tables[b.table.value], b.sg, b.out);
    } else {
      ChainFits(r, id);
      WalkIs(r.desc, r.chains[id], b.sg, b.out, 0, r.num);
    }
  }

  /** A direct chain has no more nodes than the table: it follows NEXT and stops only once. */
  lemma ChainFits(r: Ring, id: nat)
    requires RingOk(r) && id in r.log.bufs && r.log.bufs[id].table.None?
    ensures |r.chains[id]| <= r.num
  {
    assert Encoded(r.desc, r.chains[id], id, r.log.bufs[id]);
    DistinctFits(r.num, r.chains[id]);
  }

  /** 16-bit indices of positions at most a ring apart are equal exactly when the positions are. */
  lemma IndexExact(p: nat, q: nat, num: nat)
    requires QueueSize(num) && p <= q <= p + num
    ensures U16(p) == U16(q) <==> p == q
  {
    var i := U16Split(p);
    var j := U16Split(q);
  }

  /** The device sees a new entry exactly when a buffer is available, and then finds its id. */
  lemma DeviceSeesAvailable(r: Ring)
    requires RingOk(r)
    ensures r.availIdx != U16(r.c) <==> r.c < r.a
    ensures r.c < r.a ==> r.log.avail != [] && r.availRing[Slot(r.c, r.num)] == r.log.avail[0] && r.log.avail[0] in r.log.bufs
  {
    IndexExact(r.c, r.a, r.num);
    KnownIds(r.log, r.num);
  }

  /** The driver's test for used entries is exact, and finds the oldest completion not returned. */
  lemma DriverSeesUsed(r: Ring)
    requires RingOk(r)
    ensures U16(r.u) != r.usedIdx <==> r.u < r.v
    ensures r.u < r.v <==> r.log.returned < |r.log.done|
    ensures r.u < r.v ==>
              && r.log.used != []
              && r.usedRing[Slot(r.u, r.num)] == Elem(r.log.used[0].id, r.log.used[0].len)
  {
    IndexExact(r.u, r.v, r.num);
    UsedIffDone(r.log, r.num);
  }

  /** As many buffers are outstanding as positions lie between u and a, at most num. */
  lemma Outstanding(r: Ring)
    requires RingOk(r)
    ensures |r.log.bufs| == r.a - r.u <= r.num
  {
    CountOutstanding(r.log, r.num);
  }

  // ----- steps -----

  datatype Act =
    // the device
    | Consume
    | Complete(k: nat, len: nat)
    | Signal(raise: bool)
    | PublishEvent(availEvent: nat, noNotify: bool)
    | Sleep
    | Wake
    // the driver
    | Poke(slot: nat, d: Desc)
    | PokeTable(addr: nat, table: seq<Desc>)
    | PokeAvail(head: nat)
    | Publish(id: nat, b: Buffer, chain: seq<nat>)
    | Reclaim
    | SetEvent(usedEvent: nat, noInterrupt: bool)
    | Arm(e: nat)
    | Kick

  predicate DeviceAct(act: Act) {
    act.Consume? || act.Complete? || act.Signal? || act.PublishEvent? || act.Sleep? || act.Wake?
  }

  /** What the standard asks of the device: the same test on the used index that the driver's
      kick makes on the avail index, or an interrupt for every entry without event indices. */
  predicate MustSignal(r: Ring) {
    if r.eventIdx then SplitKick(U16(r.v), if r.signalled <= r.v then r.v - r.signalled else 0, r.usedEvent)
    else !r.noInterrupt && r.signalled < r.v
  }

  /** virtqueue_kick_prepare_split. */
  predicate KickDecision(eventIdx: bool, availIdx: nat, numAdded: nat, availEvent: nat, noNotify: bool) {
    if eventIdx then SplitKick(availIdx, numAdded, availEvent) else !noNotify
  }

  predicate DriverKicks(r: Ring) {
    KickDecision(r.eventIdx, U16(r.a), U32(r.a - r.lastKick), r.availEvent, r.noNotify)
  }

  predicate KickExact(r: Ring) {
    r.a - r.lastKick < 0x1_0000_0000
  }

  predicate TableFree(r: Ring, t: nat) {
    forall id :: id in r.log.bufs ==> r.log.bufs[id].table != Some(t)
  }

  /** Descriptor k belongs to no outstanding buffer. */
  predicate DescFree(r: Ring, k: nat) {
    forall id :: id in r.chains ==> k !in r.chains[id]
  }

  predicate Can(r: Ring, act: Act)
    requires Shape(r)
  {
    match act
    case Consume => !r.asleep && r.availIdx != U16(r.c)
    case Complete(k, _) => k < |r.log.inflight|
    case Signal(raise) => MustSignal(r) ==> raise
    case PublishEvent(e, _) => !r.asleep && e < 0x1_0000
    case Sleep => !r.asleep && AsksKick(r, r.c) && r.availIdx == U16(r.c)
    case Wake => true
    case Poke(k, _) => k < r.num && DescFree(r, k)
    case PokeTable(t, _) => TableFree(r, t)
    case PokeAvail(_) => r.a < r.c + r.num
    case Publish(id, b, chain) =>
      && id !in r.log.bufs && id < r.num && BufferOk(b)
      && b.serial == |r.log.added| && b.pos == r.a && r.a < r.u + r.num
      && Encoded(r.desc, chain, id, b) && (forall x :: x in chain ==> DescFree(r, x))
      && r.availRing[Slot(r.a, r.num)] == id
      && (b.table.Some? ==>
            && TableFree(r, b.table.value)
            && b.table.value in r.tables && TableHolds(r.tables[b.table.value], b.sg, b.out))
    case Reclaim => U16(r.u) != r.usedIdx
    case SetEvent(_, _) => true
    case Arm(e) => r.u <= e && AsksInterrupt(r, e) && r.v <= e
    case Kick => true
  }

  function DoConsume(r: Ring): (r': Ring)
    requires Shape(r) && r.log.avail != []
  {
    r.(c := r.c + 1,
       log := r.log.(avail := r.log.avail[1..], inflight := r.log.inflight + [r.availRing[Slot(r.c, r.num)]]))
  }

  function DoComplete(r: Ring, k: nat, len: nat): (r': Ring)
    requires Shape(r) && k < |r.log.inflight| && r.log.inflight[k] in r.log.bufs
  {
    r.(v := r.v + 1, usedIdx := U16(r.v + 1),
       usedRing := r.usedRing[Slot(r.v, r.num) := Elem(r.log.inflight[k], len)],
       log := Completed(r.log, k, r.v, len))
  }

  function DoPublish(r: Ring, id: nat, b: Buffer, chain: seq<nat>): (r': Ring) {
    r.(a := r.a + 1, availIdx := U16(r.a + 1), log := Added(r.log, id, b), chains := r.chains[id := chain])
  }

  function DoReclaim(r: Ring): (r': Ring)
    requires r.log.used != []
  {
    r.(u := r.u + 1, log := Reclaimed(r.log), chains := r.chains - {r.log.used[0].id}, armed := None)
  }

  /** The state after a step. The invariant makes the tests in Consume, Complete and Reclaim true. */
  function Do(r: Ring, act: Act): (r': Ring)
    requires Shape(r) && Can(r, act)
  {
    match act
    case Consume => if r.log.avail != [] then DoConsume(r) else r
    case Complete(k, len) => if r.log.inflight[k] in r.log.bufs then DoComplete(r, k, len) else r
    case Signal(raise) => r.(signalled := r.v, irq := r.irq || raise)
    case PublishEvent(e, n) => r.(availEvent := e, noNotify := n)
    case Sleep => r.(asleep := true, kicked := false, kicksExact := true)
    case Wake => r.(asleep := false)
    case Poke(k, d) => r.(desc := r.desc[k := d])
    case PokeTable(t, table) => r.(tables := r.tables[t := table])
    case PokeAvail(id) => r.(availRing := r.availRing[Slot(r.a, r.num) := id])
    case Publish(id, b, chain) => DoPublish(r, id, b, chain)
    case Reclaim => if r.log.used != [] then DoReclaim(r) else r
    case SetEvent(e, n) => r.(usedEvent := e, noInterrupt := n, armed := None)
    case Arm(e) => r.(armed := Some(e), irq := false)
    case Kick =>
      r.(lastKick := r.a, kicked := r.kicked || DriverKicks(r), kicksExact := r.kicksExact && KickExact(r))
  }
}
