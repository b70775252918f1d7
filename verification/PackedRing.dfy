/**
 The packed ring shared by driver and device, as one value, and every atomic step
 that either side takes on it (section 2.7 of VIRTIO 1.1).

 Ring positions only grow: the driver has made everything before a available, the
 device has consumed everything before c and published used entries before v, and
 the driver has reclaimed everything before u.
 */
module PackedRing {
  import opened Ledger
  import opened Positions

  const EVENT_ENABLE: nat := 0
  const EVENT_DISABLE: nat := 1
  const EVENT_DESC: nat := 2

  datatype Flags = Flags(next: bool, write: bool, indirect: bool, avail: bool, used: bool)

  datatype Desc = Desc(addr: nat, len: nat, id: nat, flags: Flags)

  /** An event suppression structure. */
  datatype Event = Event(offWrap: nat, flags: nat)

  datatype Ring = Ring(
    num: nat,
    desc: seq<Desc>,
    tables: map<nat, seq<Desc>>,
    u: nat, v: nat, c: nat, a: nat,
    // the driver has begun to write positions [a, a + w)
    w: nat,
    bufs: map<nat, Buffer>,
    // ids the device has not consumed, has in hand, has published as used
    avail: seq<nat>, inflight: seq<nat>, used: seq<UsedElem>,
    // history: tokens added, completions published, how many of those were returned
    added: seq<nat>, done: seq<Completion>, returned: nat,
    // notifications to the driver
    driverEvent: Event, signalled: nat, irq: bool, armed: Option<nat>,
    // notifications to the device
    deviceEvent: Event, lastKick: nat, kicked: bool, asleep: bool,
    // direct chains that filled the whole ring
    full: nat,
    // every kick decision since the device last fell asleep was taken with an even number of
    // those, and fewer than 65536 descriptors after the one before it
    kicksExact: bool)

  function LogOf(r: Ring): (l: Log) {
    Log(r.bufs, r.avail, r.inflight, r.used, r.added, r.done, r.returned)
  }

  // ----- what the device reads -----

  function At(r: Ring, p: nat): (d: Desc)
    requires r.num > 0 && |r.desc| == r.num
  {
    r.desc[Slot(p, r.num)]
  }

  /** The device's availability test for position p. */
  predicate LooksAvailable(r: Ring, p: nat)
    requires r.num > 0 && |r.desc| == r.num
  {
    At(r, p).flags.avail == Wrap(p, r.num) && At(r, p).flags.used != Wrap(p, r.num)
  }

  /** is_used_desc_packed on slot idx. */
  predicate IsUsedDesc(desc: seq<Desc>, idx: nat, wrapCounter: bool)
    requires idx < |desc|
  {
    desc[idx].flags.avail == desc[idx].flags.used && desc[idx].flags.used == wrapCounter
  }

  function SegmentOf(d: Desc): Segment {
    Segment(d.addr, d.len, d.flags.write)
  }

  function SegmentsOf(t: seq<Desc>): (s: seq<Segment>)
    ensures |s| == |t|
  {
    seq(|t|, i requires 0 <= i < |t| => SegmentOf(t[i]))
  }

  /** The buffer whose first descriptor is at position p, as the device reads it: an
      indirect descriptor names a table of len / 16 entries, others chain by NEXT. */
  function Decode(r: Ring, p: nat, fuel: nat): (s: seq<Segment>)
    requires r.num > 0 && |r.desc| == r.num
    decreases fuel
  {
    if fuel == 0 then []
    else if At(r, p).flags.indirect then
      (if At(r, p).addr in r.tables && At(r, p).len / 16 <= |r.tables[At(r, p).addr]|
       then SegmentsOf(r.tables[At(r, p).addr][..At(r, p).len / 16]) else [])
    else if At(r, p).flags.next then [SegmentOf(At(r, p))] + Decode(r, p + 1, fuel - 1)
    else [SegmentOf(At(r, p))]
  }

  /** The number of ring descriptors the device walks over from position p on. */
  function ChainLength(r: Ring, p: nat, fuel: nat): (n: nat)
    requires r.num > 0 && |r.desc| == r.num
    decreases fuel
  {
    if fuel > 0 && !At(r, p).flags.indirect && At(r, p).flags.next then 1 + ChainLength(r, p + 1, fuel - 1) else 1
  }

  // ----- invariant -----

  predicate Shape(r: Ring) {
    && QueueSize(r.num) && |r.desc| == r.num
    && r.u <= r.v <= r.c <= r.a && r.a + r.w <= r.u + r.num
  }

  /** The flag bits of every slot, by the position it currently stands for. */
  ghost predicate FlagsOk(r: Ring)
    requires Shape(r)
  {
    && (forall p :: r.u <= p < r.a ==> At(r, p).flags.avail == Wrap(p, r.num))
    && (forall p :: r.v <= p < r.a ==> At(r, p).flags.used == !Wrap(p, r.num))
    && (forall p :: (p == r.a || r.a + r.w <= p) && p < r.u + r.num ==> At(r, p).flags.avail == !Wrap(p, r.num))
  }

  ghost predicate KnownAvail(r: Ring) {
    forall j :: 0 <= j < |r.avail| ==> r.avail[j] in r.bufs
  }

  /** Where the j-th used entry, or available buffer, has to end. */
  ghost function UsedEnd(r: Ring, j: nat): nat {
    if j + 1 < |r.used| then r.used[j + 1].pos else r.v
  }

  ghost function AvailEnd(r: Ring, j: nat): nat
    requires KnownAvail(r)
  {
    if j + 1 < |r.avail| then r.bufs[r.avail[j + 1]].pos else r.a
  }

  /** Used entries tile [u, v) and each is readable at its first position. */
  ghost predicate UsedOk(r: Ring)
    requires Shape(r)
  {
    && KnownUsed(LogOf(r))
    && (r.used == [] ==> r.u == r.v)
    && (r.used != [] ==> r.used[0].pos == r.u)
    && (forall j {:trigger UsedEnd(r, j)} :: 0 <= j < |r.used| ==>
          r.used[j].pos + r.bufs[r.used[j].id].n == UsedEnd(r, j))
    && (forall j :: 0 <= j < |r.used| ==> UsedEntry(r, r.used[j]))
  }

  ghost predicate UsedEntry(r: Ring, e: UsedElem)
    requires Shape(r)
  {
    && r.u <= e.pos < r.v
    && At(r, e.pos).flags.used == Wrap(e.pos, r.num) && At(r, e.pos).id == e.id && At(r, e.pos).len == e.len
  }

  /** Available buffers tile [c, a) and are written out in full. */
  ghost predicate AvailOk(r: Ring)
    requires Shape(r)
  {
    && KnownAvail(r)
    && (r.avail == [] ==> r.c == r.a)
    && (r.avail != [] ==> r.bufs[r.avail[0]].pos == r.c)
    && (forall j {:trigger AvailEnd(r, j)} :: 0 <= j < |r.avail| ==>
          r.bufs[r.avail[j]].pos + r.bufs[r.avail[j]].n == AvailEnd(r, j))
    && (forall j :: 0 <= j < |r.avail| ==> Written(r, r.avail[j], r.bufs[r.avail[j]]))
  }

  /** Buffer b is in the ring under id, with all its descriptors in [c, a). */
  ghost predicate Written(r: Ring, id: nat, b: Buffer)
    requires Shape(r)
  {
    && r.c <= b.pos && b.pos + b.n <= r.a
    && forall k :: b.pos <= k < b.pos + b.n ==> Encodes(At(r, k), id, b, k - b.pos)
  }

  /** Descriptor d is the k-th one of buffer b, flag bits AVAIL and USED apart. */
  predicate Encodes(d: Desc, id: nat, b: Buffer, k: nat) {
    && d.id == id
    && if b.table.Some? then
         d.addr == b.table.value && d.len == 16 * |b.sg| && d.flags.indirect && !d.flags.next
       else
         && k < |b.sg| && d.addr == b.sg[k].addr && d.len == b.sg[k].len
         && !d.flags.indirect && d.flags.write == (k >= b.out) && d.flags.next == (k != |b.sg| - 1)
  }

  /** The number of descriptors of all buffers in ids. */
  function Total(bufs: map<nat, Buffer>, ids: seq<nat>): (n: nat) {
    if ids == [] then 0
    else Total(bufs, ids[1..]) + if ids[0] in bufs then bufs[ids[0]].n else 0
  }

  ghost predicate InflightOk(r: Ring) {
    r.v + Total(r.bufs, r.inflight) == r.c
  }

  ghost predicate Logged(r: Ring) {
    LogOk(LogOf(r), r.num)
  }

  /** The table of every outstanding indirect buffer holds it, and is its own. */
  ghost predicate TablesOk(r: Ring) {
    && (forall id :: id in r.bufs && r.bufs[id].table.Some? ==>
          && r.bufs[id].table.value in r.tables
          && TableHolds(r.tables[r.bufs[id].table.value], r.bufs[id].sg, r.bufs[id].out))
    && (forall id, id' :: id in r.bufs && id' in r.bufs && r.bufs[id].table.Some? && r.bufs[id'].table == r.bufs[id].table
          ==> id == id')
  }

  predicate TableHolds(t: seq<Desc>, sg: seq<Sg>, out: nat) {
    && |t| >= |sg|
    && forall i :: 0 <= i < |sg| ==>
         && SegmentOf(t[i]) == Segment(sg[i].addr, sg[i].len, i >= out)
         && t[i].flags == Flags(false, i >= out, false, false, false)
  }

  /** An event structure that asks to be told about position e. */
  predicate AsksFor(ev: Event, e: nat, num: nat)
    requires QueueSize(num)
  {
    ev.flags == EVENT_ENABLE || (ev.flags == EVENT_DESC && ev.offWrap == OffWrap(e, num))
  }

  /** While the driver is armed for position e, an interrupt was raised or the device has
      not evaluated the event since it was at or before e. While the device sleeps, it was
      kicked or the driver has not run kick_prepare since the ring was at or before c. */
  ghost predicate NotifyOk(r: Ring)
    requires Shape(r)
  {
    && r.signalled <= r.v
    && r.lastKick <= r.a
    && (r.armed.Some? ==>
          && r.u <= r.armed.value
          && AsksFor(r.driverEvent, r.armed.value, r.num)
          && (r.irq || r.signalled <= r.armed.value))
    && (r.asleep ==> AsksFor(r.deviceEvent, r.c, r.num))
    && (r.asleep && r.kicksExact ==> r.kicked || r.lastKick <= r.c)
  }

  ghost predicate RingOk(r: Ring) {
    && Shape(r) && FlagsOk(r) && UsedOk(r) && AvailOk(r) && InflightOk(r) && Logged(r)
    && TablesOk(r) && NotifyOk(r)
  }

  // ----- what the invariant says about a reader of the ring -----

  lemma {:induction false} DecodeDirect(r: Ring, id: nat, b: Buffer, k: nat, fuel: nat)
    requires Shape(r) && Written(r, id, b) && BufferOk(b) && b.table.None?
    requires k < |b.sg| && |b.sg| - k <= fuel
    ensures Decode(r, b.pos + k, fuel) == Meaning(b.sg, b.out)[k..]
    ensures ChainLength(r, b.pos + k, fuel) == |b.sg| - k
    decreases fuel
  {
    assert Encodes(At(r, b.pos + k), id, b, k);
    if k + 1 < |b.sg| {
      DecodeDirect(r, id, b, k + 1, fuel - 1);
      assert Meaning(b.sg, b.out)[k..] == [Meaning(b.sg, b.out)[k]] + Meaning(b.sg, b.out)[k + 1..];
    }
  }

  lemma DecodeIndirect(r: Ring, id: nat, b: Buffer, fuel: nat)
    requires Shape(r) && Written(r, id, b) && BufferOk(b) && b.table.Some? && fuel > 0
    requires b.table.value in r.tables && TableHolds(r.tables[b.table.value], b.sg, b.out)
    ensures Decode(r, b.pos, fuel) == Meaning(b.sg, b.out)
    ensures ChainLength(r, b.pos, fuel) == 1
  {
    assert Encodes(At(r, b.pos), id, b, 0);
    assert At(r, b.pos).len / 16 == |b.sg|;
  }

  /** The length of the buffer at position c and its id, taken from its last descriptor. */
  function ReadLength(r: Ring): (n: nat)
    requires r.num > 0 && |r.desc| == r.num
  {
    ChainLength(r, r.c, r.num)
  }

  function ReadId(r: Ring): (id: nat)
    requires r.num > 0 && |r.desc| == r.num
  {
    At(r, r.c + ChainLength(r, r.c, r.num) - 1).id
  }

  /** The device sees the next position as available exactly when a whole buffer is there,
      and then reads the scatter/gather list that was added, whichever form it has. */
  lemma DeviceSeesWholeBuffers(r: Ring)
    requires RingOk(r)
    ensures LooksAvailable(r, r.c) <==> r.c < r.a
    ensures LooksAvailable(r, r.c) ==>
              && r.avail != []
              && Decode(r, r.c, r.num) == Meaning(r.bufs[r.avail[0]].sg, r.bufs[r.avail[0]].out)
              && ReadId(r) == r.avail[0] && ReadLength(r) == r.bufs[r.avail[0]].n
  {
    if r.c < r.a {
      var id := r.avail[0];
      var b := r.bufs[id];
      assert Written(r, id, b) && BufferOk(b);
      if b.table.Some? {
        DecodeIndirect(r, id, b, r.num);
      } else {
        DecodeDirect(r, id, b, 0, r.num);
      }
      assert Encodes(At(r, b.pos + b.n - 1), id, b, b.n - 1);
    } else {
      NotAvailableAtEnd(r);
    }
  }

  /** The same for every published buffer, not only the next one: from its publication until the device
      consumes it, its first descriptor looks available and decodes to the list that was added. */
  lemma {:induction false} PublishedDecodes(r: Ring, j: nat)
    requires RingOk(r) && j < |r.avail|
    ensures r.avail[j] in r.bufs
    ensures var b := r.bufs[r.avail[j]];
            && LooksAvailable(r, b.pos) && Decode(r, b.pos, r.num) == Meaning(b.sg, b.out)
            && ChainLength(r, b.pos, r.num) == b.n
  {
    var id := r.avail[j];
    var b := r.bufs[id];
    assert Written(r, id, b) && BufferOk(b);
    assert b.table.Some? ==> b.table.value in r.tables && TableHolds(r.tables[b.table.value], b.sg, b.out);
    hide UsedOk, AvailOk, InflightOk, Logged, TablesOk, NotifyOk, Written, TableHolds;
    if b.table.Some? {
      DecodeIndirect(r, id, b, r.num);
    } else {
      DecodeDirect(r, id, b, 0, r.num);
    }
    assert LooksAvailable(r, b.pos);
  }

  /** The table of an indirect buffer holds the list until the buffer is returned. */
  lemma OutstandingTable(r: Ring, id: nat)
    requires RingOk(r) && id in r.bufs && r.bufs[id].table.Some?
    ensures var b := r.bufs[id];
            && b.table.value in r.tables && |b.sg| <= |r.tables[b.table.value]|
            && SegmentsOf(r.tables[b.table.value][..|b.sg|]) == Meaning(b.sg, b.out)
  {
  }

  lemma NotAvailableAtEnd(r: Ring)
    requires Shape(r) && FlagsOk(r) && r.c == r.a
    ensures !LooksAvailable(r, r.c)
  {
    if r.a == r.u + r.num {
      // the slot of position a still stands for position u
      assert Slot(r.a, r.num) == Slot(r.u, r.num) && Wrap(r.a, r.num) == !Wrap(r.u, r.num);
      assert At(r, r.u).flags.avail == Wrap(r.u, r.num);
    }
  }

  /** more_used_packed is true exactly when the device has published more than was reclaimed. */
  lemma MoreUsedExact(r: Ring)
    requires RingOk(r)
    ensures IsUsedDesc(r.desc, Slot(r.u, r.num), Wrap(r.u, r.num)) <==> r.u < r.v
    ensures r.u < r.v <==> r.returned < |r.done|
  {
    if r.u < r.v {
      assert UsedEntry(r, r.used[0]);
    }
  }

  // ----- steps -----

  datatype Act =
    // the device
    | Consume
    | Complete(k: nat, len: nat, write: bool)
    | Signal(raise: bool)
    | PublishEvent(ev: Event)
    | Sleep
    | Wake
    // the driver
    | Poke(k: nat, d: Desc)
    | PokeTable(addr: nat, table: seq<Desc>)
    | Publish(id: nat, b: Buffer, flags: Flags)
    | Reclaim
    | SetEvent(dev: Event)
    | Arm(e: nat)
    | Kick

  predicate DeviceAct(act: Act) {
    act.Consume? || act.Complete? || act.Signal? || act.PublishEvent? || act.Sleep? || act.Wake?
  }

  /** What the standard asks of the device: an interrupt, if the driver wants one for
      every entry, or for a position that was published since the last evaluation. */
  predicate MustSignal(r: Ring)
    requires QueueSize(r.num)
  {
    || (r.driverEvent.flags == EVENT_ENABLE && r.signalled < r.v)
    || (r.driverEvent.flags == EVENT_DESC &&
        exists p: nat :: r.signalled <= p < r.v && r.v <= p + r.num && OffWrap(p, r.num) == r.driverEvent.offWrap)
  }

  predicate KickExact(r: Ring) {
    r.full % 2 == 0 && r.a - r.lastKick < 0x1_0000
  }

  /** Position e is among the descriptors added since the last kick, as far as 16 bits can tell; with an
      odd number of ring-filling direct chains it is looked for a whole round off. */
  ghost predicate Announces(r: Ring, e: nat)
    requires r.num > 0 && e <= r.a && r.lastKick <= r.a
  {
    var n := U16(r.a - r.lastKick);
    if r.full % 2 == 0 then e < r.a && r.a - e <= n
    else if Wrap(e, r.num) == Wrap(r.a, r.num) then r.a - e + r.num <= n
    else r.a - e < r.num && 0x1_0000 + r.a - e - r.num <= n
  }

  /** virtqueue_kick_prepare_packed, from the driver's counters and the device's event structure. */
  predicate KickDecision(num: nat, nextAvail: nat, availWrap: bool, numAdded: nat, ev: Event) {
    if ev.flags != EVENT_DESC then ev.flags != EVENT_DISABLE
    else PackedKick(num, nextAvail, availWrap, numAdded, ev.offWrap)
  }

  /** The driver's avail_wrap_counter: it misses a flip for every direct chain of num descriptors. */
  predicate AvailWrapCounter(r: Ring)
    requires r.num > 0
  {
    Wrap(r.a, r.num) == (r.full % 2 == 0)
  }

  /** The decision in state r, whose counters the driver holds truncated. */
  predicate DriverKicks(r: Ring)
    requires r.num > 0
  {
    KickDecision(r.num, Slot(r.a, r.num), AvailWrapCounter(r), U32(r.a - r.lastKick), r.deviceEvent)
  }

  predicate TableFree(r: Ring, t: nat) {
    forall id :: id in r.bufs ==> r.bufs[id].table != Some(t)
  }

  /** The descriptors after the first of buffer b are in place behind position a. */
  predicate TailWritten(r: Ring, id: nat, b: Buffer)
    requires r.num > 0 && |r.desc| == r.num
  {
    forall k :: r.a < k < r.a + b.n ==>
      && Encodes(At(r, k), id, b, k - r.a)
      && At(r, k).flags.avail == Wrap(k, r.num) && At(r, k).flags.used == !Wrap(k, r.num)
  }

  predicate Can(r: Ring, act: Act)
    requires Shape(r)
  {
    match act
    case Consume => !r.asleep && LooksAvailable(r, r.c)
    case Complete(k, _, _) => k < |r.inflight|
    case Signal(raise) => MustSignal(r) ==> raise
    case PublishEvent(_) => !r.asleep
    case Sleep => !r.asleep && AsksFor(r.deviceEvent, r.c, r.num) && !LooksAvailable(r, r.c)
    case Wake => true
    case Poke(k, d) =>
      && r.a + k < r.u + r.num
      && (k == 0 ==> d.flags == At(r, r.a).flags)
    case PokeTable(t, _) => TableFree(r, t)
    case Publish(id, b, flags) =>
      && id !in r.bufs && id < r.num && BufferOk(b)
      && b.serial == |r.added| && b.pos == r.a && r.w <= b.n && r.a + b.n <= r.u + r.num
      && Encodes(At(r, r.a).(flags := flags), id, b, 0)
      && flags.avail == Wrap(r.a, r.num) && flags.used == !Wrap(r.a, r.num)
      && TailWritten(r, id, b)
      && (b.table.Some? ==>
            && TableFree(r, b.table.value)
            && b.table.value in r.tables && TableHolds(r.tables[b.table.value], b.sg, b.out))
    case Reclaim => IsUsedDesc(r.desc, Slot(r.u, r.num), Wrap(r.u, r.num))
    case SetEvent(_) => true
    case Arm(e) =>
      r.u <= e && AsksFor(r.driverEvent, e, r.num) && !IsUsedDesc(r.desc, Slot(r.u, r.num), Wrap(r.u, r.num))
    case Kick => true
  }

  function Store(r: Ring, p: nat, d: Desc): (r': Ring)
    requires r.num > 0 && |r.desc| == r.num
    ensures |r'.desc| == r.num
  {
    r.(desc := r.desc[Slot(p, r.num) := d])
  }

  function Max(x: nat, y: nat): nat { if x < y then y else x }

  function DoConsume(r: Ring): (r': Ring)
    requires r.num > 0 && |r.desc| == r.num && r.avail != []
  {
    r.(c := r.c + ReadLength(r), avail := r.avail[1..], inflight := r.inflight + [ReadId(r)])
  }

  /** The used entry the device stores at position v. */
  function UsedDesc(r: Ring, id: nat, len: nat, write: bool): (d: Desc)
    requires r.num > 0 && |r.desc| == r.num
  {
    Desc(At(r, r.v).addr, len, id, Flags(false, write, false, Wrap(r.v, r.num), Wrap(r.v, r.num)))
  }

  function DoComplete(r: Ring, k: nat, len: nat, write: bool): (r': Ring)
    requires r.num > 0 && |r.desc| == r.num && k < |r.inflight| && r.inflight[k] in r.bufs
  {
    var id := r.inflight[k];
    Store(r, r.v, UsedDesc(r, id, len, write)).(
      v := r.v + r.bufs[id].n,
      inflight := r.inflight[..k] + r.inflight[k + 1..],
      used := r.used + [UsedElem(id, r.v, len)],
      done := r.done + [Completion(r.bufs[id].serial, len)])
  }

  function DoPublish(r: Ring, id: nat, b: Buffer, flags: Flags): (r': Ring)
    requires r.num > 0 && |r.desc| == r.num
  {
    Store(r, r.a, At(r, r.a).(flags := flags)).(
      a := r.a + b.n, w := 0, bufs := r.bufs[id := b], avail := r.avail + [id], added := r.added + [b.token],
      full := r.full + if b.table.None? && b.n == r.num then 1 else 0)
  }

  function DoReclaim(r: Ring): (r': Ring)
    requires r.used != [] && r.used[0].id in r.bufs
  {
    var id := r.used[0].id;
    r.(u := r.u + r.bufs[id].n, used := r.used[1..], bufs := r.bufs - {id}, returned := r.returned + 1, armed := None)
  }

  /** The state after a step. The invariant makes the tests in Consume, Complete and Reclaim true. */
  function Do(r: Ring, act: Act): (r': Ring)
    requires Shape(r) && Can(r, act)
  {
    match act
    case Consume => if r.avail != [] then DoConsume(r) else r
    case Complete(k, len, write) => if r.inflight[k] in r.bufs then DoComplete(r, k, len, write) else r
    case Signal(raise) => r.(signalled := r.v, irq := r.irq || raise)
    case PublishEvent(ev) => r.(deviceEvent := ev)
    case Sleep => r.(asleep := true, kicked := false, kicksExact := true)
    case Wake => r.(asleep := false)
    case Poke(k, d) => Store(r, r.a + k, d).(w := Max(r.w, k + 1))
    case PokeTable(t, table) => r.(tables := r.tables[t := table])
    case Publish(id, b, flags) => DoPublish(r, id, b, flags)
    case Reclaim => if r.used != [] && r.used[0].id in r.bufs then DoReclaim(r) else r
    case SetEvent(ev) => r.(driverEvent := ev, armed := None)
    case Arm(e) => r.(armed := Some(e), irq := false)
    case Kick =>
      r.(lastKick := r.a, kicked := r.kicked || DriverKicks(r), kicksExact := r.kicksExact && KickExact(r))
  }
}
