/**
 Every step of the packed ring keeps its invariant, hence so does every run; and what
 that means for interrupts, kicks and returned buffers.
 */
module PackedProofs {
  import opened Ledger
  import opened Positions
  import opened PackedRing

  // ----- stores -----

  /** A store at one position of the current round leaves all the others alone. */
  lemma StoreFrame(r: Ring, q: nat, d: Desc)
    requires Shape(r) && r.u <= q < r.u + r.num
    ensures At(Store(r, q, d), q) == d
    ensures forall p :: r.u <= p < r.u + r.num && p != q ==> At(Store(r, q, d), p) == At(r, p)
  {
    forall p | r.u <= p < r.u + r.num && p != q
      ensures At(Store(r, q, d), p) == At(r, p)
    {
      SlotInjective(p, q, r.num);
    }
  }

  /** Two rings whose slots agree on [lo, hi). */
  ghost predicate Same(r: Ring, r': Ring, lo: nat, hi: nat)
    requires r.num > 0 && |r.desc| == r.num && r'.num == r.num && |r'.desc| == r.num
  {
    forall p :: lo <= p < hi ==> At(r', p) == At(r, p)
  }

  // ----- sums -----

  lemma {:induction false} TotalSplit(bufs: map<nat, Buffer>, s: seq<nat>, t: seq<nat>)
    ensures Total(bufs, s + t) == Total(bufs, s) + Total(bufs, t)
  {
    if s == [] {
      assert s + t == t;
    } else {
      assert (s + t)[1..] == s[1..] + t;
      TotalSplit(bufs, s[1..], t);
    }
  }

  lemma TotalOne(bufs: map<nat, Buffer>, id: nat)
    requires id in bufs
    ensures Total(bufs, [id]) == bufs[id].n
  {
  }

  lemma TotalRemove(bufs: map<nat, Buffer>, ids: seq<nat>, k: nat)
    requires k < |ids| && ids[k] in bufs
    ensures Total(bufs, ids) == Total(bufs, ids[..k] + ids[k + 1..]) + bufs[ids[k]].n
  {
    assert ids == ids[..k] + ([ids[k]] + ids[k + 1..]);
    TotalSplit(bufs, ids[..k], [ids[k]] + ids[k + 1..]);
    TotalSplit(bufs, [ids[k]], ids[k + 1..]);
    TotalSplit(bufs, ids[..k], ids[k + 1..]);
    TotalOne(bufs, ids[k]);
  }

  lemma {:induction false} TotalAgrees(bufs: map<nat, Buffer>, bufs': map<nat, Buffer>, ids: seq<nat>)
    requires forall j :: 0 <= j < |ids| ==> ids[j] in bufs && ids[j] in bufs' && bufs'[ids[j]] == bufs[ids[j]]
    ensures Total(bufs', ids) == Total(bufs, ids)
  {
    if ids != [] {
      assert forall j :: 0 <= j < |ids[1..]| ==> ids[1..][j] == ids[j + 1];
      TotalAgrees(bufs, bufs', ids[1..]);
    }
  }

  // ----- parts of the invariant that a step leaves alone -----

  lemma FlagsFrame(r: Ring, r': Ring)
    requires Shape(r) && FlagsOk(r)
    requires Shape(r') && r'.num == r.num && r'.u == r.u && r'.v == r.v && r'.a == r.a && r'.w == r.w
    requires Same(r, r', r.u, r.u + r.num)
    ensures FlagsOk(r')
  {
  }

  lemma UsedFrame(r: Ring, r': Ring)
    requires Shape(r) && UsedOk(r)
    requires Shape(r') && r'.num == r.num && r'.u == r.u && r'.v == r.v && r'.used == r.used && r'.bufs == r.bufs
    requires Same(r, r', r.u, r.v)
    ensures UsedOk(r')
  {
    forall j | 0 <= j < |r'.used|
      ensures UsedEntry(r', r'.used[j])
      ensures r'.used[j].pos + r'.bufs[r'.used[j].id].n == UsedEnd(r', j)
    {
      assert UsedEntry(r, r.used[j]);
      assert UsedEnd(r', j) == UsedEnd(r, j);
    }
  }

  /** Available buffers stay written as long as their own slots are left alone. */
  lemma AvailFrame(r: Ring, r': Ring)
    requires Shape(r) && AvailOk(r)
    requires Shape(r') && r'.num == r.num && r'.c == r.c && r'.a == r.a && r'.avail == r.avail && r'.bufs == r.bufs
    requires Same(r, r', r.c, r.a)
    ensures AvailOk(r')
  {
    forall j | 0 <= j < |r'.avail|
      ensures Written(r', r'.avail[j], r'.bufs[r'.avail[j]])
      ensures r'.bufs[r'.avail[j]].pos + r'.bufs[r'.avail[j]].n == AvailEnd(r', j)
    {
      assert Written(r, r.avail[j], r.bufs[r.avail[j]]);
      assert AvailEnd(r', j) == AvailEnd(r, j);
    }
  }

  lemma SameLog(r: Ring, r': Ring)
    requires Logged(r) && InflightOk(r)
    requires LogOf(r') == LogOf(r) && r'.num == r.num && r'.v == r.v && r'.c == r.c
    ensures Logged(r') && InflightOk(r')
  {
  }

  lemma SameTables(r: Ring, r': Ring)
    requires TablesOk(r) && r'.bufs == r.bufs && r'.tables == r.tables
    ensures TablesOk(r')
  {
  }

  // ----- the device consumes a buffer -----

  lemma ConsumeKeeps(r: Ring)
    requires RingOk(r) && LooksAvailable(r, r.c) && !r.asleep && r.avail != []
    ensures RingOk(DoConsume(r))
  {
    hide Logged, InflightOk, TablesOk, FlagsOk, UsedOk;
    DeviceSeesWholeBuffers(r);
    var r' := DoConsume(r);
    ConsumeAvail(r, r');
    ConsumeIds(r, r');
    FlagsFrame(r, r');
    UsedFrame(r, r');
    SameTables(r, r');
  }

  lemma ConsumeIds(r: Ring, r': Ring)
    requires Logged(r) && InflightOk(r) && KnownAvail(r) && r.avail != []
    requires LogOf(r') == Consumed(LogOf(r)) && r'.num == r.num && r'.v == r.v && r'.c == r.c + r.bufs[r.avail[0]].n
    ensures Logged(r') && InflightOk(r')
  {
    ConsumedKeeps(LogOf(r), r.num);
    TotalSplit(r.bufs, r.inflight, [r.avail[0]]);
    TotalOne(r.bufs, r.avail[0]);
  }

  lemma ConsumeAvail(r: Ring, r': Ring)
    requires Shape(r) && AvailOk(r) && Logged(r) && r.avail != []
    requires r'.num == r.num && r'.desc == r.desc && r'.bufs == r.bufs && r'.u == r.u && r'.v == r.v && r'.a == r.a && r'.w == r.w
    requires r'.c == r.c + r.bufs[r.avail[0]].n && r'.avail == r.avail[1..]
    ensures Shape(r') && AvailOk(r')
  {
    assert Written(r, r.avail[0], r.bufs[r.avail[0]]);
    assert AvailEnd(r, 0) == if |r.avail| > 1 then r.bufs[r.avail[1]].pos else r.a;
    assert forall j :: 0 <= j < |r'.avail| ==> r'.avail[j] == r.avail[j + 1];
    AvailPositions(r, r.avail);
    forall j | 0 <= j < |r'.avail|
      ensures Written(r', r'.avail[j], r'.bufs[r'.avail[j]])
      ensures r'.bufs[r'.avail[j]].pos + r'.bufs[r'.avail[j]].n == AvailEnd(r', j)
    {
      var b := r.bufs[r.avail[j + 1]];
      assert Written(r, r.avail[j + 1], b);
      assert AvailEnd(r', j) == AvailEnd(r, j + 1);
      assert forall k :: b.pos <= k < b.pos + b.n ==> At(r', k) == At(r, k);
    }
  }

  /** Positions of available buffers ascend. */
  lemma {:induction false} AvailPositions(r: Ring, ids: seq<nat>)
    requires Shape(r) && AvailOk(r) && Logged(r) && |ids| <= |r.avail| && ids == r.avail[..|ids|]
    ensures forall j :: 1 <= j < |ids| ==> r.bufs[r.avail[0]].pos + r.bufs[r.avail[0]].n <= r.bufs[ids[j]].pos
  {
    if |ids| >= 2 {
      var m := |ids| - 1;
      AvailPositions(r, ids[..m]);
      assert AvailEnd(r, m - 1) == r.bufs[r.avail[m]].pos;
      assert forall j :: 1 <= j < m ==> ids[j] == ids[..m][j];
      assert ids[m] == r.avail[m];
      if m >= 2 {
        assert ids[..m][m - 1] == r.avail[m - 1];
      }
    }
  }

  // ----- the device publishes a used entry -----

  lemma CompleteRoom(r: Ring, k: nat)
    requires Logged(r) && InflightOk(r) && k < |r.inflight|
    ensures r.inflight[k] in r.bufs && BufferOk(r.bufs[r.inflight[k]])
    ensures r.v + r.bufs[r.inflight[k]].n <= r.c
  {
    KnownIds(LogOf(r), r.num);
    TotalRemove(r.bufs, r.inflight, k);
  }

  lemma CompleteFrame(r: Ring, k: nat, len: nat, write: bool)
    requires Shape(r) && k < |r.inflight| && r.inflight[k] in r.bufs && r.v < r.c
    ensures Same(r, DoComplete(r, k, len, write), r.u, r.v)
    ensures Same(r, DoComplete(r, k, len, write), r.v + 1, r.u + r.num)
    ensures At(DoComplete(r, k, len, write), r.v) == UsedDesc(r, r.inflight[k], len, write)
  {
    var d := UsedDesc(r, r.inflight[k], len, write);
    StoreFrame(r, r.v, d);
    var r' := DoComplete(r, k, len, write);
    assert r'.desc == Store(r, r.v, d).desc;
    assert forall p {:trigger At(r', p)} :: r.u <= p < r.u + r.num ==> At(r', p) == At(Store(r, r.v, d), p);
  }

  lemma CompleteFlags(r: Ring, r': Ring, n: nat)
    requires Shape(r) && FlagsOk(r) && r.v + n <= r.c && n >= 1
    requires Shape(r') && r'.num == r.num && r'.u == r.u && r'.v == r.v + n && r'.a == r.a && r'.w == r.w
    requires Same(r, r', r.u, r.v) && Same(r, r', r.v + 1, r.u + r.num) && At(r', r.v).flags.avail == Wrap(r.v, r.num)
    ensures FlagsOk(r')
  {
  }

  lemma CompleteUsed(r: Ring, r': Ring, id: nat, len: nat)
    requires Shape(r) && UsedOk(r) && id in r.bufs && r.bufs[id].n >= 1
    requires Shape(r') && r'.num == r.num && r'.u == r.u && r'.v == r.v + r.bufs[id].n && r'.bufs == r.bufs
    requires r'.used == r.used + [UsedElem(id, r.v, len)]
    requires Same(r, r', r.u, r.v)
    requires At(r', r.v).flags.used == Wrap(r.v, r.num) && At(r', r.v).id == id && At(r', r.v).len == len
    ensures UsedOk(r')
  {
    forall j | 0 <= j < |r'.used|
      ensures r'.used[j].id in r.bufs
      ensures r'.used[j].pos + r.bufs[r'.used[j].id].n == UsedEnd(r', j)
      ensures UsedEntry(r', r'.used[j])
    {
      if j < |r.used| {
        assert r'.used[j] == r.used[j];
        assert UsedEntry(r, r.used[j]);
        assert UsedEnd(r', j) == UsedEnd(r, j);
      }
    }
    assert KnownUsed(LogOf(r'));
    assert r'.used[0].pos == r'.u;
  }

  lemma CompleteIds(r: Ring, k: nat, len: nat, write: bool)
    requires Logged(r) && InflightOk(r) && r.num > 0 && |r.desc| == r.num && k < |r.inflight| && r.inflight[k] in r.bufs
    ensures Logged(DoComplete(r, k, len, write)) && InflightOk(DoComplete(r, k, len, write))
  {
    CompletedKeeps(LogOf(r), r.num, k, r.v, len);
    TotalRemove(r.bufs, r.inflight, k);
  }

  lemma CompleteContents(r: Ring, r': Ring, id: nat, len: nat)
    requires Shape(r) && FlagsOk(r) && UsedOk(r) && AvailOk(r)
    requires id in r.bufs && 1 <= r.bufs[id].n && r.v + r.bufs[id].n <= r.c
    requires r'.num == r.num && |r'.desc| == r.num && r'.u == r.u && r'.v == r.v + r.bufs[id].n && r'.c == r.c
    requires r'.a == r.a && r'.w == r.w && r'.bufs == r.bufs && r'.avail == r.avail
    requires r'.used == r.used + [UsedElem(id, r.v, len)]
    requires Same(r, r', r.u, r.v) && Same(r, r', r.v + 1, r.u + r.num)
    requires At(r', r.v).flags.used == Wrap(r.v, r.num) && At(r', r.v).flags.avail == Wrap(r.v, r.num)
    requires At(r', r.v).id == id && At(r', r.v).len == len
    ensures Shape(r') && FlagsOk(r') && UsedOk(r') && AvailOk(r')
  {
    hide FlagsOk, AvailOk, UsedOk, Same, At, Wrap;
    CompleteFlags(r, r', r.bufs[id].n);
    CompleteUsed(r, r', id, len);
    CompleteSame(r, r');
    AvailFrame(r, r');
  }

  lemma CompleteSame(r: Ring, r': Ring)
    requires Shape(r) && r.v < r.c && r'.num == r.num && |r'.desc| == r.num && Same(r, r', r.v + 1, r.u + r.num)
    ensures Same(r, r', r.c, r.a) && Same(r, r', r.a, r.u + r.num)
  {
  }

  lemma CompleteKeeps(r: Ring, k: nat, len: nat, write: bool)
    requires RingOk(r) && k < |r.inflight| && r.inflight[k] in r.bufs
    ensures RingOk(DoComplete(r, k, len, write))
  {
    hide Logged, InflightOk, TablesOk, FlagsOk, AvailOk, UsedOk, At, Wrap, OffWrap, Same;
    CompleteRoom(r, k);
    CompleteFrame(r, k, len, write);
    var r' := DoComplete(r, k, len, write);
    CompleteContents(r, r', r.inflight[k], len);
    CompleteIds(r, k, len, write);
    SameTables(r, r');
  }

  // ----- steps that touch only notification state -----

  lemma NotifyKeeps(r: Ring, r': Ring)
    requires RingOk(r) && Shape(r') && NotifyOk(r')
    requires r' == r.(driverEvent := r'.driverEvent, signalled := r'.signalled, irq := r'.irq, armed := r'.armed,
                      deviceEvent := r'.deviceEvent, lastKick := r'.lastKick, kicked := r'.kicked,
                      asleep := r'.asleep, kicksExact := r'.kicksExact)
    ensures RingOk(r')
  {
    hide Logged, InflightOk, TablesOk, FlagsOk, AvailOk, UsedOk;
    FlagsFrame(r, r');
    UsedFrame(r, r');
    AvailFrame(r, r');
    SameLog(r, r');
    SameTables(r, r');
  }

  // ----- the driver writes a descriptor it has not published -----

  lemma PokeFlags(r: Ring, r': Ring, k: nat)
    requires Shape(r) && FlagsOk(r) && r.a + k < r.u + r.num
    requires Shape(r') && r'.num == r.num && r'.u == r.u && r'.v == r.v && r'.a == r.a && r'.w == Max(r.w, k + 1)
    requires Same(r, r', r.u, r.a + k) && Same(r, r', r.a + k + 1, r.u + r.num)
    requires k == 0 ==> At(r', r.a).flags == At(r, r.a).flags
    ensures FlagsOk(r')
  {
  }

  lemma PokeFrame(r: Ring, k: nat, d: Desc)
    requires Shape(r) && r.a + k < r.u + r.num
    ensures Same(r, Store(r, r.a + k, d), r.u, r.a + k)
    ensures Same(r, Store(r, r.a + k, d), r.a + k + 1, r.u + r.num)
    ensures At(Store(r, r.a + k, d), r.a + k) == d
  {
    StoreFrame(r, r.a + k, d);
  }

  lemma PokeKeeps(r: Ring, k: nat, d: Desc)
    requires RingOk(r) && r.a + k < r.u + r.num && (k == 0 ==> d.flags == At(r, r.a).flags)
    ensures RingOk(Store(r, r.a + k, d).(w := Max(r.w, k + 1)))
  {
    hide Logged, InflightOk, TablesOk, FlagsOk, AvailOk, UsedOk;
    PokeFrame(r, k, d);
    var r0 := Store(r, r.a + k, d);
    var r' := r0.(w := Max(r.w, k + 1));
    assert forall p {:trigger At(r', p)} :: At(r', p) == At(r0, p);
    PokeFlags(r, r', k);
    UsedFrame(r, r');
    AvailFrame(r, r');
    SameLog(r, r');
    SameTables(r, r');
  }

  lemma PokeTableKeeps(r: Ring, t: nat, table: seq<Desc>)
    requires RingOk(r) && TableFree(r, t)
    ensures RingOk(r.(tables := r.tables[t := table]))
  {
    hide Logged, InflightOk, FlagsOk, AvailOk, UsedOk;
    var r' := r.(tables := r.tables[t := table]);
    FlagsFrame(r, r');
    UsedFrame(r, r');
    AvailFrame(r, r');
    SameLog(r, r');
  }

  // ----- the driver publishes a buffer -----

  lemma PublishFrame(r: Ring, id: nat, b: Buffer, flags: Flags)
    requires Shape(r) && Can(r, Publish(id, b, flags))
    ensures Shape(DoPublish(r, id, b, flags))
    ensures Same(r, DoPublish(r, id, b, flags), r.u, r.a)
    ensures Same(r, DoPublish(r, id, b, flags), r.a + 1, r.u + r.num)
    ensures At(DoPublish(r, id, b, flags), r.a) == At(r, r.a).(flags := flags)
  {
    var d := At(r, r.a).(flags := flags);
    StoreFrame(r, r.a, d);
    var r' := DoPublish(r, id, b, flags);
    assert forall p {:trigger At(r', p)} :: At(r', p) == At(Store(r, r.a, d), p);
  }

  lemma PublishFlags(r: Ring, r': Ring, n: nat)
    requires Shape(r) && FlagsOk(r) && r.w <= n && n >= 1
    requires Shape(r') && r'.num == r.num && r'.u == r.u && r'.v == r.v && r'.a == r.a + n && r'.w == 0
    requires Same(r, r', r.u, r.a) && Same(r, r', r.a + n, r.u + r.num)
    requires forall p :: r.a <= p < r.a + n ==> At(r', p).flags.avail == Wrap(p, r.num) && At(r', p).flags.used == !Wrap(p, r.num)
    ensures FlagsOk(r')
  {
  }

  lemma PublishTail(r: Ring, id: nat, b: Buffer, flags: Flags)
    requires Shape(r) && Can(r, Publish(id, b, flags))
    ensures Shape(DoPublish(r, id, b, flags)) && DoPublish(r, id, b, flags).num == r.num
    ensures Written(DoPublish(r, id, b, flags), id, b)
    ensures forall p :: r.a <= p < r.a + b.n ==>
              && At(DoPublish(r, id, b, flags), p).flags.avail == Wrap(p, r.num)
              && At(DoPublish(r, id, b, flags), p).flags.used == !Wrap(p, r.num)
  {
    PublishFrame(r, id, b, flags);
    var r' := DoPublish(r, id, b, flags);
    assert forall p :: r.a < p < r.a + b.n ==> At(r', p) == At(r, p);
  }

  lemma PublishUsed(r: Ring, r': Ring, id: nat, b: Buffer)
    requires Shape(r) && UsedOk(r) && id !in r.bufs
    requires Shape(r') && r'.num == r.num && r'.u == r.u && r'.v == r.v && r'.used == r.used && r'.bufs == r.bufs[id := b]
    requires Same(r, r', r.u, r.v)
    ensures UsedOk(r')
  {
    forall j | 0 <= j < |r'.used|
      ensures r'.used[j].id in r'.bufs
      ensures UsedEntry(r', r'.used[j])
      ensures r'.used[j].pos + r'.bufs[r'.used[j].id].n == UsedEnd(r', j)
    {
      assert UsedEntry(r, r.used[j]);
      assert UsedEnd(r', j) == UsedEnd(r, j);
    }
  }

  lemma PublishAvail(r: Ring, r': Ring, id: nat, b: Buffer)
    requires Shape(r) && AvailOk(r) && id !in r.bufs && b.pos == r.a && b.n >= 1
    requires Shape(r') && r'.num == r.num && r'.c == r.c && r'.a == r.a + b.n
    requires r'.avail == r.avail + [id] && r'.bufs == r.bufs[id := b]
    requires Same(r, r', r.c, r.a) && Written(r', id, b)
    ensures AvailOk(r')
  {
    assert KnownAvail(r');
    forall j | 0 <= j < |r'.avail|
      ensures Written(r', r'.avail[j], r'.bufs[r'.avail[j]])
      ensures r'.bufs[r'.avail[j]].pos + r'.bufs[r'.avail[j]].n == AvailEnd(r', j)
    {
      if j < |r.avail| {
        assert r'.avail[j] == r.avail[j] && r'.bufs[r'.avail[j]] == r.bufs[r.avail[j]];
        assert Written(r, r.avail[j], r.bufs[r.avail[j]]);
        assert AvailEnd(r', j) == AvailEnd(r, j);
      }
    }
    assert r'.avail[0] == if r.avail == [] then id else r.avail[0];
  }

  lemma PublishIds(r: Ring, r': Ring, id: nat, b: Buffer)
    requires Logged(r) && InflightOk(r) && id !in r.bufs && id < r.num && BufferOk(b) && b.serial == |r.added|
    requires LogOf(r') == Added(LogOf(r), id, b) && r'.num == r.num && r'.v == r.v && r'.c == r.c
    ensures Logged(r') && InflightOk(r')
  {
    AddedKeeps(LogOf(r), r.num, id, b);
    KnownIds(LogOf(r), r.num);
    TotalAgrees(r.bufs, r'.bufs, r.inflight);
  }

  lemma PublishTables(r: Ring, r': Ring, id: nat, b: Buffer)
    requires TablesOk(r) && id !in r.bufs && r'.tables == r.tables && r'.bufs == r.bufs[id := b]
    requires b.table.Some? ==>
               TableFree(r, b.table.value) && b.table.value in r.tables && TableHolds(r.tables[b.table.value], b.sg, b.out)
    ensures TablesOk(r')
  {
  }

  lemma PublishKeeps(r: Ring, id: nat, b: Buffer, flags: Flags)
    requires RingOk(r) && Can(r, Publish(id, b, flags))
    ensures RingOk(DoPublish(r, id, b, flags))
  {
    hide Logged, InflightOk, TablesOk, FlagsOk, AvailOk, UsedOk, Same, Written, Encodes, TailWritten, OffWrap;
    PublishFrame(r, id, b, flags);
    PublishTail(r, id, b, flags);
    var r' := DoPublish(r, id, b, flags);
    PublishSame(r, r', b.n);
    PublishFlags(r, r', b.n);
    PublishUsed(r, r', id, b);
    PublishAvail(r, r', id, b);
    PublishIds(r, r', id, b);
    PublishTables(r, r', id, b);
  }

  lemma PublishSame(r: Ring, r': Ring, n: nat)
    requires Shape(r) && Shape(r') && r'.num == r.num && n >= 1
    requires Same(r, r', r.u, r.a) && Same(r, r', r.a + 1, r.u + r.num)
    ensures Same(r, r', r.u, r.v) && Same(r, r', r.c, r.a) && Same(r, r', r.a + n, r.u + r.num)
  {
  }

  // ----- the driver reclaims the oldest used entry -----

  /** Positions of used entries ascend. */
  lemma {:induction false} UsedPositions(r: Ring, m: nat)
    requires Shape(r) && UsedOk(r) && 1 <= m <= |r.used|
    ensures forall j :: 1 <= j < m ==> r.used[0].pos + r.bufs[r.used[0].id].n <= r.used[j].pos
  {
    if m >= 2 {
      UsedPositions(r, m - 1);
      assert UsedEnd(r, m - 2) == r.used[m - 1].pos;
    }
  }

  lemma ReclaimUsed(r: Ring, r': Ring, id: nat)
    requires Shape(r) && UsedOk(r) && Logged(r) && r.used != [] && id == r.used[0].id
    requires r'.num == r.num && r'.desc == r.desc && r'.u == r.u + r.bufs[id].n && r'.v == r.v
    requires r'.c == r.c && r'.a == r.a && r'.w == r.w
    requires r'.used == r.used[1..] && r'.bufs == r.bufs - {id}
    ensures Shape(r') && UsedOk(r')
  {
    ReclaimOthers(LogOf(r), r.num);
    UsedPositions(r, |r.used|);
    assert UsedEntry(r, r.used[0]);
    assert UsedEnd(r, 0) == if |r.used| > 1 then r.used[1].pos else r.v;
    if |r.used| > 1 {
      assert UsedEntry(r, r.used[1]);
    }
    forall j | 0 <= j < |r'.used|
      ensures r'.used[j].id in r'.bufs
      ensures UsedEntry(r', r'.used[j])
      ensures r'.used[j].pos + r'.bufs[r'.used[j].id].n == UsedEnd(r', j)
    {
      assert r'.used[j] == r.used[j + 1];
      assert UsedEntry(r, r.used[j + 1]);
      assert UsedEnd(r', j) == UsedEnd(r, j + 1);
    }
  }

  lemma ReclaimFlags(r: Ring, r': Ring)
    requires Shape(r) && FlagsOk(r) && Shape(r')
    requires r'.num == r.num && r'.desc == r.desc && r.u <= r'.u && r'.v == r.v && r'.a == r.a && r'.w == r.w
    ensures FlagsOk(r')
  {
    assert forall p {:trigger At(r', p)} :: At(r', p) == At(r, p);
    forall p | (p == r'.a || r'.a + r'.w <= p) && p < r'.u + r'.num
      ensures At(r', p).flags.avail == !Wrap(p, r'.num)
    {
      if r.u + r.num <= p {
        assert Slot(p, r.num) == Slot(p - r.num, r.num) && Wrap(p, r.num) == !Wrap(p - r.num, r.num);
        assert At(r, p) == At(r, p - r.num);
      }
    }
  }

  lemma ReclaimAvail(r: Ring, r': Ring, id: nat)
    requires Shape(r) && AvailOk(r) && Logged(r) && r.used != [] && id == r.used[0].id && Shape(r')
    requires r'.num == r.num && r'.desc == r.desc && r'.c == r.c && r'.a == r.a && r'.avail == r.avail && r'.bufs == r.bufs - {id}
    ensures AvailOk(r')
  {
    ReclaimOthers(LogOf(r), r.num);
    assert KnownAvail(r');
    forall j | 0 <= j < |r'.avail|
      ensures Written(r', r'.avail[j], r'.bufs[r'.avail[j]])
      ensures r'.bufs[r'.avail[j]].pos + r'.bufs[r'.avail[j]].n == AvailEnd(r', j)
    {
      assert Written(r, r.avail[j], r.bufs[r.avail[j]]);
      assert AvailEnd(r', j) == AvailEnd(r, j);
      assert forall p {:trigger At(r', p)} :: At(r', p) == At(r, p);
    }
  }

  lemma ReclaimIds(r: Ring, r': Ring)
    requires Logged(r) && InflightOk(r) && r.used != []
    requires LogOf(r') == Reclaimed(LogOf(r)) && r'.num == r.num && r'.v == r.v && r'.c == r.c
    ensures Logged(r') && InflightOk(r')
  {
    KnownIds(LogOf(r), r.num);
    ReclaimOthers(LogOf(r), r.num);
    ReclaimedKeeps(LogOf(r), r.num);
    TotalAgrees(r.bufs, r'.bufs, r.inflight);
  }

  lemma ReclaimKeeps(r: Ring)
    requires RingOk(r) && r.used != [] && r.used[0].id in r.bufs
    ensures RingOk(DoReclaim(r))
  {
    hide Logged, InflightOk, TablesOk, FlagsOk, AvailOk, UsedOk, OffWrap;
    var r' := DoReclaim(r);
    var id := r.used[0].id;
    ReclaimUsed(r, r', id);
    ReclaimFlags(r, r');
    ReclaimAvail(r, r', id);
    ReclaimIds(r, r');
    assert TablesOk(r') by { ReclaimTables(r, r', id); }
  }

  lemma ReclaimTables(r: Ring, r': Ring, id: nat)
    requires TablesOk(r) && r'.tables == r.tables && r'.bufs == r.bufs - {id}
    ensures TablesOk(r')
  {
  }

  // ----- all steps -----

  lemma ConsumeStep(r: Ring, act: Act)
    requires RingOk(r) && Can(r, act) && act.Consume?
    ensures RingOk(Do(r, act))
  {
    DeviceSeesWholeBuffers(r);
    hide RingOk;
    ConsumeKeeps(r);
  }

  lemma CompleteStep(r: Ring, act: Act)
    requires RingOk(r) && Can(r, act) && act.Complete?
    ensures RingOk(Do(r, act))
  {
    KnownIds(LogOf(r), r.num);
    hide RingOk;
    CompleteKeeps(r, act.k, act.len, act.write);
  }

  lemma PublishStep(r: Ring, act: Act)
    requires RingOk(r) && Can(r, act) && act.Publish?
    ensures RingOk(Do(r, act))
  {
    hide RingOk;
    PublishKeeps(r, act.id, act.b, act.flags);
  }

  lemma ReclaimStep(r: Ring, act: Act)
    requires RingOk(r) && Can(r, act) && act.Reclaim?
    ensures RingOk(Do(r, act))
  {
    MoreUsedExact(r);
    hide RingOk;
    ReclaimKeeps(r);
  }

  lemma PokeStep(r: Ring, act: Act)
    requires RingOk(r) && Can(r, act) && (act.Poke? || act.PokeTable?)
    ensures RingOk(Do(r, act))
  {
    hide RingOk;
    if act.Poke? {
      PokeKeeps(r, act.k, act.d);
    } else {
      PokeTableKeeps(r, act.addr, act.table);
    }
  }

  lemma SleepStep(r: Ring, act: Act)
    requires RingOk(r) && Can(r, act) && act.Sleep?
    ensures RingOk(Do(r, act))
  {
    DeviceSeesWholeBuffers(r);
    hide FlagsOk, UsedOk, AvailOk, InflightOk, Logged, TablesOk, OffWrap, LooksAvailable, At;
    NotifyKeeps(r, Do(r, act));
  }

  lemma ArmStep(r: Ring, act: Act)
    requires RingOk(r) && Can(r, act) && act.Arm?
    ensures RingOk(Do(r, act))
  {
    MoreUsedExact(r);
    hide FlagsOk, UsedOk, AvailOk, InflightOk, Logged, TablesOk, OffWrap, IsUsedDesc, At;
    NotifyKeeps(r, Do(r, act));
  }

  lemma SignalStep(r: Ring, act: Act)
    requires RingOk(r) && Can(r, act) && act.Signal?
    ensures RingOk(Do(r, act))
  {
    ArmedCrossing(r);
    hide FlagsOk, UsedOk, AvailOk, InflightOk, Logged, TablesOk, OffWrap, MustSignal;
    NotifyKeeps(r, Do(r, act));
  }

  lemma PlainStep(r: Ring, act: Act)
    requires RingOk(r) && Can(r, act) && (act.PublishEvent? || act.Wake? || act.SetEvent? || act.Kick?)
    ensures RingOk(Do(r, act))
  {
    if KickExact(r) {
      KickReaches(r);
    }
    hide FlagsOk, UsedOk, AvailOk, InflightOk, Logged, TablesOk, OffWrap, DriverKicks;
    NotifyKeeps(r, Do(r, act));
  }

  /** Every step of either side keeps the invariant. */
  lemma StepKeeps(r: Ring, act: Act)
    requires RingOk(r) && Can(r, act)
    ensures RingOk(Do(r, act))
  {
    hide RingOk, Can, Do;
    match act
    case Consume => ConsumeStep(r, act);
    case Complete(_, _, _) => CompleteStep(r, act);
    case Poke(_, _) => PokeStep(r, act);
    case PokeTable(_, _) => PokeStep(r, act);
    case Publish(_, _, _) => PublishStep(r, act);
    case Reclaim => ReclaimStep(r, act);
    case Sleep => SleepStep(r, act);
    case Arm(_) => ArmStep(r, act);
    case Signal(_) => SignalStep(r, act);
    case _ => PlainStep(r, act);
  }

  // ----- what a step leaves alone -----

  ghost predicate TablesLeft(r: Ring, r': Ring) {
    forall id :: id in r.bufs && r.bufs[id].table.Some? ==>
      && r.bufs[id].table.value in r.tables && r.bufs[id].table.value in r'.tables
      && r'.tables[r.bufs[id].table.value] == r.tables[r.bufs[id].table.value]
  }

  lemma DriverTables(r: Ring, act: Act)
    requires Shape(r) && TablesOk(r) && Can(r, act) && !DeviceAct(act)
    ensures TablesLeft(r, Do(r, act))
  {
  }

  /** The driver's steps touch no descriptor in use and no table of an outstanding buffer. */
  lemma DriverLeaves(r: Ring, act: Act)
    requires RingOk(r) && Shape(r) && Can(r, act) && !DeviceAct(act)
    ensures var r' := Do(r, act);
            r'.num == r.num && |r'.desc| == r.num && Same(r, r', r.u, r.a) && TablesLeft(r, r')
  {
    DriverTables(r, act);
    hide RingOk, TablesLeft;
    match act
    case Poke(k, d) => PokeFrame(r, k, d);
    case Publish(id, b, flags) => PublishFrame(r, id, b, flags);
    case _ =>
  }

  /** The device's steps touch no table, and only one descriptor: publishing a used entry overwrites
      the one at v, which belongs to a buffer that the device has consumed. */
  lemma DeviceLeaves(r: Ring, act: Act)
    requires RingOk(r) && Shape(r) && Can(r, act) && DeviceAct(act)
    ensures var r' := Do(r, act);
            && r'.num == r.num && |r'.desc| == r.num && r'.tables == r.tables
            && Same(r, r', r.u, r.v) && Same(r, r', r.v + 1, r.a)
            && (act.Complete? ==> r.v < r.c) && (!act.Complete? ==> r'.desc == r.desc)
  {
    hide RingOk, Can, Do;
    if act.Complete? {
      CompleteLeaves(r, act);
    } else {
      QuietLeaves(r, act);
    }
  }

  lemma CompleteLeaves(r: Ring, act: Act)
    requires RingOk(r) && Shape(r) && Can(r, act) && act.Complete?
    ensures var r' := Do(r, act);
            && r'.num == r.num && |r'.desc| == r.num && r'.tables == r.tables && r.v < r.c
            && Same(r, r', r.u, r.v) && Same(r, r', r.v + 1, r.a)
  {
    CompleteRoom(r, act.k);
    hide RingOk;
    assert Do(r, act) == DoComplete(r, act.k, act.len, act.write);
    hide Can, Do, Slot, Wrap;
    CompleteFrame(r, act.k, act.len, act.write);
  }

  lemma QuietLeaves(r: Ring, act: Act)
    requires Shape(r) && Can(r, act) && DeviceAct(act) && !act.Complete?
    ensures var r' := Do(r, act); r'.num == r.num && r'.tables == r.tables && r'.desc == r.desc
  {
  }

  // ----- notifications are not lost -----

  /** An armed position that the device has passed, and has not evaluated yet, makes the
      evaluation raise an interrupt. */
  lemma ArmedCrossing(r: Ring)
    requires Shape(r) && NotifyOk(r)
    ensures r.armed.Some? && r.armed.value < r.v && !r.irq ==> MustSignal(r)
    ensures MustSignal(r) ==> r.signalled < r.v && r.driverEvent.flags != EVENT_DISABLE
  {
    if r.armed.Some? && r.armed.value < r.v && !r.irq {
      var e := r.armed.value;
      assert r.signalled <= e < r.v && r.v <= e + r.num;
      assert r.driverEvent.flags == EVENT_DESC ==> OffWrap(e, r.num) == r.driverEvent.offWrap;
    }
  }

  /** No lost interrupt: once enable_cb armed the driver for position e, completions beyond
      e come with an interrupt, raised or still owed by the device's next evaluation. */
  lemma NoLostInterrupt(r: Ring, raise: bool)
    requires RingOk(r) && r.armed.Some? && r.armed.value < r.v && Can(r, Signal(raise))
    ensures r.irq || MustSignal(r)
    ensures Do(r, Signal(raise)).irq
  {
    ArmedCrossing(r);
  }

  /** A sleeping device behind the ring's end, last looked after before that, gets its kick. */
  lemma KickReaches(r: Ring)
    requires Shape(r) && NotifyOk(r) && KickExact(r)
    ensures r.asleep && r.lastKick <= r.c < r.a ==> DriverKicks(r)
  {
    if r.asleep && r.lastKick <= r.c < r.a && r.deviceEvent.flags == EVENT_DESC {
      var n := r.a - r.lastKick;
      assert U32(n) == n;
      PackedKickExact(r.num, r.a, r.c, n);
    }
  }

  /** No lost kick: a device asleep behind the ring's end was kicked, or kick_prepare tells
      the driver to notify it. */
  lemma NoLostKick(r: Ring)
    requires RingOk(r) && r.asleep && r.kicksExact && r.c < r.a && KickExact(r)
    ensures r.kicked || DriverKicks(r)
    ensures Do(r, Kick).kicked
  {
    KickReaches(r);
  }

  lemma Kicked(r: Ring)
    requires RingOk(r)
    ensures r.asleep && r.kicksExact && r.lastKick == r.a && r.c < r.a ==> r.kicked
  {
  }

  /** With an even number of ring-filling direct chains, exactly when the decision is to kick a device
      that asked for position e, for any number of descriptors since the last kick. */
  lemma FreshKick(r: Ring, e: nat)
    requires Shape(r) && r.full % 2 == 0 && e <= r.a <= e + r.num && r.lastKick <= r.a
    requires r.deviceEvent == Event(OffWrap(e, r.num), EVENT_DESC)
    ensures DriverKicks(r) <==> e < r.a && r.a - e <= U16(r.a - r.lastKick)
  {
    U16OfU32(r.a - r.lastKick);
    PackedKickMeaning(r.num, r.a, e, U32(r.a - r.lastKick));
  }

  /** With an odd number the wrap counter is a round behind, and the device is reached exactly when
      enough was added to make up for that. */
  lemma StaleKick(r: Ring, e: nat)
    requires Shape(r) && r.full % 2 == 1 && e <= r.a <= e + r.num && r.lastKick <= r.a
    requires r.deviceEvent == Event(OffWrap(e, r.num), EVENT_DESC)
    ensures DriverKicks(r) <==>
            var n := U16(r.a - r.lastKick);
            if Wrap(e, r.num) == Wrap(r.a, r.num) then r.a - e + r.num <= n
            else r.a - e < r.num && 0x1_0000 + r.a - e - r.num <= n
  {
    U16OfU32(r.a - r.lastKick);
    PackedKickStale(r.num, r.a, e, U32(r.a - r.lastKick));
  }

  /** What the decision comes to, for every request that the device can make. */
  lemma KickMeans(r: Ring)
    requires Shape(r) && r.lastKick <= r.a
    ensures r.deviceEvent.flags == EVENT_DISABLE ==> !DriverKicks(r)
    ensures r.deviceEvent.flags != EVENT_DISABLE && r.deviceEvent.flags != EVENT_DESC ==> DriverKicks(r)
    ensures r.deviceEvent.flags == EVENT_DESC ==>
              forall e: nat :: e <= r.a <= e + r.num && OffWrap(e, r.num) == r.deviceEvent.offWrap ==>
                (DriverKicks(r) <==> Announces(r, e))
  {
    if r.deviceEvent.flags == EVENT_DESC {
      forall e: nat | e <= r.a <= e + r.num && OffWrap(e, r.num) == r.deviceEvent.offWrap
        ensures DriverKicks(r) <==> Announces(r, e)
      {
        if r.full % 2 == 0 {
          FreshKick(r, e);
        } else {
          StaleKick(r, e);
        }
      }
    }
  }

  /** For one, a first direct chain of num descriptors does not wake a device asleep at its start. */
  lemma FullChainLosesKick(r: Ring)
    requires Shape(r) && r.full == 1 && r.c == 0 && r.a == r.num && r.lastKick == 0
    requires r.deviceEvent == Event(OffWrap(0, r.num), EVENT_DESC)
    ensures !DriverKicks(r)
  {
    assert Slot(r.a, r.num) == 0 && !Wrap(r.a, r.num);
    U16Is(r.num, 0, r.num);
    StaleKick(r, 0);
  }

  // ----- whole runs -----

  /** A run: each state follows from the one before by a step of either side. */
  ghost predicate IsRun(states: seq<Ring>, acts: seq<Act>) {
    && |states| == |acts| + 1
    && forall i :: 0 <= i < |acts| ==>
         Shape(states[i]) && Can(states[i], acts[i]) && states[i + 1] == Do(states[i], acts[i])
  }

  /** A ring as vring_new_virtqueue_packed leaves it, over zeroed pages. */
  function Initial(num: nat, tables: map<nat, seq<Desc>>): (r: Ring)
    requires QueueSize(num)
  {
    var zero := Desc(0, 0, 0, Flags(false, false, false, false, false));
    Ring(num, seq(num, _ => zero), tables, 0, 0, 0, 0, 0, map[], [], [], [], [], [], 0,
         Event(0, EVENT_ENABLE), 0, false, None, Event(0, EVENT_ENABLE), 0, false, false, 0, true)
  }

  lemma InitialOk(num: nat, tables: map<nat, seq<Desc>>)
    requires QueueSize(num)
    ensures var r := Initial(num, tables);
            RingOk(r) && r.a == r.u == r.v == r.c == 0 && !r.irq && r.armed == None && !r.asleep && !r.kicked
  {
    var r := Initial(num, tables);
    assert multiset(r.bufs.Keys) == multiset{};
  }

  /** The invariant holds in every state of every run, however the steps interleave. */
  lemma {:induction false} EveryRun(states: seq<Ring>, acts: seq<Act>)
    requires IsRun(states, acts) && RingOk(states[0])
    ensures forall i :: 0 <= i < |states| ==> RingOk(states[i])
  {
    var k := 0;
    while k < |acts|
      invariant k <= |acts|
      invariant forall i :: 0 <= i <= k ==> RingOk(states[i])
    {
      assert Can(states[k], acts[k]);
      StepKeeps(states[k], acts[k]);
      k := k + 1;
    }
  }
}
