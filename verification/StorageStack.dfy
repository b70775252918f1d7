/**
 The storage driver on a real virtqueue: the adapter's lists and counters together with a split
 queue, whose outstanding buffers are at all times the tokens that the adapter reckons with.
 */
module StorageStack {
  import opened Storage
  import opened StorageProofs
  import opened StorageAdapter
  import Bits
  import Ledger
  import Positions
  import SplitDriver
  import SplitRing
  import SplitVirtqueue

  // ----- the queue as a bag of ids -----

  /** How many tokens of a ring carry id t. */
  function IdCount(ring: seq<Entry>, t: nat): (n: nat) {
    if ring == [] then 0
    else IdCount(ring[..|ring| - 1], t) + if ring[|ring| - 1].id == t then 1 else 0
  }

  lemma IdCountAppend(ring: seq<Entry>, e: Entry, t: nat)
    ensures IdCount(ring + [e], t) == IdCount(ring, t) + if e.id == t then 1 else 0
  {
    assert (ring + [e])[..|ring|] == ring;
  }

  lemma {:induction false} IdCountWithout(ring: seq<Entry>, i: nat, t: nat)
    requires i < |ring|
    ensures IdCount(ring, t) == IdCount(Without(ring, i), t) + if ring[i].id == t then 1 else 0
  {
    var n := |ring| - 1;
    if i == n {
      assert Without(ring, i) == ring[..n];
    } else {
      IdCountWithout(ring[..n], i, t);
      assert Without(ring, i) == Without(ring[..n], i) + [ring[n]];
      IdCountAppend(Without(ring[..n], i), ring[n], t);
    }
  }

  lemma {:induction false} IdCountFound(ring: seq<Entry>, t: nat)
    requires IdCount(ring, t) > 0
    ensures exists i :: 0 <= i < |ring| && ring[i].id == t
  {
    var n := |ring| - 1;
    if ring[n].id != t {
      IdCountFound(ring[..n], t);
      var i :| 0 <= i < n && ring[..n][i].id == t;
      assert ring[i].id == t;
    }
  }

  /** The outstanding buffers are the ring's tokens. */
  ghost predicate SameBag(ring: seq<Entry>, bufs: map<nat, Ledger.Buffer>) {
    forall t: nat :: |Ledger.Holders(bufs, t)| == IdCount(ring, t)
  }

  lemma BagAdded(ring: seq<Entry>, bufs: map<nat, Ledger.Buffer>, bufs': map<nat, Ledger.Buffer>, e: Entry)
    requires SameBag(ring, bufs) && Ledger.TookOut(bufs', bufs, e.id)
    ensures SameBag(ring + [e], bufs')
  {
    var id :| id in bufs' && bufs'[id].token == e.id && bufs == bufs' - {id};
    forall t: nat
      ensures |Ledger.Holders(bufs', t)| == IdCount(ring + [e], t)
    {
      assert |Ledger.Holders(bufs, t)| == IdCount(ring, t);
      hide Ledger.Holders, SameBag;
      IdCountAppend(ring, e, t);
      Ledger.HoldersTaken(bufs', id, t);
    }
  }

  /** The token that get_buf returns is one of the ring's. */
  lemma BagHas(ring: seq<Entry>, bufs: map<nat, Ledger.Buffer>, bufs': map<nat, Ledger.Buffer>, token: nat)
    requires SameBag(ring, bufs) && Ledger.TookOut(bufs, bufs', token)
    ensures exists i :: 0 <= i < |ring| && ring[i].id == token
  {
    var id :| id in bufs && bufs[id].token == token && bufs' == bufs - {id};
    assert id in Ledger.Holders(bufs, token);
    assert |Ledger.Holders(bufs, token)| == IdCount(ring, token);
    IdCountFound(ring, token);
  }

  lemma BagTaken(ring: seq<Entry>, bufs: map<nat, Ledger.Buffer>, bufs': map<nat, Ledger.Buffer>, i: nat)
    requires i < |ring| && SameBag(ring, bufs) && Ledger.TookOut(bufs, bufs', ring[i].id)
    ensures SameBag(Without(ring, i), bufs')
  {
    var id :| id in bufs && bufs[id].token == ring[i].id && bufs' == bufs - {id};
    forall t: nat
      ensures |Ledger.Holders(bufs', t)| == IdCount(Without(ring, i), t)
    {
      assert |Ledger.Holders(bufs, t)| == IdCount(ring, t);
      hide Ledger.Holders, SameBag;
      IdCountWithout(ring, i, t);
      Ledger.HoldersTaken(bufs, id, t);
    }
  }

  // ----- what the device is shown -----

  /** The elements that a token is submitted with; the device reads the first out of them. */
  datatype Wish = Wish(sg: seq<Ledger.Sg>, out: nat)

  /** What the requests have set up for either phase: a flush has one element to read. */
  ghost predicate Wishes(want: Entry -> Wish) {
    forall e :: 1 <= |want(e).sg| && want(e).out <= |want(e).sg| && (e.flush ==> want(e).out == 1)
  }

  /** A buffer is outstanding with this token and these elements. */
  ghost predicate Shows(bufs: map<nat, Ledger.Buffer>, token: nat, w: Wish) {
    exists id :: id in bufs && bufs[id].token == token && bufs[id].sg == w.sg && bufs[id].out == w.out
  }

  /** bufs' is bufs with one more, which has this token and these elements. */
  ghost predicate PutIn(bufs: map<nat, Ledger.Buffer>, bufs': map<nat, Ledger.Buffer>, token: nat, w: Wish) {
    exists id :: id !in bufs && id in bufs' && bufs == bufs' - {id}
      && bufs'[id].token == token && bufs'[id].sg == w.sg && bufs'[id].out == w.out
  }

  lemma PutInOne(bufs: map<nat, Ledger.Buffer>, bufs': map<nat, Ledger.Buffer>, id: nat)
    requires id !in bufs && id in bufs' && bufs' == bufs[id := bufs'[id]]
    ensures PutIn(bufs, bufs', bufs'[id].token, Wish(bufs'[id].sg, bufs'[id].out))
  {
    assert bufs == bufs' - {id};
  }

  lemma PutInShows(bufs: map<nat, Ledger.Buffer>, bufs': map<nat, Ledger.Buffer>, token: nat, w: Wish)
    requires PutIn(bufs, bufs', token, w)
    ensures Ledger.TookOut(bufs', bufs, token) && Shows(bufs', token, w)
    ensures forall t, x :: Shows(bufs, t, x) ==> Shows(bufs', t, x)
  {
  }

  /** All of the ring's tokens are outstanding with what their requests have set up. */
  ghost predicate AllShown(ring: seq<Entry>, bufs: map<nat, Ledger.Buffer>, want: Entry -> Wish) {
    forall i :: 0 <= i < |ring| ==> Shows(bufs, ring[i].id, want(ring[i]))
  }

  lemma ShownAdded(ring: seq<Entry>, bufs: map<nat, Ledger.Buffer>, bufs': map<nat, Ledger.Buffer>, e: Entry, want: Entry -> Wish)
    requires AllShown(ring, bufs, want) && PutIn(bufs, bufs', e.id, want(e))
    ensures AllShown(ring + [e], bufs', want)
  {
    PutInShows(bufs, bufs', e.id, want(e));
  }

  lemma ShownTaken(ring: seq<Entry>, bufs: map<nat, Ledger.Buffer>, bufs': map<nat, Ledger.Buffer>, i: nat, want: Entry -> Wish)
    requires i < |ring| && AllShown(ring, bufs, want) && Ledger.TookOut(bufs, bufs', ring[i].id)
    requires forall x :: 0 <= x < |ring| && x != i ==> ring[x].id != ring[i].id
    ensures AllShown(Without(ring, i), bufs', want)
  {
    var gone :| gone in bufs && bufs[gone].token == ring[i].id && bufs' == bufs - {gone};
    forall y | 0 <= y < |Without(ring, i)|
      ensures Shows(bufs', Without(ring, i)[y].id, want(Without(ring, i)[y]))
    {
      var x := if y < i then y else y + 1;
      assert Without(ring, i)[y] == ring[x] && Shows(bufs, ring[x].id, want(ring[x]));
      var id :| id in bufs && bufs[id].token == ring[x].id && bufs[id].sg == want(ring[x]).sg && bufs[id].out == want(ring[x]).out;
      assert id in bufs';
    }
  }

  /** No two tokens of a ring have the same id. */
  lemma IdsApart(s: State, q: nat, i: nat)
    requires Inv(s) && q < |s.lists| && i < |s.rings[q]|
    ensures s.rings[q][i].id == IdOf(s.rings[q][i].owner)
    ensures forall x :: 0 <= x < |s.rings[q]| && x != i ==> s.rings[q][x].id != s.rings[q][i].id
  {
    var ring := s.rings[q];
    assert QueueOk(s, q);
    assert EntryOk(s, q, ring[i]);
    forall x | 0 <= x < |ring| && x != i
      ensures ring[x].id != ring[i].id
    {
      assert EntryOk(s, q, ring[x]);
    }
  }

  /** What the device reads for a token. */
  ghost predicate Decodes(r: SplitRing.Ring, token: nat, w: Wish) {
    exists id :: id in r.log.bufs && r.log.bufs[id].token == token && SplitRing.Decode(r, id) == Ledger.Meaning(w.sg, w.out)
  }

  lemma ShownDecodes(r: SplitRing.Ring, token: nat, w: Wish)
    requires SplitRing.RingOk(r) && Shows(r.log.bufs, token, w)
    ensures Decodes(r, token, w)
  {
    var id :| id in r.log.bufs && r.log.bufs[id].token == token && r.log.bufs[id].sg == w.sg && r.log.bufs[id].out == w.out;
    SplitRing.OutstandingDecodes(r, id);
  }

  // ----- what the device said -----

  /** The returns among some events, in order. */
  ghost function Returns(events: seq<Event>): (r: seq<Event>) {
    if events == [] then []
    else
      var last := events[|events| - 1];
      Returns(events[..|events| - 1]) + if last.Returned? then [last] else []
  }

  lemma ReturnsAppend(events: seq<Event>, e: Event)
    ensures Returns(events + [e]) == Returns(events) + if e.Returned? then [e] else []
  {
    assert (events + [e])[..|events|] == events;
  }

  /** One return for every token that comes back. */
  lemma ReturnsOne(s: State, q: nat, i: nat, dev: DeviceStatus, found: Found)
    requires Inv(s) && q < |s.lists| && i < |s.rings[q]|
    ensures Returns(Return(s, q, i, dev, found).events) ==
            Returns(s.events) + [Returned(s.rings[q][i].owner, s.rings[q][i].flush, dev)]
  {
    hide Return, Returns, QueuesOk, OnceOk, FuaOk, AnsweredOk;
    ReturnEvents(s, q, i, dev, found);
    ReturnsOn(s.events, Return(s, q, i, dev, found).events);
  }

  lemma ReturnsOn(events: seq<Event>, events': seq<Event>)
    requires |events| < |events'| <= |events| + 2 && events <= events' && events'[|events|].Returned?
    requires |events'| == |events| + 2 ==> !events'[|events| + 1].Returned?
    ensures Returns(events') == Returns(events) + [events'[|events|]]
  {
    hide Returns;
    var n := |events|;
    var e := events'[n];
    ReturnsAppend(events, e);
    if |events'| == n + 1 {
      assert events' == events + [e];
    } else {
      ReturnsAppend(events + [e], events'[n + 1]);
      assert events' == events + [e] + [events'[n + 1]];
    }
  }

  /** Event e returns the request that buffer c was added for, with what the device wrote into that
      buffer's status byte. */
  ghost predicate Tells(added: seq<nat>, c: Ledger.Completion, e: Event, said: nat -> DeviceStatus) {
    e.Returned? && Ledger.AddedWith(added, c, IdOf(e.srb)) && e.dev == said(c.serial)
  }

  /** told are the completions from position lo on, up to the last one returned to the driver. */
  ghost predicate AllTold(l: Ledger.Log, lo: nat, told: seq<Event>, said: nat -> DeviceStatus) {
    && lo + |told| == l.returned <= |l.done|
    && forall n :: 0 <= n < |told| ==> Tells(l.added, l.done[lo + n], told[n], said)
  }

  lemma ToldGrows(l: Ledger.Log, l': Ledger.Log, lo: nat, told: seq<Event>, said: nat -> DeviceStatus)
    requires AllTold(l, lo, told, said) && l.added <= l'.added && l.done <= l'.done && l'.returned == l.returned
    ensures AllTold(l', lo, told, said)
  {
  }

  lemma ToldNext(l: Ledger.Log, l': Ledger.Log, lo: nat, told: seq<Event>, e: Event, said: nat -> DeviceStatus)
    requires AllTold(l, lo, told, said) && l.added <= l'.added && l.done <= l'.done && l'.returned == l.returned + 1
    requires l.returned < |l.done| && Tells(l.added, l.done[l.returned], e, said)
    ensures AllTold(l', lo, told + [e], said)
  {
  }

  // ----- the two together -----

  ghost predicate Separate(a: Adapter, vq: SplitVirtqueue.Queue) {
    var mine: set<object> := {a, a.lists, a.counts, a.rings};
    var its: set<object> := {vq, vq.desc, vq.availRing, vq.usedRing, vq.tokens};
    mine !! its
  }

  /** Every add so far was followed by its kick_prepare, and none of those decisions was inexact. */
  ghost predicate LookedAfter(r: SplitRing.Ring) {
    r.lastKick == r.a && r.kicksExact
  }

  /** So a device asleep behind the ring's end has been kicked. */
  lemma NoneLeftBehind(r: SplitRing.Ring)
    requires SplitRing.RingOk(r) && LookedAfter(r)
    ensures r.asleep && r.c < r.a ==> r.kicked
  {
  }

  /** Queue vq is the adapter's queue q, and shows the device what the requests want. */
  ghost predicate Carries(a: Adapter, q: nat, vq: SplitVirtqueue.Queue, want: Entry -> Wish)
    reads a, a.lists, a.counts, a.rings, vq, vq.desc, vq.availRing, vq.usedRing, vq.tokens
  {
    && a.Valid() && vq.Valid() && Separate(a, vq) && q < a.lists.Length
    && SameBag(a.rings[q], vq.ring.log.bufs) && LookedAfter(vq.ring)
    && Wishes(want) && AllShown(a.rings[q], vq.ring.log.bufs, want)
  }

  /** The tokens of ring q after a request was started. */
  lemma StartRing(s: State, q: nat, kind: Kind, found: Found)
    requires q < |s.lists| == |s.counts| == |s.rings|
    ensures |Start(s, q, kind, found).rings| == |s.rings|
    ensures Start(s, q, kind, found).rings[q] ==
            if found.Room? then s.rings[q] + [Entry(IdOf(|s.home|), |s.home|, false)] else s.rings[q]
  {
  }

  /** The tokens of ring q after token i came back. */
  lemma ReturnRing(s: State, q: nat, i: nat, dev: DeviceStatus, found: Found)
    requires q < |s.lists| == |s.counts| == |s.rings| && i < |s.rings[q]|
    ensures var j := Find(s.lists[q], s.rings[q][i].id);
            Return(s, q, i, dev, found).rings[q] ==
            if j < |s.lists[q]| && s.lists[q][j].fua && found.Room? then
              Without(s.rings[q], i) + [Entry(s.lists[q][j].id, s.lists[q][j].srb, true)]
            else Without(s.rings[q], i)
  {
  }

  /** Descriptors that a list takes. */
  function Need(sg: seq<Ledger.Sg>, indirect: Ledger.Option<nat>, unused: nat): nat {
    if indirect.Some? && |sg| > 1 && unused > 0 then 1 else |sg|
  }

  /** More was added and completed, and nothing returned. */
  ghost predicate Grown(l: Ledger.Log, l': Ledger.Log) {
    l.added <= l'.added && l.done <= l'.done && l'.returned == l.returned
  }

  /** virtqueue_add_buf and, if that succeeds, virtqueue_kick_prepare. */
  method Offer(vq: SplitVirtqueue.Queue, sg: seq<Ledger.Sg>, out: nat, token: nat, indirect: Ledger.Option<nat>)
    returns (ok: bool, notify: bool)
    requires vq.Valid() && |sg| >= 1 && out <= |sg| && token != 0
    requires indirect.Some? && |sg| > 1 ==>
               |sg| <= 0x1_0000 && SplitRing.TableFree(vq.ring, indirect.value) &&
               indirect.value in vq.tables && |sg| <= |vq.tables[indirect.value]|
    modifies vq, vq.desc, vq.availRing, vq.usedRing, vq.tokens
    ensures vq.Valid() && (ok <==> Need(sg, indirect, old(vq.numUnused)) <= old(vq.numUnused))
    ensures old(LookedAfter(vq.ring)) ==> LookedAfter(vq.ring)
    ensures (vq.ring.kicked ==> old(vq.ring.kicked) || notify) && (notify ==> vq.ring.kicked)
    ensures vq.vq.noInterrupt == old(vq.vq.noInterrupt)
    ensures ok ==> PutIn(old(vq.ring.log.bufs), vq.ring.log.bufs, token, Wish(sg, out)) && Decodes(vq.ring, token, Wish(sg, out))
    ensures Grown(old(vq.ring.log), vq.ring.log)
    ensures !ok ==> vq.ring == old(vq.ring) && !notify
  {
    hide SplitRing.RingOk, SplitDriver.Threaded, SplitDriver.CountersOk, PutIn, Shows, Decodes;
    ghost var r, id := vq.ring, vq.firstUnused;
    notify := false;
    ok := vq.AddBuf(sg, out, token, indirect);
    if ok {
      PutInOne(r.log.bufs, vq.ring.log.bufs, id);
      ghost var s;
      notify, s := vq.KickPrepare();
      PutInShows(r.log.bufs, vq.ring.log.bufs, token, Wish(sg, out));
      ShownDecodes(vq.ring, token, Wish(sg, out));
    }
  }

  /** The part of StartIo that concerns the ring: nothing unless the request needs it. */
  method Reserve(a: Adapter, vq: SplitVirtqueue.Queue, srb: nat, q: nat, needed: bool,
                 sg: seq<Ledger.Sg>, out: nat, indirect: Ledger.Option<nat>, ghost want: Entry -> Wish)
    returns (full: bool, notify: bool)
    requires Carries(a, q, vq, want) && want(Entry(a.lastSrbId, srb, false)) == Wish(sg, out)
    requires indirect.Some? && |sg| > 1 ==>
               |sg| <= 0x1_0000 && SplitRing.TableFree(vq.ring, indirect.value) &&
               indirect.value in vq.tables && |sg| <= |vq.tables[indirect.value]|
    modifies vq, vq.desc, vq.availRing, vq.usedRing, vq.tokens
    ensures vq.Valid() && LookedAfter(vq.ring)
    ensures (vq.ring.kicked ==> old(vq.ring.kicked) || notify) && (notify ==> vq.ring.kicked && needed && !full)
    ensures full <==> needed && Need(sg, indirect, old(vq.numUnused)) > old(vq.numUnused)
    ensures var ring := if needed && !full then a.rings[q] + [Entry(a.lastSrbId, srb, false)] else a.rings[q];
            SameBag(ring, vq.ring.log.bufs) && AllShown(ring, vq.ring.log.bufs, want)
    ensures needed && !full ==>
      PutIn(old(vq.ring.log.bufs), vq.ring.log.bufs, a.lastSrbId, Wish(sg, out)) && Decodes(vq.ring, a.lastSrbId, Wish(sg, out))
    ensures !needed || full ==> vq.ring == old(vq.ring)
  {
    hide Inv, SameBag, AllShown, PutIn, Shows, Decodes, IdOf, SplitRing.RingOk, SplitDriver.Threaded, SplitDriver.CountersOk,
      SplitRing.TableFree;
    full, notify := false, false;
    if needed {
      ghost var bufs := vq.ring.log.bufs;
      var ok;
      ok, notify := Offer(vq, sg, out, a.lastSrbId, indirect);
      full := !ok;
      if ok {
        PutInShows(bufs, vq.ring.log.bufs, a.lastSrbId, Wish(sg, out));
        BagAdded(a.rings[q], bufs, vq.ring.log.bufs, Entry(a.lastSrbId, srb, false));
        ShownAdded(a.rings[q], bufs, vq.ring.log.bufs, Entry(a.lastSrbId, srb, false), want);
      }
    }
  }

  /** VirtIoStartIo down to the ring: a request goes into the list and the ring exactly when it needs
      the device, no reset is under way and the ring has the descriptors for it. */
  method Submit(a: Adapter, vq: SplitVirtqueue.Queue, srb: nat, q: nat, kind: Kind,
                atOnce: Ledger.Option<Status>, failure: Status,
                sg: seq<Ledger.Sg>, out: nat, indirect: Ledger.Option<nat>, ghost want: Entry -> Wish)
    returns (notify: bool, ghost found: Found)
    requires Carries(a, q, vq, want) && srb == |a.home| < ID_COUNT && want(Entry(IdOf(srb), srb, false)) == Wish(sg, out)
    requires failure != Success && (kind.Fua? ==> atOnce != Ledger.Some(Success))
    requires indirect.Some? && |sg| > 1 ==>
               |sg| <= 0x1_0000 && SplitRing.TableFree(vq.ring, indirect.value) &&
               indirect.value in vq.tables && |sg| <= |vq.tables[indirect.value]|
    modifies a, a.lists, a.counts, a.rings, vq, vq.desc, vq.availRing, vq.usedRing, vq.tokens
    ensures Carries(a, q, vq, want) && a.Now() == Start(old(a.Now()), q, kind, found)
    ensures found.Room? ==> PutIn(old(vq.ring.log.bufs), vq.ring.log.bufs, IdOf(srb), Wish(sg, out))
    ensures found.Room? ==> Decodes(vq.ring, IdOf(srb), Wish(sg, out))
    ensures !found.Room? ==> vq.ring == old(vq.ring)
    ensures vq.ring.asleep && vq.ring.c < vq.ring.a ==> vq.ring.kicked
    ensures (vq.ring.kicked ==> old(vq.ring.kicked) || notify) && (notify ==> vq.ring.kicked && found.Room?)
    ensures found == StartFinds(atOnce, old(a.resetInProgress),
                                Need(sg, indirect, old(vq.numUnused)) > old(vq.numUnused), failure)
  {
    hide Inv, SameBag, AllShown, PutIn, Shows, Decodes, IdOf, Start, SplitRing.RingOk, SplitDriver.Threaded, SplitDriver.CountersOk,
      SplitRing.TableFree;
    var full;
    full, notify := Reserve(a, vq, srb, q, atOnce.None? && !a.resetInProgress, sg, out, indirect, want);
    found := StartFinds(atOnce, a.resetInProgress, full, failure);
    StartRing(a.Now(), q, kind, found);
    found := a.StartIo(srb, q, kind, atOnce, full, failure);
    NoneLeftBehind(vq.ring);
  }

  /** RhelDoFlush with resend on the queue: nothing unless the request found still has its fua mark. */
  method Resend(a: Adapter, vq: SplitVirtqueue.Queue, q: nat, token: nat, want: Entry -> Wish, ghost ring: seq<Entry>)
    returns (full: bool, notify: bool)
    requires a.Valid() && q < a.lists.Length && vq.Valid() && Separate(a, vq) && Wishes(want) && token != 0
    requires SameBag(ring, vq.ring.log.bufs) && AllShown(ring, vq.ring.log.bufs, want) && LookedAfter(vq.ring)
    modifies vq, vq.desc, vq.availRing, vq.usedRing, vq.tokens
    ensures vq.Valid() && LookedAfter(vq.ring) && vq.vq.noInterrupt == old(vq.vq.noInterrupt)
    ensures (vq.ring.kicked ==> old(vq.ring.kicked) || notify) && (notify ==> vq.ring.kicked)
    ensures var j := Find(a.lists[q], token);
            if j < |a.lists[q]| && a.lists[q][j].fua && FlushFinds(a.resetInProgress, full).Room? then
              var e := Entry(a.lists[q][j].id, a.lists[q][j].srb, true);
              && SameBag(ring + [e], vq.ring.log.bufs) && AllShown(ring + [e], vq.ring.log.bufs, want)
              && PutIn(old(vq.ring.log.bufs), vq.ring.log.bufs, token, Wish(want(e).sg, 1))
              && Decodes(vq.ring, token, Wish(want(e).sg, 1))
            else
              && SameBag(ring, vq.ring.log.bufs) && AllShown(ring, vq.ring.log.bufs, want)
              && vq.ring == old(vq.ring) && !notify
    ensures var j := Find(a.lists[q], token);
            full <==> && j < |a.lists[q]| && a.lists[q][j].fua && !a.resetInProgress
                      && |want(Entry(token, a.lists[q][j].srb, true)).sg| > old(vq.numUnused)
    ensures Grown(old(vq.ring.log), vq.ring.log)
  {
    hide Inv, SameBag, AllShown, PutIn, Shows, Decodes, IdOf, SplitRing.RingOk, SplitDriver.Threaded, SplitDriver.CountersOk;
    full, notify := false, false;
    var known, j := a.Search(q, token);
    if known && a.lists[q][j].fua && !a.resetInProgress {
      ghost var bufs := vq.ring.log.bufs;
      var ok;
      var e := Entry(token, a.lists[q][j].srb, true);
      assert want(e).out == 1;
      ok, notify := Offer(vq, want(e).sg, 1, token, Ledger.None);
      full := !ok;
      if ok {
        PutInShows(bufs, vq.ring.log.bufs, token, Wish(want(e).sg, 1));
        BagAdded(ring, bufs, vq.ring.log.bufs, e);
        ShownAdded(ring, bufs, vq.ring.log.bufs, e, want);
      }
    }
  }

  /** The oldest completion was returned; it is that of the buffer added with token. */
  ghost predicate Next1(l: Ledger.Log, l': Ledger.Log, token: nat) {
    && l.returned < |l.done| && Ledger.AddedWith(l.added, l.done[l.returned], token)
    && l'.added == l.added && l.done <= l'.done && l'.returned == l.returned + 1
  }

  /** virtqueue_get_buf, seen by the adapter: NULL, or the id of one of the ring's tokens. */
  method Take(a: Adapter, vq: SplitVirtqueue.Queue, q: nat, ghost want: Entry -> Wish) returns (token: nat, i: nat)
    requires Carries(a, q, vq, want)
    modifies vq, vq.desc, vq.usedRing, vq.tokens
    ensures vq.Valid() && LookedAfter(vq.ring) && (token != 0 <==> old(vq.ring.log.returned < |vq.ring.log.done|))
    ensures token == 0 ==> vq.ring == old(vq.ring)
    ensures (vq.ring.kicked ==> old(vq.ring.kicked)) && vq.vq.noInterrupt == old(vq.vq.noInterrupt)
    ensures token != 0 ==>
      && i < |a.rings[q]| && a.rings[q][i].id == token == IdOf(a.rings[q][i].owner)
      && SameBag(Without(a.rings[q], i), vq.ring.log.bufs) && AllShown(Without(a.rings[q], i), vq.ring.log.bufs, want)
    ensures token != 0 ==> Next1(old(vq.ring.log), vq.ring.log, token)
  {
    hide Inv, SameBag, AllShown, IdOf, SplitRing.RingOk, SplitDriver.Threaded, SplitDriver.CountersOk, Without;
    ghost var bufs := vq.ring.log.bufs;
    var len;
    token, len := vq.GetBuf();
    i := 0;
    if token != 0 {
      BagHas(a.rings[q], bufs, vq.ring.log.bufs, token);
      i :| 0 <= i < |a.rings[q]| && a.rings[q][i].id == token;
      BagTaken(a.rings[q], bufs, vq.ring.log.bufs, i);
      IdsApart(a.Now(), q, i);
      ShownTaken(a.rings[q], bufs, vq.ring.log.bufs, i, want);
    }
  }

  /** A step of the adapter that goes with the return of one completion: the token is the one that the
      buffer was added with, and the status is what the device wrote for it. */
  ghost predicate Told1(l: Ledger.Log, l': Ledger.Log, s: State, step: Step, s': State, said: nat -> DeviceStatus) {
    && l.returned < |l.done| && l.added <= l'.added && l.done <= l'.done && l'.returned == l.returned + 1
    && step.DoReturn? && step.q < |s.rings| && step.i < |s.rings[step.q]|
    && var e, c := s.rings[step.q][step.i], l.done[l.returned];
       && step.dev == said(c.serial) && Ledger.AddedWith(l.added, c, e.id) && e.id == IdOf(e.owner)
       && Returns(s'.events) == Returns(s.events) + [Returned(e.owner, e.flush, step.dev)]
  }

  lemma ToldBy(l: Ledger.Log, l1: Ledger.Log, l2: Ledger.Log, s: State, q: nat, i: nat, dev: DeviceStatus, found: Found,
               said: nat -> DeviceStatus)
    requires Inv(s) && q < |s.lists| && i < |s.rings[q]|
    requires Next1(l, l1, s.rings[q][i].id) && Grown(l1, l2) && dev == said(l.done[l.returned].serial)
    ensures Told1(l, l2, s, DoReturn(q, i, dev, found), Return(s, q, i, dev, found), said)
  {
    IdsApart(s, q, i);
    ReturnsOne(s, q, i, dev, found);
  }

  /** From position n on, a request was sent again as a flush. */
  ghost predicate ResentSince(events: seq<Event>, n: nat) {
    exists m :: n <= m < |events| && events[m].Submitted? && events[m].flush
  }

  lemma ResentStill(e0: seq<Event>, e1: seq<Event>, e2: seq<Event>)
    requires e0 <= e1 <= e2
    ensures ResentSince(e1, |e0|) || ResentSince(e2, |e1|) ==> ResentSince(e2, |e0|)
  {
  }

  lemma ResentIs(s: State, q: nat, i: nat, dev: DeviceStatus, found: Found)
    requires Inv(s) && q < |s.lists| && i < |s.rings[q]|
    ensures s.events <= Return(s, q, i, dev, found).events
    ensures var j := Find(s.lists[q], s.rings[q][i].id);
            j < |s.lists[q]| && s.lists[q][j].fua && found.Room? ==>
              ResentSince(Return(s, q, i, dev, found).events, |s.events|)
  {
    var s' := Return(s, q, i, dev, found);
    ReturnIs(s, q, i, dev, found);
    ReturnEvents(s, q, i, dev, found);
    var j := Find(s.lists[q], s.rings[q][i].id);
    if j < |s.lists[q]| && s.lists[q][j].fua && found.Room? {
      assert s'.events[|s.events| + 1] == Submitted(s.lists[q][j].srb, true);
    }
  }

  /** The adapter's part of it. */
  method Conclude(a: Adapter, q: nat, i: nat, dev: DeviceStatus, full: bool) returns (ghost step: Step)
    requires a.Valid() && q < a.lists.Length && i < |a.rings[q]|
    modifies a`events, a.lists, a.counts, a.rings
    ensures a.Valid() && step == DoReturn(q, i, dev, FlushFinds(a.resetInProgress, full))
    ensures a.Now() == Return(old(a.Now()), q, i, dev, step.found)
    ensures Next(old(a.Now()), step, a.Now()) && Work(a.Now(), q) < Work(old(a.Now()), q) && old(a.events) <= a.events
    ensures var j := Find(old(a.lists[q]), old(a.rings[q])[i].id);
            var ring := Without(old(a.rings[q]), i);
            if j < |old(a.lists[q])| && old(a.lists[q])[j].fua && step.found.Room? then
              && a.rings[q] == ring + [Entry(old(a.lists[q])[j].id, old(a.lists[q])[j].srb, true)]
              && ResentSince(a.events, |old(a.events)|)
            else a.rings[q] == ring
  {
    hide Inv, IdOf, Without, Find, Return, Next, Work, ResentSince;
    ghost var s, found := a.Now(), FlushFinds(a.resetInProgress, full);
    ReturnRing(s, q, i, dev, found);
    Returned1(s, q, i, dev, found);
    ResentIs(s, q, i, dev, found);
    found := a.CompleteOne(q, i, dev, full);
    step := DoReturn(q, i, dev, found);
  }

  /** What the handler does with a token that get_buf returned. */
  method Serve(a: Adapter, vq: SplitVirtqueue.Queue, q: nat, i: nat, want: Entry -> Wish, said: nat -> DeviceStatus, ghost l: Ledger.Log)
    returns (notify: bool, ghost step: Step)
    requires a.Valid() && vq.Valid() && Separate(a, vq) && q < a.lists.Length && i < |a.rings[q]| && a.rings[q][i].id != 0
    requires LookedAfter(vq.ring) && Wishes(want) && Next1(l, vq.ring.log, a.rings[q][i].id)
    requires SameBag(Without(a.rings[q], i), vq.ring.log.bufs) && AllShown(Without(a.rings[q], i), vq.ring.log.bufs, want)
    modifies a`events, a.lists, a.counts, a.rings, vq, vq.desc, vq.availRing, vq.usedRing, vq.tokens
    ensures Carries(a, q, vq, want)
    ensures (vq.ring.kicked ==> old(vq.ring.kicked) || notify) && vq.vq.noInterrupt == old(vq.vq.noInterrupt)
    ensures old(a.events) <= a.events && (notify ==> vq.ring.kicked && ResentSince(a.events, |old(a.events)|))
    ensures step.DoReturn? && step.q == q && Next(old(a.Now()), step, a.Now()) && Work(a.Now(), q) < Work(old(a.Now()), q)
    ensures Told1(l, vq.ring.log, old(a.Now()), step, a.Now(), said)
  {
    hide Inv, SameBag, AllShown, PutIn, Shows, Decodes, Wishes, Returns, IdOf, SplitRing.RingOk, SplitDriver.Threaded,
      SplitDriver.CountersOk, Without, Find, Return, Next, Work, Told1, ResentSince;
    ghost var s, l1 := a.Now(), vq.ring.log;
    var dev := said(vq.ring.log.done[vq.ring.log.returned - 1].serial);
    var full;
    full, notify := Resend(a, vq, q, a.rings[q][i].id, want, Without(a.rings[q], i));
    ToldBy(l, l1, vq.ring.log, s, q, i, dev, FlushFinds(a.resetInProgress, full), said);
    step := Conclude(a, q, i, dev, full);
  }

  /** One round of the completion handler: the step Return for the token that the queue gave back, with
      the status that the device wrote for that buffer, or nothing when the device has completed nothing
      more. */
  method TakeOne(a: Adapter, vq: SplitVirtqueue.Queue, q: nat, want: Entry -> Wish, said: nat -> DeviceStatus)
    returns (more: bool, notify: bool, ghost step: Step)
    requires Carries(a, q, vq, want)
    modifies a`events, a.lists, a.counts, a.rings, vq, vq.desc, vq.availRing, vq.usedRing, vq.tokens
    ensures Carries(a, q, vq, want) && (more <==> old(vq.ring.log.returned < |vq.ring.log.done|))
    ensures !more ==> a.Now() == old(a.Now()) && vq.ring == old(vq.ring)
    ensures (vq.ring.kicked ==> old(vq.ring.kicked) || notify) && vq.vq.noInterrupt == old(vq.vq.noInterrupt)
    ensures old(a.events) <= a.events && (notify ==> vq.ring.kicked && ResentSince(a.events, |old(a.events)|))
    ensures more ==>
      step.DoReturn? && step.q == q && Next(old(a.Now()), step, a.Now()) && Work(a.Now(), q) < Work(old(a.Now()), q)
    ensures more ==> Told1(old(vq.ring.log), vq.ring.log, old(a.Now()), step, a.Now(), said)
  {
    hide Inv, SameBag, AllShown, Wishes, IdOf, SplitRing.RingOk, SplitDriver.Threaded, SplitDriver.CountersOk, Without, Next, Work,
      Told1, ResentSince, Next1;
    ghost var l := vq.ring.log;
    var token, i := Take(a, vq, q, want);
    more, notify := token != 0, false;
    step := DoReset(q);
    if more {
      notify, step := Serve(a, vq, q, i, want, said, l);
    }
  }

  ghost predicate AllReturns(steps: seq<Step>, q: nat) {
    forall n :: 0 <= n < |steps| ==> steps[n].DoReturn? && steps[n].q == q
  }

  /** So far: steps lead here from start, with a return for every completion from position lo on. */
  ghost predicate Handled(start: State, steps: seq<Step>, s: State, q: nat, l: Ledger.Log, lo: nat, said: nat -> DeviceStatus) {
    && Leads(start, steps, s) && AllReturns(steps, q)
    && |Returns(start.events)| <= |Returns(s.events)| && Returns(start.events) <= Returns(s.events)
    && |steps| == |Returns(s.events)| - |Returns(start.events)|
    && AllTold(l, lo, Returns(s.events)[|Returns(start.events)|..], said)
  }

  lemma HandledStart(s: State, q: nat, l: Ledger.Log, said: nat -> DeviceStatus)
    requires l.returned <= |l.done|
    ensures Handled(s, [], s, q, l, l.returned, said)
  {
  }

  lemma HandledGrows(start: State, steps: seq<Step>, s: State, q: nat, l: Ledger.Log, l': Ledger.Log, lo: nat, said: nat -> DeviceStatus)
    requires Handled(start, steps, s, q, l, lo, said) && Grown(l, l')
    ensures Handled(start, steps, s, q, l', lo, said)
  {
    ToldGrows(l, l', lo, Returns(s.events)[|Returns(start.events)|..], said);
  }

  lemma HandledNext(start: State, steps: seq<Step>, s: State, step: Step, s': State, q: nat,
                    l: Ledger.Log, l': Ledger.Log, lo: nat, said: nat -> DeviceStatus)
    requires Handled(start, steps, s, q, l, lo, said) && step.q == q && Next(s, step, s') && Told1(l, l', s, step, s', said)
    ensures Handled(start, steps + [step], s', q, l', lo, said)
  {
    hide Next, Leads, Returns, IdOf;
    LeadsOn(start, steps, s, step, s');
    var k := |Returns(start.events)|;
    var e := Returns(s'.events)[|Returns(s.events)|];
    assert Returns(s'.events)[k..] == Returns(s.events)[k..] + [e];
    ToldNext(l, l', lo, Returns(s.events)[k..], e, said);
  }

  lemma {:induction false} ReturnsAt(events: seq<Event>, n: nat)
    requires n < |Returns(events)|
    ensures exists m :: 0 <= m < |events| && events[m] == Returns(events)[n]
  {
    var last := |events| - 1;
    if n < |Returns(events[..last])| {
      ReturnsAt(events[..last], n);
      var m :| 0 <= m < last && events[..last][m] == Returns(events[..last])[n];
      assert events[m] == Returns(events)[n];
    }
  }

  /** Event m is the return of buffer c, and the next one the answer to what the device wrote. */
  ghost predicate ReportedAt(s: State, added: seq<nat>, c: Ledger.Completion, said: nat -> DeviceStatus, m: nat)
    requires m < |s.events|
  {
    var e := s.events[m];
    && Tells(added, c, e, said)
    && (Completions(s.events[..m], e.srb) == 0 ==>
          && m + 1 < |s.events| && e.srb < |s.kinds|
          && Answers(s.kinds[e.srb], e.flush, said(c.serial), e.srb, s.events[m + 1]))
  }

  /** The n-th completion that the handler took is on record with the status that the device wrote, and
      unless its request had been completed before, the next thing on record is the answer to that
      status. */
  lemma StatusReported(start: State, steps: seq<Step>, s: State, q: nat, l: Ledger.Log, lo: nat, said: nat -> DeviceStatus, n: nat)
    requires Inv(s) && Handled(start, steps, s, q, l, lo, said) && n < |steps|
    ensures lo + n < |l.done|
    ensures var c := l.done[lo + n]; exists m :: 0 <= m < |s.events| && ReportedAt(s, l.added, c, said, m)
  {
    hide Leads, Completions, IdOf, QueuesOk, OnceOk, FuaOk, Answers, Ledger.AddedWith;
    var x := |Returns(start.events)| + n;
    ReturnsAt(s.events, x);
    var m :| 0 <= m < |s.events| && s.events[m] == Returns(s.events)[x];
    hide Returns;
    assert Tells(l.added, l.done[lo + n], s.events[m], said);
    assert AnsweredAt(s, m);
    assert ReportedAt(s, l.added, l.done[lo + n], said, m);
  }

  /** The inner loop of the handler, with interrupts off. It notifies only for a flush. */
  method TakeAll(a: Adapter, vq: SplitVirtqueue.Queue, q: nat, want: Entry -> Wish, said: nat -> DeviceStatus,
                 ghost start: State, ghost before: seq<Step>, ghost lo: nat)
    returns (notify: bool, ghost steps: seq<Step>)
    requires Carries(a, q, vq, want) && Handled(start, before, a.Now(), q, vq.ring.log, lo, said) && vq.vq.noInterrupt
    modifies a`events, a.lists, a.counts, a.rings, vq, vq.desc, vq.availRing, vq.usedRing, vq.tokens
    ensures Carries(a, q, vq, want) && Handled(start, steps, a.Now(), q, vq.ring.log, lo, said)
    ensures Work(a.Now(), q) <= Work(old(a.Now()), q) && (vq.ring.kicked ==> old(vq.ring.kicked) || notify)
    ensures old(vq.ring.log.returned < |vq.ring.log.done|) ==> Work(a.Now(), q) < Work(old(a.Now()), q)
    ensures old(a.events) <= a.events && (notify ==> ResentSince(a.events, |old(a.events)|))
  {
    hide Inv, SameBag, AllShown, Wishes, IdOf, SplitRing.RingOk, SplitDriver.Threaded, SplitDriver.CountersOk, Next, Work,
      Handled, Told1, ResentSince;
    notify, steps := false, before;
    ghost var s0, had := a.Now(), vq.ring.log.returned < |vq.ring.log.done|;
    var more := true;
    while more
      invariant Carries(a, q, vq, want) && Handled(start, steps, a.Now(), q, vq.ring.log, lo, said) && vq.vq.noInterrupt
      invariant old(a.events) <= a.events && (notify ==> ResentSince(a.events, |old(a.events)|))
      invariant Work(a.Now(), q) <= Work(s0, q) && (vq.ring.kicked ==> old(vq.ring.kicked) || notify)
      invariant Work(a.Now(), q) < Work(s0, q) || (more && (had ==> vq.ring.log.returned < |vq.ring.log.done|)) || !had
      decreases Work(a.Now(), q), more
    {
      ghost var s, l := a.Now(), vq.ring.log;
      ghost var step;
      var kick;
      more, kick, step := TakeOne(a, vq, q, want, said);
      ResentStill(old(a.events), s.events, a.events);
      notify := notify || kick;
      if more {
        HandledNext(start, steps, s, step, a.Now(), q, l, vq.ring.log, lo, said);
        steps := steps + [step];
      }
    }
  }

  /** Interrupts off. */
  method Pause(a: Adapter, vq: SplitVirtqueue.Queue, q: nat, ghost want: Entry -> Wish)
    requires Carries(a, q, vq, want)
    modifies vq, vq.usedRing
    ensures Carries(a, q, vq, want) && Grown(old(vq.ring.log), vq.ring.log) && (vq.ring.kicked ==> old(vq.ring.kicked))
    ensures vq.vq.noInterrupt
    ensures old(vq.ring.log.returned < |vq.ring.log.done|) ==> vq.ring.log.returned < |vq.ring.log.done|
  {
    hide Inv, SameBag, AllShown, Wishes, SplitRing.RingOk, SplitDriver.Threaded, SplitDriver.CountersOk;
    vq.DisableCb();
  }

  /** Interrupts on: armed, or there is more to take. */
  method Resume(a: Adapter, vq: SplitVirtqueue.Queue, q: nat, ghost want: Entry -> Wish) returns (drained: bool)
    requires Carries(a, q, vq, want)
    modifies vq, vq.usedRing
    ensures Carries(a, q, vq, want) && Grown(old(vq.ring.log), vq.ring.log) && (vq.ring.kicked ==> old(vq.ring.kicked))
    ensures drained ==> vq.ring.armed == Ledger.Some(vq.ring.u)
    ensures !drained ==> vq.ring.log.returned < |vq.ring.log.done|
    ensures !vq.vq.noInterrupt
  {
    hide Inv, SameBag, AllShown, Wishes, SplitRing.RingOk, SplitDriver.Threaded, SplitDriver.CountersOk;
    drained := vq.EnableCb();
    SplitDriver.MoreDone(vq.ring);
  }

  /** One round of the outer loop: interrupts off, the inner loop, interrupts on. */
  method Round(a: Adapter, vq: SplitVirtqueue.Queue, q: nat, want: Entry -> Wish, said: nat -> DeviceStatus,
               ghost start: State, ghost before: seq<Step>, ghost lo: nat)
    returns (notify: bool, drained: bool, ghost steps: seq<Step>)
    requires Carries(a, q, vq, want) && Handled(start, before, a.Now(), q, vq.ring.log, lo, said)
    modifies a`events, a.lists, a.counts, a.rings, vq, vq.desc, vq.availRing, vq.usedRing, vq.tokens
    ensures Carries(a, q, vq, want) && Handled(start, steps, a.Now(), q, vq.ring.log, lo, said)
    ensures Work(a.Now(), q) <= Work(old(a.Now()), q) && (vq.ring.kicked ==> old(vq.ring.kicked) || notify)
    ensures old(vq.ring.log.returned < |vq.ring.log.done|) ==> Work(a.Now(), q) < Work(old(a.Now()), q)
    ensures drained ==> vq.ring.armed == Ledger.Some(vq.ring.u)
    ensures !drained ==> vq.ring.log.returned < |vq.ring.log.done|
    ensures old(a.events) <= a.events && (notify ==> ResentSince(a.events, |old(a.events)|))
  {
    hide Inv, SameBag, AllShown, Wishes, IdOf, SplitRing.RingOk, SplitDriver.Threaded, SplitDriver.CountersOk, Work, Handled,
      LookedAfter, ResentSince;
    ghost var l := vq.ring.log;
    Pause(a, vq, q, want);
    HandledGrows(start, before, a.Now(), q, l, vq.ring.log, lo, said);
    notify, steps := TakeAll(a, vq, q, want, said, start, before, lo);
    l := vq.ring.log;
    drained := Resume(a, vq, q, want);
    HandledGrows(start, steps, a.Now(), q, l, vq.ring.log, lo, said);
  }

  /** VioStorCompleteRequest: interrupts off, everything the device has completed, interrupts on, until
      nothing came in meanwhile. It ends, resends included; it is a sequence of the steps that the
      exactly-once argument is about, one for every completion, in order and with the status that the
      device wrote; and it leaves the driver armed for the next completion and no sleeping device
      behind. */
  method HandleCompletions(a: Adapter, vq: SplitVirtqueue.Queue, q: nat, want: Entry -> Wish, said: nat -> DeviceStatus)
    returns (notify: bool, ghost steps: seq<Step>)
    requires Carries(a, q, vq, want)
    modifies a`events, a.lists, a.counts, a.rings, vq, vq.desc, vq.availRing, vq.usedRing, vq.tokens
    ensures Carries(a, q, vq, want)
    ensures Handled(old(a.Now()), steps, a.Now(), q, vq.ring.log, old(vq.ring.log.returned), said)
    ensures vq.ring.armed == Ledger.Some(vq.ring.u)
    ensures vq.ring.asleep && vq.ring.c < vq.ring.a ==> vq.ring.kicked
    ensures vq.ring.kicked ==> old(vq.ring.kicked) || notify
    ensures old(a.events) <= a.events && (notify ==> ResentSince(a.events, |old(a.events)|))
  {
    SplitDriver.MoreDone(vq.ring);
    hide Inv, SameBag, AllShown, Wishes, IdOf, SplitRing.RingOk, SplitDriver.Threaded, SplitDriver.CountersOk, Next, Work, Handled,
      ResentSince;
    ghost var start, lo := a.Now(), vq.ring.log.returned;
    notify, steps := false, [];
    HandledStart(start, q, vq.ring.log, said);
    var first, drained := true, false;
    while !drained
      invariant Carries(a, q, vq, want) && Handled(start, steps, a.Now(), q, vq.ring.log, lo, said)
      invariant drained ==> vq.ring.armed == Ledger.Some(vq.ring.u)
      invariant vq.ring.kicked ==> old(vq.ring.kicked) || notify
      invariant old(a.events) <= a.events && (notify ==> ResentSince(a.events, |old(a.events)|))
      invariant !drained && !first ==> vq.ring.log.returned < |vq.ring.log.done|
      decreases Work(a.Now(), q) + (if first then 1 else 0), !drained
    {
      var kick;
      ghost var events := a.events;
      kick, drained, steps := Round(a, vq, q, want, said, start, steps, lo);
      ResentStill(start.events, events, a.events);
      notify := notify || kick;
      first := false;
    }
    NoneLeftBehind(vq.ring);
  }

  /** A new adapter on a new queue. */
  method Attach(queues: nat, q: nat, num: nat, eventSuppression: bool, indirect: map<nat, seq<SplitRing.Desc>>,
                ghost want: Entry -> Wish)
    returns (a: Adapter, vq: SplitVirtqueue.Queue)
    requires q < queues && Wishes(want) && Positions.QueueSize(num) && Bits.And(num, num - 1) == 0
    ensures Carries(a, q, vq, want) && a.Now() == Initial(queues) && vq.ring.log.bufs == map[]
  {
    hide Inv, SameBag, SplitRing.RingOk, SplitDriver.Threaded, SplitDriver.CountersOk, Bits.And;
    a := new Adapter(queues);
    assert a.rings[q] == Initial(queues).rings[q];
    vq := new SplitVirtqueue.Queue(num, eventSuppression, indirect);
    EmptyBag();
  }

  lemma EmptyBag()
    ensures SameBag([], map[])
  {
    forall t: nat
      ensures |Ledger.Holders(map[], t)| == 0
    {
      assert Ledger.Holders(map[], t) == {};
    }
  }

  /** The reset drain: every request so far is completed, and the queue still holds all of the tokens. */
  method ResetPending(a: Adapter, vq: SplitVirtqueue.Queue, q: nat, ghost want: Entry -> Wish)
    requires Carries(a, q, vq, want) && !a.resetInProgress
    modifies a, a.lists, a.counts
    ensures Carries(a, q, vq, want) && a.Now() == ResetAll(old(a.Now()), a.lists.Length)
    ensures forall k :: 0 <= k < |a.home| ==> Completions(a.events, k) == 1
  {
    ghost var s := a.Now();
    ResetAllKeeps(s, |s.lists|);
    assert forall k :: 0 <= k < |s.home| ==> s.home[k] < |s.lists|;
    hide Inv, SameBag, IdOf, SplitRing.RingOk, SplitDriver.Threaded, SplitDriver.CountersOk;
    a.CompletePendingRequests();
    assert a.rings[..] == s.rings;
    assert a.rings[q] == s.rings[q];
  }
}
