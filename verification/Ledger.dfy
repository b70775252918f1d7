/**
 The bookkeeping that both kinds of ring implement: which buffers are outstanding, where
 each of them is, and the history of what was added, completed and returned.

 This is the abstract virtqueue. A buffer is added under an id, consumed by the device,
 completed in any order, and returned to the driver in the order of completion.
 */
module Ledger {
  import opened DescPool

  datatype Option<T> = None | Some(value: T)

  /** One scatter/gather element of a caller. */
  datatype Sg = Sg(addr: nat, len: nat)

  /** What the device gets to know about one element of a buffer. */
  datatype Segment = Segment(addr: nat, len: nat, writable: bool)

  /** An outstanding buffer: the serial-th one added, with n descriptors; pos is its ring position. */
  datatype Buffer = Buffer(serial: nat, token: nat, sg: seq<Sg>, out: nat, table: Option<nat>, pos: nat, n: nat)

  datatype UsedElem = UsedElem(id: nat, pos: nat, len: nat)

  datatype Completion = Completion(serial: nat, len: nat)

  datatype Log = Log(
    bufs: map<nat, Buffer>,
    // ids the device has not consumed, has in hand, has published as used
    avail: seq<nat>, inflight: seq<nat>, used: seq<UsedElem>,
    // history: tokens added, completions published, how many of those were returned
    added: seq<nat>, done: seq<Completion>, returned: nat)

  /** What a caller of add_buf asked for: the first out elements are read-only, the rest writable. */
  function Meaning(sg: seq<Sg>, out: nat): (s: seq<Segment>)
    ensures |s| == |sg|
    ensures forall i :: 0 <= i < |sg| ==> s[i].addr == sg[i].addr && s[i].len == sg[i].len && (s[i].writable <==> out <= i)
  {
    seq(|sg|, i requires 0 <= i < |sg| => Segment(sg[i].addr, sg[i].len, i >= out))
  }

  predicate BufferOk(b: Buffer) {
    && b.token != 0 && |b.sg| >= 1 && b.out <= |b.sg|
    && b.n == if b.table.Some? then 1 else |b.sg|
  }

  function UsedIds(used: seq<UsedElem>): (s: seq<nat>) {
    seq(|used|, i requires 0 <= i < |used| => used[i].id)
  }

  // ----- invariant -----

  /** Every outstanding id is in exactly one of the three places, once. */
  ghost predicate IdsOk(l: Log, num: nat) {
    && multiset(l.avail) + multiset(l.inflight) + multiset(UsedIds(l.used)) == multiset(l.bufs.Keys)
    && (forall id :: id in l.bufs ==> id < num && BufferOk(l.bufs[id]))
  }

  ghost predicate KnownUsed(l: Log) {
    forall j :: 0 <= j < |l.used| ==> l.used[j].id in l.bufs
  }

  /** Live serial numbers are distinct and name the token that was added. */
  ghost predicate SerialsOk(l: Log) {
    && (forall id :: id in l.bufs ==>
          l.bufs[id].serial < |l.added| && l.added[l.bufs[id].serial] == l.bufs[id].token)
    && (forall id, id' :: id in l.bufs && id' in l.bufs && l.bufs[id].serial == l.bufs[id'].serial ==> id == id')
  }

  /** The completions not yet returned are the used list. */
  ghost predicate DoneOk(l: Log) {
    && KnownUsed(l)
    && |l.done| == l.returned + |l.used|
    && (forall j :: 0 <= j < |l.used| ==>
          l.done[l.returned + j] == Completion(l.bufs[l.used[j].id].serial, l.used[j].len))
  }

  /** Returned serial numbers are distinct and no longer live. */
  ghost predicate ReturnedOk(l: Log) {
    && l.returned <= |l.done|
    && (forall i :: 0 <= i < l.returned ==> l.done[i].serial < |l.added|)
    && (forall i, j :: 0 <= i < j < l.returned ==> l.done[i].serial != l.done[j].serial)
    && (forall i, id :: 0 <= i < l.returned && id in l.bufs ==> l.done[i].serial != l.bufs[id].serial)
  }

  ghost predicate Live(l: Log, s: nat) {
    exists id :: id in l.bufs && l.bufs[id].serial == s
  }

  ghost predicate Returned(l: Log, s: nat)
    requires l.returned <= |l.done|
  {
    exists i :: 0 <= i < l.returned && l.done[i].serial == s
  }

  /** Whatever was added is outstanding or was returned. */
  ghost predicate NothingLost(l: Log) {
    l.returned <= |l.done| && forall s: nat :: s < |l.added| ==> Live(l, s) || Returned(l, s)
  }

  ghost predicate HistoryOk(l: Log) {
    SerialsOk(l) && DoneOk(l) && ReturnedOk(l) && NothingLost(l)
  }

  ghost predicate LogOk(l: Log, num: nat) {
    IdsOk(l, num) && HistoryOk(l)
  }

  // ----- steps -----

  function Added(l: Log, id: nat, b: Buffer): (l': Log) {
    l.(bufs := l.bufs[id := b], avail := l.avail + [id], added := l.added + [b.token])
  }

  function Consumed(l: Log): (l': Log)
    requires l.avail != []
  {
    l.(avail := l.avail[1..], inflight := l.inflight + [l.avail[0]])
  }

  function Completed(l: Log, k: nat, pos: nat, len: nat): (l': Log)
    requires k < |l.inflight| && l.inflight[k] in l.bufs
  {
    var id := l.inflight[k];
    l.(inflight := l.inflight[..k] + l.inflight[k + 1..],
       used := l.used + [UsedElem(id, pos, len)],
       done := l.done + [Completion(l.bufs[id].serial, len)])
  }

  function Reclaimed(l: Log): (l': Log)
    requires l.used != []
  {
    l.(used := l.used[1..], bufs := l.bufs - {l.used[0].id}, returned := l.returned + 1)
  }

  // ----- facts about one log -----

  lemma KnownIds(l: Log, num: nat)
    requires IdsOk(l, num)
    ensures KnownUsed(l)
    ensures forall j :: 0 <= j < |l.avail| ==> l.avail[j] in l.bufs
    ensures forall j :: 0 <= j < |l.inflight| ==> l.inflight[j] in l.bufs
  {
    assert forall id :: id in multiset(l.bufs.Keys) <==> id in l.bufs;
    forall j | 0 <= j < |l.used|
      ensures l.used[j].id in l.bufs
    {
      assert UsedIds(l.used)[j] in multiset(UsedIds(l.used));
    }
    assert forall j :: 0 <= j < |l.avail| ==> l.avail[j] in multiset(l.avail);
    assert forall j :: 0 <= j < |l.inflight| ==> l.inflight[j] in multiset(l.inflight);
  }

  /** An outstanding id is in one place only. */
  lemma OnlyOnce(l: Log, num: nat, id: nat)
    requires IdsOk(l, num) && id in l.bufs
    ensures multiset(l.avail)[id] + multiset(l.inflight)[id] + multiset(UsedIds(l.used))[id] == 1
  {
    var m := multiset(l.avail) + multiset(l.inflight) + multiset(UsedIds(l.used));
    assert m[id] == multiset(l.bufs.Keys)[id] == 1;
  }

  lemma NotFirst(s: seq<nat>)
    requires s != [] && multiset(s)[s[0]] == 1
    ensures s[0] !in s[1..]
  {
    assert s == [s[0]] + s[1..];
  }

  /** Reclaiming the first used id concerns no other entry. */
  lemma ReclaimOthers(l: Log, num: nat)
    requires IdsOk(l, num) && l.used != []
    ensures l.used[0].id in l.bufs
    ensures forall j :: 1 <= j < |l.used| ==> l.used[j].id != l.used[0].id
    ensures forall j :: 0 <= j < |l.avail| ==> l.avail[j] != l.used[0].id
    ensures forall j :: 0 <= j < |l.inflight| ==> l.inflight[j] != l.used[0].id
  {
    KnownIds(l, num);
    var ids := UsedIds(l.used);
    var id := l.used[0].id;
    OnlyOnce(l, num, id);
    assert ids[0] == id && id in multiset(ids);
    NotFirst(ids);
    assert forall j :: 1 <= j < |l.used| ==> l.used[j].id == ids[1..][j - 1];
    assert forall j :: 0 <= j < |l.avail| ==> l.avail[j] in multiset(l.avail);
    assert forall j :: 0 <= j < |l.inflight| ==> l.inflight[j] in multiset(l.inflight);
  }

  /** There are as many outstanding buffers as entries in the three places. */
  lemma CountOutstanding(l: Log, num: nat)
    requires IdsOk(l, num)
    ensures |l.bufs| == |l.avail| + |l.inflight| + |l.used|
  {
    var m := multiset(l.avail) + multiset(l.inflight) + multiset(UsedIds(l.used));
    assert |m| == |l.avail| + |l.inflight| + |l.used|;
    assert |multiset(l.bufs.Keys)| == |l.bufs.Keys|;
  }

  lemma RemoveOne(s: seq<nat>, k: nat)
    requires k < |s|
    ensures multiset(s) == multiset(s[..k] + s[k + 1..]) + multiset{s[k]}
  {
    assert s == s[..k] + ([s[k]] + s[k + 1..]);
  }

  lemma UsedDistinct(l: Log, num: nat)
    requires IdsOk(l, num)
    ensures forall i, j :: 0 <= i < j < |l.used| ==> l.used[i].id != l.used[j].id
  {
    KnownIds(l, num);
    var ids := UsedIds(l.used);
    forall i, j | 0 <= i < j < |l.used|
      ensures l.used[i].id != l.used[j].id
    {
      OnlyOnce(l, num, ids[i]);
      RemoveOne(ids, i);
      assert (ids[..i] + ids[i + 1..])[j - 1] == ids[j];
      assert ids[j] in multiset(ids[..i] + ids[i + 1..]);
    }
  }

  /** Each buffer added is completed at most once and, once its completion was returned,
      is gone; nothing added is lost; what is neither is still outstanding. */
  lemma ReturnedOnce(l: Log, num: nat)
    requires LogOk(l, num)
    ensures l.returned <= |l.done|
    ensures forall i :: 0 <= i < |l.done| ==> l.done[i].serial < |l.added|
    ensures forall i, j :: 0 <= i < j < |l.done| ==> l.done[i].serial != l.done[j].serial
    ensures forall s: nat :: s < |l.added| ==> (Returned(l, s) <==> !Live(l, s))
  {
    assert forall i :: l.returned <= i < |l.done| ==> l.done[i].serial == l.bufs[l.used[i - l.returned].id].serial;
    UsedDistinct(l, num);
  }

  /** The first used entry is the oldest completion that was not returned. */
  lemma OldestDone(l: Log, num: nat)
    requires LogOk(l, num) && l.used != []
    ensures l.returned < |l.done| && l.used[0].id in l.bufs
    ensures l.done[l.returned] == Completion(l.bufs[l.used[0].id].serial, l.used[0].len)
    ensures BufferOk(l.bufs[l.used[0].id]) && l.used[0].id < num
    ensures l.bufs[l.used[0].id].serial < |l.added| && l.added[l.bufs[l.used[0].id].serial] == l.bufs[l.used[0].id].token
  {
  }

  lemma UsedIffDone(l: Log, num: nat)
    requires LogOk(l, num)
    ensures l.used != [] <==> l.returned < |l.done|
  {
  }

  /** No more completions were returned than buffers added. */
  lemma ReturnedBound(l: Log, num: nat)
    requires LogOk(l, num)
    ensures l.returned <= |l.done| <= |l.added|
  {
    ReturnedOnce(l, num);
    var serials := seq(|l.done|, i requires 0 <= i < |l.done| => l.done[i].serial);
    DistinctFits(|l.added|, serials);
  }

  /** tokens are what the completions from position lo on were added with, in order. */
  ghost predicate InOrder(added: seq<nat>, done: seq<Completion>, lo: nat, tokens: seq<nat>) {
    && lo + |tokens| <= |done|
    && forall k :: 0 <= k < |tokens| ==> AddedWith(added, done[lo + k], tokens[k])
  }

  predicate AddedWith(added: seq<nat>, c: Completion, token: nat) {
    c.serial < |added| && token == added[c.serial]
  }

  lemma InOrderGrows(added: seq<nat>, done: seq<Completion>, done': seq<Completion>, lo: nat, tokens: seq<nat>)
    requires InOrder(added, done, lo, tokens) && done <= done'
    ensures InOrder(added, done', lo, tokens)
  {
  }

  lemma InOrderNext(added: seq<nat>, done: seq<Completion>, lo: nat, tokens: seq<nat>, token: nat)
    requires InOrder(added, done, lo, tokens) && lo + |tokens| < |done|
    requires AddedWith(added, done[lo + |tokens|], token)
    ensures InOrder(added, done, lo, tokens + [token])
  {
  }

  ghost function Holders(bufs: map<nat, Buffer>, t: nat): (s: set<nat>) {
    set id | id in bufs && bufs[id].token == t
  }

  /** How many outstanding buffers carry token t: the virtqueue as a bag. */
  ghost function InBag(l: Log, t: nat): (n: nat) {
    |Holders(l.bufs, t)|
  }

  lemma HoldersTaken(bufs: map<nat, Buffer>, id: nat, t: nat)
    requires id in bufs
    ensures |Holders(bufs - {id}, t)| == |Holders(bufs, t)| - if t == bufs[id].token then 1 else 0
  {
    assert Holders(bufs - {id}, t) == Holders(bufs, t) - if t == bufs[id].token then {id} else {};
  }

  /** Adding puts one token into the bag. */
  lemma AddedToBag(l: Log, id: nat, b: Buffer, t: nat)
    requires id !in l.bufs
    ensures InBag(Added(l, id, b), t) == InBag(l, t) + if t == b.token then 1 else 0
  {
    assert l.bufs[id := b] - {id} == l.bufs;
    HoldersTaken(l.bufs[id := b], id, t);
  }

  /** A return takes out the token that get_buf hands back; consuming and completing change nothing. */
  lemma ReturnedFromBag(l: Log, t: nat)
    requires l.used != [] && l.used[0].id in l.bufs
    ensures InBag(Reclaimed(l), t) == InBag(l, t) - if t == l.bufs[l.used[0].id].token then 1 else 0
  {
    HoldersTaken(l.bufs, l.used[0].id, t);
  }

  /** bufs' is bufs without one buffer with the given token. */
  ghost predicate TookOut(bufs: map<nat, Buffer>, bufs': map<nat, Buffer>, token: nat) {
    exists id :: id in bufs && bufs[id].token == token && bufs' == bufs - {id}
  }

  // ----- every step keeps the invariant -----

  lemma EmptyOk(num: nat)
    ensures LogOk(Log(map[], [], [], [], [], [], 0), num)
  {
  }

  lemma AddedIds(l: Log, num: nat, id: nat, b: Buffer)
    requires IdsOk(l, num) && id !in l.bufs && id < num && BufferOk(b)
    ensures IdsOk(Added(l, id, b), num)
  {
    var l' := Added(l, id, b);
    assert l'.bufs.Keys == l.bufs.Keys + {id};
    assert multiset(l'.bufs.Keys) == multiset(l.bufs.Keys) + multiset{id};
  }

  lemma AddedKeeps(l: Log, num: nat, id: nat, b: Buffer)
    requires LogOk(l, num) && id !in l.bufs && id < num && BufferOk(b) && b.serial == |l.added|
    ensures LogOk(Added(l, id, b), num)
  {
    var l' := Added(l, id, b);
    hide IdsOk;
    AddedIds(l, num, id, b);
    AddedNothingLost(l, id, b);
    assert SerialsOk(l');
    assert DoneOk(l');
    assert ReturnedOk(l');
  }

  lemma AddedNothingLost(l: Log, id: nat, b: Buffer)
    requires NothingLost(l) && id !in l.bufs && b.serial == |l.added|
    ensures NothingLost(Added(l, id, b))
  {
    var l' := Added(l, id, b);
    forall s: nat | s < |l'.added|
      ensures Live(l', s) || Returned(l', s)
    {
      if s == |l.added| {
        assert id in l'.bufs && l'.bufs[id].serial == s;
      } else if Live(l, s) {
        var x :| x in l.bufs && l.bufs[x].serial == s;
        assert x in l'.bufs && l'.bufs[x].serial == s;
      } else {
        assert Returned(l, s);
      }
    }
  }

  lemma ConsumedIds(l: Log, num: nat)
    requires IdsOk(l, num) && l.avail != []
    ensures IdsOk(Consumed(l), num)
  {
    assert l.avail == [l.avail[0]] + l.avail[1..];
  }

  lemma ConsumedKeeps(l: Log, num: nat)
    requires LogOk(l, num) && l.avail != []
    ensures LogOk(Consumed(l), num)
  {
    var l' := Consumed(l);
    hide IdsOk;
    ConsumedIds(l, num);
    StillKept(l, l');
  }

  lemma CompletedIds(l: Log, num: nat, k: nat, pos: nat, len: nat)
    requires IdsOk(l, num) && k < |l.inflight| && l.inflight[k] in l.bufs
    ensures IdsOk(Completed(l, k, pos, len), num)
  {
    var l' := Completed(l, k, pos, len);
    assert UsedIds(l'.used) == UsedIds(l.used) + [l.inflight[k]];
    RemoveOne(l.inflight, k);
  }

  lemma CompletedKeeps(l: Log, num: nat, k: nat, pos: nat, len: nat)
    requires LogOk(l, num) && k < |l.inflight| && l.inflight[k] in l.bufs
    ensures LogOk(Completed(l, k, pos, len), num)
  {
    var l' := Completed(l, k, pos, len);
    hide IdsOk;
    CompletedIds(l, num, k, pos, len);
    StillKept(l, l');
    assert DoneOk(l');
  }

  /** Steps after which every live serial is live or returned, and every returned one still is. */
  lemma StillKept(l: Log, l': Log)
    requires NothingLost(l) && |l'.added| == |l.added| && l.returned <= l'.returned <= |l'.done| && l.done <= l'.done
    requires forall id :: id in l.bufs ==> Live(l', l.bufs[id].serial) || Returned(l', l.bufs[id].serial)
    ensures NothingLost(l')
  {
    forall s: nat | s < |l'.added|
      ensures Live(l', s) || Returned(l', s)
    {
      if Returned(l, s) {
        var i :| 0 <= i < l.returned && l.done[i].serial == s;
        assert l'.done[i].serial == s;
      }
    }
  }

  lemma KeysWithout(bufs: map<nat, Buffer>, id: nat)
    requires id in bufs
    ensures multiset(bufs.Keys) == multiset((bufs - {id}).Keys) + multiset{id}
  {
  }

  lemma UsedIdsFirst(used: seq<UsedElem>)
    requires used != []
    ensures multiset(UsedIds(used)) == multiset{used[0].id} + multiset(UsedIds(used[1..]))
  {
    assert UsedIds(used) == [used[0].id] + UsedIds(used[1..]);
  }

  lemma ReclaimedIds(l: Log, num: nat)
    requires IdsOk(l, num) && l.used != []
    ensures IdsOk(Reclaimed(l), num)
  {
    var l' := Reclaimed(l);
    var id := l.used[0].id;
    KnownIds(l, num);
    UsedIdsFirst(l.used);
    KeysWithout(l.bufs, id);
    LessOne(multiset(l.avail), multiset(l.inflight), multiset(UsedIds(l.used)), multiset(UsedIds(l'.used)), id);
  }

  lemma LessOne(a: multiset<nat>, b: multiset<nat>, c: multiset<nat>, c': multiset<nat>, id: nat)
    requires c == multiset{id} + c'
    ensures a + b + c' == a + b + c - multiset{id}
  {
  }

  lemma ReclaimedReturned(l: Log)
    requires SerialsOk(l) && DoneOk(l) && ReturnedOk(l) && l.used != []
    ensures ReturnedOk(Reclaimed(l))
  {
    assert l.done[l.returned + 0] == Completion(l.bufs[l.used[0].id].serial, l.used[0].len);
  }

  lemma ReclaimedNothingLost(l: Log)
    requires DoneOk(l) && NothingLost(l) && l.used != []
    ensures NothingLost(Reclaimed(l))
  {
    var l' := Reclaimed(l);
    var id := l.used[0].id;
    assert l.done[l.returned + 0] == Completion(l.bufs[id].serial, l.used[0].len);
    forall x | x in l.bufs
      ensures Live(l', l.bufs[x].serial) || Returned(l', l.bufs[x].serial)
    {
      if x == id {
        assert l'.done[l.returned].serial == l.bufs[x].serial;
      } else {
        assert x in l'.bufs && l'.bufs[x].serial == l.bufs[x].serial;
      }
    }
    StillKept(l, l');
  }

  lemma ReclaimedKeeps(l: Log, num: nat)
    requires LogOk(l, num) && l.used != []
    ensures LogOk(Reclaimed(l), num)
  {
    var l' := Reclaimed(l);
    ReclaimOthers(l, num);
    ReclaimedIds(l, num);
    hide IdsOk;
    ReclaimedReturned(l);
    ReclaimedNothingLost(l);
    assert SerialsOk(l');
    assert DoneOk(l') by {
      assert forall j :: 0 <= j < |l'.used| ==> l'.used[j] == l.used[j + 1];
    }
  }

  // ----- teardown -----

  /** Of the buffers bufs, the ones with ids were taken out with their tokens, and left remain. */
  ghost predicate Drained(bufs: map<nat, Buffer>, left: map<nat, Buffer>, taken: seq<nat>, ids: seq<nat>) {
    && |taken| == |ids| && multiset(ids) + multiset(left.Keys) == multiset(bufs.Keys)
    && (forall k :: 0 <= k < |ids| ==> ids[k] in bufs && taken[k] == bufs[ids[k]].token)
    && (forall id :: id in left ==> id in bufs && left[id] == bufs[id])
  }

  lemma DrainedStart(bufs: map<nat, Buffer>)
    ensures Drained(bufs, bufs, [], [])
  {
  }

  lemma DrainedStep(bufs: map<nat, Buffer>, left: map<nat, Buffer>, taken: seq<nat>, ids: seq<nat>, id: nat)
    requires Drained(bufs, left, taken, ids) && id in left
    ensures Drained(bufs, left - {id}, taken + [left[id].token], ids + [id])
    ensures |(left - {id}).Keys| == |left.Keys| - 1
  {
  }

  /** In the end every outstanding token was taken out exactly once. */
  lemma DrainedAll(bufs: map<nat, Buffer>, taken: seq<nat>, ids: seq<nat>)
    requires Drained(bufs, map[], taken, ids)
    ensures |taken| == |ids| && multiset(ids) == multiset(bufs.Keys)
    ensures forall k :: 0 <= k < |ids| ==> ids[k] in bufs && taken[k] == bufs[ids[k]].token
  {
  }
}
