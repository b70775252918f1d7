/**
 The code that keeps the request lists: StartIo, the completion handler and the reset drain, on
 the adapter's arrays, each proved to take the steps of Storage.
 */
module StorageAdapter {
  import Ledger
  import opened Storage
  import opened StorageProofs

  /** The state that a sequence of steps leads to. */
  ghost predicate Leads(s: State, steps: seq<Step>, s': State)
    decreases |steps|
  {
    if steps == [] then s' == s
    else
      var before, last := steps[..|steps| - 1], steps[|steps| - 1];
      exists mid :: Leads(s, before, mid) && Next(mid, last, s')
  }

  lemma LeadsOn(s: State, steps: seq<Step>, mid: State, step: Step, s': State)
    requires Leads(s, steps, mid) && Next(mid, step, s')
    ensures Leads(s, steps + [step], s')
  {
    assert (steps + [step])[..|steps|] == steps;
  }

  /** The number of pending writes that have not been sent again as a flush. */
  function Unflushed(list: seq<Request>): (n: nat) {
    if list == [] then 0
    else Unflushed(list[..|list| - 1]) + if list[|list| - 1].fua then 1 else 0
  }

  lemma UnflushedAppend(list: seq<Request>, r: Request)
    ensures Unflushed(list + [r]) == Unflushed(list) + if r.fua then 1 else 0
  {
  }

  lemma {:induction false} UnflushedWithout(list: seq<Request>, j: nat)
    requires j < |list|
    ensures Unflushed(list) == Unflushed(Without(list, j)) + if list[j].fua then 1 else 0
  {
    var n := |list| - 1;
    if j == n {
      assert Without(list, j) == list[..n];
    } else {
      UnflushedWithout(list[..n], j);
      assert Without(list, j) == Without(list[..n], j) + [list[n]];
      UnflushedAppend(Without(list[..n], j), list[n]);
    }
  }

  /** What bounds the completion handler: every token returned leaves the ring for good or turns a
      pending write into a pending flush. */
  function Work(s: State, q: nat): nat
    requires q < |s.lists| && q < |s.rings|
  {
    |s.rings[q]| + Unflushed(s.lists[q])
  }

  lemma ReturnWorks(s: State, q: nat, i: nat, dev: DeviceStatus, found: Found)
    requires Inv(s) && q < |s.lists| && i < |s.rings[q]|
    ensures Work(Return(s, q, i, dev, found), q) < Work(s, q)
  {
    ReturnIs(s, q, i, dev, found);
    var j := Find(s.lists[q], s.rings[q][i].id);
    if j < |s.lists[q]| {
      UnflushedWithout(s.lists[q], j);
      UnflushedAppend(Without(s.lists[q], j), s.lists[q][j].(fua := false));
    }
  }

  /** A list drained up to its n-th request. */
  function Drained(s: State, q: nat, n: nat): (s': State)
    requires q < |s.lists| == |s.counts| && n <= |s.lists[q]|
  {
    s.(lists := s.lists[q := s.lists[q][n..]], counts := s.counts[q := s.counts[q] - n],
       events := s.events + Resets(s.lists[q][..n]))
  }

  lemma DrainedNext(s: State, q: nat, n: nat)
    requires q < |s.lists| == |s.counts| && n < |s.lists[q]|
    ensures var s1 := Drained(s, q, n);
            var r := s1.lists[q][0];
            Drained(s, q, n + 1) == s1.(lists := s1.lists[q := Without(s1.lists[q], 0)],
                                        counts := s1.counts[q := s1.counts[q] - 1],
                                        events := s1.events + [Completed(r.srb, BusReset)])
  {
    var list := s.lists[q];
    assert Resets(list[..n + 1]) == Resets(list[..n]) + [Completed(list[n].srb, BusReset)];
    assert Without(list[n..], 0) == list[n + 1..];
    assert s.lists[q := list[n + 1..]] == s.lists[q := list[n..]][q := list[n + 1..]];
  }

  lemma DrainedEnds(s: State, q: nat)
    requires q < |s.lists| == |s.counts| && s.counts[q] == |s.lists[q]|
    ensures Drained(s, q, 0) == s && Drained(s, q, |s.lists[q]|) == Reset(s, q)
  {
    var list := s.lists[q];
    assert list[0..] == list && list[|list|..] == [] && list[..|list|] == list;
    assert s.lists[q := list] == s.lists;
  }

  /** What StartIo finds. */
  function StartFinds(atOnce: Ledger.Option<Status>, reset: bool, full: bool, failure: Status): Found {
    if atOnce.Some? then Refused(atOnce.value)
    else if reset then Refused(BusReset)
    else if full then Full(failure)
    else Room
  }

  /** What the completion handler finds when it sends a request again as a flush. */
  function FlushFinds(reset: bool, full: bool): Found {
    if reset then Refused(BusReset) else if full then Full(Error) else Room
  }

  /** The returns in a history from position n on carry what the device said about their tokens. */
  ghost predicate Relayed(events: seq<Event>, n: nat, said: Entry -> DeviceStatus) {
    forall m :: n <= m < |events| && events[m].Returned? ==>
      events[m].dev == said(Entry(IdOf(events[m].srb), events[m].srb, events[m].flush))
  }

  lemma RelayedNone(events: seq<Event>, said: Entry -> DeviceStatus)
    ensures Relayed(events, |events|, said)
  {
  }

  lemma RelayedOn(s: State, q: nat, i: nat, dev: DeviceStatus, found: Found, n: nat, said: Entry -> DeviceStatus)
    requires Inv(s) && q < |s.lists| && i < |s.rings[q]| && dev == said(s.rings[q][i])
    requires n <= |s.events| && Relayed(s.events, n, said)
    ensures s.events <= Return(s, q, i, dev, found).events && Relayed(Return(s, q, i, dev, found).events, n, said)
  {
    var s' := Return(s, q, i, dev, found);
    ReturnEvents(s, q, i, dev, found);
    assert QueueOk(s, q);
    assert EntryOk(s, q, s.rings[q][i]);
    hide Return, Inv, IdOf;
    assert forall m :: 0 <= m < |s.events| ==> s'.events[m] == s.events[m];
  }

  class Adapter {
    const lists: array<seq<Request>>
    const counts: array<int>
    const rings: array<seq<Entry>>
    var lastSrbId: nat
    var resetInProgress: bool
    // what happened so far
    ghost var home: seq<nat>
    ghost var kinds: seq<Kind>
    ghost var events: seq<Event>

    ghost function Now(): (s: State)
      reads this, lists, counts, rings
    {
      State(home, kinds, lists[..], counts[..], rings[..], events)
    }

    ghost predicate Valid()
      reads this, lists, counts, rings
    {
      && lists.Length == counts.Length == rings.Length
      && Inv(Now())
      && lastSrbId == IdOf(|home|)
    }

    constructor (queues: nat)
      ensures Valid() && !resetInProgress
      ensures fresh(lists) && fresh(counts) && fresh(rings)
      ensures lists.Length == queues && Now() == Initial(queues) && lastSrbId == 1
    {
      lists := new seq<Request>[queues](_ => []);
      counts := new int[queues](_ => 0);
      rings := new seq<Entry>[queues](_ => []);
      lastSrbId, resetInProgress := 1, false;
      home, kinds, events := [], [], [];
      new;
      assert lists[..] == Initial(queues).lists;
      assert counts[..] == Initial(queues).counts;
      assert rings[..] == Initial(queues).rings;
    }

    /** A successful virtqueue_add_buf, with InsertTailList and srb_cnt++. */
    method Link(q: nat, r: Request, flush: bool)
      requires q < lists.Length == counts.Length == rings.Length
      modifies `events, lists, counts, rings
      ensures Now() == Enqueue(old(Now()), q, r, flush)
    {
      rings[q] := rings[q] + [Entry(r.id, r.srb, flush)];
      lists[q] := lists[q] + [r];
      counts[q] := counts[q] + 1;
      events := events + [Submitted(r.srb, flush)];
    }

    /** RemoveEntryList and srb_cnt--. */
    method Unlink(q: nat, j: nat)
      requires q < lists.Length == counts.Length == rings.Length && j < |lists[q]|
      modifies lists, counts
      ensures Now() == old(Now()).(lists := old(lists[..])[q := Without(old(lists[q]), j)],
                                   counts := old(counts[..])[q := old(counts[q]) - 1])
    {
      lists[q] := Without(lists[q], j);
      counts[q] := counts[q] - 1;
    }

    /** CompleteRequestWithStatus. */
    method Complete(srb: nat, status: Status)
      modifies `events
      ensures Now() == old(Now()).(events := old(events) + [Completed(srb, status)])
    {
      events := events + [Completed(srb, status)];
    }

    /** The id for the next request: last_srb_id counts up, without 0. */
    method TakeId(ghost k: nat) returns (id: nat)
      requires lastSrbId == IdOf(k)
      modifies `lastSrbId
      ensures id == IdOf(k) && lastSrbId == IdOf(k + 1)
    {
      NextIdIs(k);
      id := lastSrbId;
      lastSrbId := (lastSrbId + 1) % 0x1_0000_0000_0000_0000;
      if lastSrbId == 0 {
        lastSrbId := lastSrbId + 1;
      }
    }

    /** VirtIoStartIo with RhelDoReadWrite or SendSRB, for the srb-th request. atOnce is the status of a
        request that needs no device, full the outcome of virtqueue_add_buf, and failure what the
        request is completed with then. */
    method StartIo(srb: nat, q: nat, kind: Kind, atOnce: Ledger.Option<Status>, full: bool, failure: Status)
      returns (ghost found: Found)
      requires Valid() && srb == |home| && q < lists.Length && |home| < ID_COUNT
      requires failure != Success && (kind.Fua? ==> atOnce != Ledger.Some(Success))
      modifies this, lists, counts, rings
      ensures Valid() && Now() == Start(old(Now()), q, kind, found) && resetInProgress == old(resetInProgress)
      ensures found == StartFinds(atOnce, resetInProgress, full, failure)
      ensures atOnce.Some? ==> events == old(events) + [Completed(srb, atOnce.value)]
      ensures atOnce.None? && resetInProgress ==> events == old(events) + [Completed(srb, BusReset)]
      ensures atOnce.None? && !resetInProgress && full ==> events == old(events) + [Completed(srb, failure)]
      ensures atOnce.None? && !resetInProgress && !full ==> events == old(events) + [Submitted(srb, false)]
    {
      hide IdOf;
      var id := TakeId(srb);
      found := StartFinds(atOnce, resetInProgress, full, failure);
      StartKeeps(Now(), q, kind, found);
      hide Inv;
      home, kinds := home + [q], kinds + [kind];
      if atOnce.Some? {
        Complete(srb, atOnce.value);
      } else if resetInProgress {
        Complete(srb, BusReset);
      } else if full {
        Complete(srb, failure);
      } else {
        Link(q, Request(srb, id, kind.Fua?, kind.Serial?), false);
      }
    }

    /** The loop over srb_list that looks for the request with a returned id. */
    method Search(q: nat, id: nat) returns (found: bool, j: nat)
      requires q < lists.Length
      ensures found == (Find(lists[q], id) < |lists[q]|)
      ensures found ==> j == Find(lists[q], id)
    {
      j := 0;
      found := false;
      while j < |lists[q]| && !found
        invariant 0 <= j <= |lists[q]|
        invariant found ==> j < |lists[q]| && lists[q][j].id == id
        invariant forall i :: 0 <= i < j ==> lists[q][i].id != id
        decreases |lists[q]| - j, !found
      {
        if lists[q][j].id == id {
          found := true;
        } else {
          j := j + 1;
        }
      }
    }

    /** What the completion handler does with token i of the ring: full is the outcome of the
        virtqueue_add_buf in RhelDoFlush. */
    method CompleteOne(q: nat, i: nat, dev: DeviceStatus, full: bool) returns (ghost found: Found)
      requires Valid() && q < lists.Length && i < |rings[q]|
      modifies `events, lists, counts, rings
      ensures Valid() && Now() == Return(old(Now()), q, i, dev, found)
      ensures found == FlushFinds(resetInProgress, full)
    {
      found := FlushFinds(resetInProgress, full);
      ReturnKeeps(Now(), q, i, dev, found);
      hide Inv, IdOf, Without, Find, Taken, Finished;
      var e := GetBuf(q, i, dev);
      var known, j := Search(q, e.id);
      if known {
        Finish(q, j, dev, full, found);
      }
    }

    /** The request found is unlinked and completed, or sent again as a flush. */
    method Finish(q: nat, j: nat, dev: DeviceStatus, full: bool, ghost found: Found)
      requires q < lists.Length == counts.Length == rings.Length && j < |lists[q]|
      requires found == FlushFinds(resetInProgress, full)
      modifies `events, lists, counts, rings
      ensures Now() == Finished(old(Now()), q, j, dev, found)
    {
      hide Without, Enqueue, ToSrbStatus;
      var r := lists[q][j];
      Unlink(q, j);
      // the two marks exclude each other
      if r.fua {
        Flush(q, r, full);
      } else if r.serial {
        Complete(r.srb, Success);
      } else {
        Complete(r.srb, ToSrbStatus(dev));
      }
    }

    /** virtqueue_get_buf returns token i. */
    method GetBuf(q: nat, i: nat, dev: DeviceStatus) returns (e: Entry)
      requires q < lists.Length == counts.Length == rings.Length && i < |rings[q]|
      modifies `events, rings
      ensures e == old(rings[q][i]) && lists[q] == old(lists[q])
      ensures Now() == Taken(old(Now()), q, i, dev)
    {
      e := rings[q][i];
      rings[q] := Without(rings[q], i);
      events := events + [Returned(e.owner, e.flush, dev)];
    }

    /** RhelDoFlush with resend, and the completion of the request if that fails. */
    method Flush(q: nat, r: Request, full: bool)
      requires q < lists.Length == counts.Length == rings.Length
      modifies `events, lists, counts, rings
      ensures Now() == if resetInProgress then old(Now()).(events := old(events) + [Completed(r.srb, BusReset)])
                       else if full then old(Now()).(events := old(events) + [Completed(r.srb, Error)])
                       else Enqueue(old(Now()), q, r.(fua := false), true)
    {
      if resetInProgress {
        Complete(r.srb, BusReset);
      } else if full {
        Complete(r.srb, Error);
      } else {
        Link(q, r.(fua := false), true);
      }
    }

    /** Some token comes back. */
    method CompleteNext(q: nat, full: bool, said: Entry -> DeviceStatus, ghost n: nat) returns (ghost step: Step)
      requires Valid() && q < lists.Length && rings[q] != [] && n <= |events| && Relayed(events, n, said)
      modifies `events, lists, counts, rings
      ensures Valid() && Next(old(Now()), step, Now()) && Work(Now(), q) < Work(old(Now()), q)
      ensures step.DoReturn? && step.q == q && step.found == FlushFinds(resetInProgress, full)
      ensures old(events) <= events && Relayed(events, n, said)
    {
      hide Inv, Next, Work, Return, IdOf, Relayed;
      var i: nat :| i < |rings[q]|;
      var dev := said(rings[q][i]);
      ghost var s := Now();
      ghost var found := CompleteOne(q, i, dev, full);
      step := DoReturn(q, i, dev, found);
      Returned1(s, q, i, dev, found);
      RelayedOn(s, q, i, dev, found, n, said);
    }

    /** VioStorCompleteRequest and ProcessBuffer: tokens come back in any order, as many as the device
        finishes until get_buf has none and enable_cb stays armed, each with what the device said about it.
        The n-th one finds the ring full or not, should it have to be sent again. */
    method CompleteRequests(q: nat, count: nat, said: Entry -> DeviceStatus, full: nat -> bool) returns (ghost steps: seq<Step>)
      requires Valid() && q < lists.Length
      modifies `events, lists, counts, rings
      ensures Valid() && Leads(old(Now()), steps, Now())
      ensures (|steps| == count || (|steps| < count && rings[q] == [])) && |steps| <= Work(old(Now()), q)
      ensures forall n :: 0 <= n < |steps| ==>
                steps[n].DoReturn? && steps[n].q == q && steps[n].found == FlushFinds(resetInProgress, full(n))
      ensures old(events) <= events && Relayed(events, |old(events)|, said)
    {
      steps := [];
      ghost var start := Now();
      hide Inv, Next, Work, Return, IdOf, Relayed;
      RelayedNone(events, said);
      assert Leads(start, steps, Now());
      hide Leads;
      var k := 0;
      while k < count && rings[q] != []
        invariant Valid() && Leads(start, steps, Now()) && |steps| == k <= count
        invariant forall n :: 0 <= n < |steps| ==>
                    steps[n].DoReturn? && steps[n].q == q && steps[n].found == FlushFinds(resetInProgress, full(n))
        invariant start.events <= events && Relayed(events, |start.events|, said)
        invariant k + Work(Now(), q) <= Work(start, q)
        decreases Work(Now(), q)
      {
        ghost var before := Now();
        ghost var step := CompleteNext(q, full(k), said, |start.events|);
        LeadsOn(start, steps, before, step, Now());
        steps := steps + [step];
        k := k + 1;
      }
    }

    /** The drain of one list, in CompletePendingRequests and CompletePendingRequestsOnReset, while StartIo
        refuses new requests. */
    method DrainQueue(q: nat)
      requires Valid() && q < lists.Length && resetInProgress
      modifies `events, lists, counts
      ensures Valid() && Now() == Reset(old(Now()), q) && lists[q] == [] && counts[q] == 0
      ensures |events| == |old(events)| + |old(lists[q])| && old(events) <= events
      ensures forall k :: 0 <= k < |old(lists[q])| ==>
                events[|old(events)| + k] == Completed(old(lists[q])[k].srb, BusReset)
    {
      ghost var start := Now();
      ResetKeeps(start, q);
      DrainedEnds(start, q) by { assert QueueOk(start, q); }
      assert Reset(start, q).lists[q] == [] && Reset(start, q).counts[q] == 0;
      assert Reset(start, q).events == start.events + Resets(start.lists[q]);
      hide Inv, IdOf, Drained, Reset;
      ghost var n: nat := 0;
      while lists[q] != []
        invariant n + |lists[q]| == |start.lists[q]| && Now() == Drained(start, q, n)
        decreases |lists[q]|
      {
        DrainHead(q, start, n);
        n := n + 1;
      }
      // srb_cnt is 0 by now, so the assignment that makes sure of it does nothing
    }

    method DrainHead(q: nat, ghost start: State, ghost n: nat)
      requires q < lists.Length == counts.Length == rings.Length && lists[q] != []
      requires q < |start.lists| == |start.counts| && n < |start.lists[q]| && Now() == Drained(start, q, n)
      modifies `events, lists, counts
      ensures Now() == Drained(start, q, n + 1) && |lists[q]| == old(|lists[q]|) - 1
    {
      var r := lists[q][0];
      DrainedNext(start, q, n);
      hide Drained;
      Unlink(q, 0);
      Complete(r.srb, BusReset);
    }

    /** CompletePendingRequests: nothing if a reset is already under way. */
    method CompletePendingRequests()
      requires Valid()
      modifies this, lists, counts
      ensures Valid() && !resetInProgress
      ensures Now() == if old(resetInProgress) then old(Now()) else ResetAll(old(Now()), lists.Length)
      ensures !old(resetInProgress) ==> forall q :: 0 <= q < lists.Length ==> lists[q] == []
      ensures old(events) <= events
      ensures forall m :: |old(events)| <= m < |events| ==> events[m].Completed? && events[m].status == BusReset
    {
      if !resetInProgress {
        resetInProgress := true;
        ghost var start := Now();
        ResetAllKeeps(start, |start.lists|);
        hide Inv, IdOf;
        for q := 0 to lists.Length
          invariant Valid() && Now() == ResetAll(start, q) && start == old(Now()) && resetInProgress
        {
          DrainQueue(q);
        }
        assert lists[..] == ResetAll(start, |start.lists|).lists;
      }
      resetInProgress := false;
    }
  }

  lemma Returned1(s: State, q: nat, i: nat, dev: DeviceStatus, found: Found)
    requires Inv(s) && q < |s.lists| && i < |s.rings[q]| && FoundOk(found, Fua)
    ensures Next(s, DoReturn(q, i, dev, found), Return(s, q, i, dev, found))
    ensures Work(Return(s, q, i, dev, found), q) < Work(s, q)
  {
    ReturnWorks(s, q, i, dev, found);
  }
}
