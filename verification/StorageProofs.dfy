/**
 Every step of the request life cycle keeps the invariant; hence every request is completed
 exactly once in every run, and no Force Unit Access write succeeds before its flush.
 */
module StorageProofs {
  import opened Storage

  /** The statuses that submission itself completes a request with: StartIo may report success at
      once, but not for a write with Force Unit Access, and a full ring is never a success. */
  predicate FoundOk(found: Found, kind: Kind) {
    match found
    case Refused(status) => kind.Fua? ==> status != Success
    case Full(failure) => failure != Success
    case Room => true
  }

  // ----- StartIo -----

  lemma StartQueues(s: State, q: nat, kind: Kind, found: Found)
    requires Shape(s) && QueuesOk(s) && q < |s.lists|
    ensures Shape(Start(s, q, kind, found)) && QueuesOk(Start(s, q, kind, found))
  {
    var s' := Start(s, q, kind, found);
    var k := |s.home|;
    var s1 := s.(home := s.home + [q], kinds := s.kinds + [kind]);
    forall x | 0 <= x < |s.lists|
      ensures QueueOk(s', x)
    {
      assert QueueOk(s, x);
      QueueFrame(s, s1, x);
      if found.Room? && x == q {
        FreshRequest(s, q);
        EnqueueQueue(s1, q, Request(k, IdOf(k), kind.Fua?, kind.Serial?), false);
      } else {
        QueueFrame(s, s', x);
      }
    }
  }

  /** A new request is in no list and no ring. */
  lemma FreshRequest(s: State, q: nat)
    requires q < |s.lists| == |s.counts| == |s.rings| && QueueOk(s, q)
    ensures forall i :: 0 <= i < |s.lists[q]| ==> s.lists[q][i].srb != |s.home|
    ensures forall i :: 0 <= i < |s.rings[q]| ==> s.rings[q][i].owner != |s.home|
  {
  }

  lemma StartOnce(s: State, q: nat, kind: Kind, found: Found)
    requires Inv(s) && q < |s.lists|
    ensures Shape(Start(s, q, kind, found)) && OnceOk(Start(s, q, kind, found))
  {
    var s' := Start(s, q, kind, found);
    var n := |s.home|;
    var e := s'.events[|s.events|];
    forall k | 0 <= k < |s'.home|
      ensures Completions(s'.events, k) == if PendingIn(s'.lists[s'.home[k]], k) then 0 else 1
    {
      CompletionsAppend(s.events, e, k);
      assert QueueOk(s, if k < n then s.home[k] else q);
      if k < n {
        assert s'.home[k] == s.home[k];
        PendingAppend(s.lists[s.home[k]], Request(n, IdOf(n), kind.Fua?, kind.Serial?), k);
      } else {
        NoCompletions(s.events, k);
        FreshRequest(s, q);
        PendingAppend(s.lists[q], Request(n, IdOf(n), kind.Fua?, kind.Serial?), k);
      }
    }
  }

  lemma PendingAppend(list: seq<Request>, r: Request, k: nat)
    ensures PendingIn(list + [r], k) <==> PendingIn(list, k) || r.srb == k
  {
    if PendingIn(list, k) {
      var i :| 0 <= i < |list| && list[i].srb == k;
      assert (list + [r])[i].srb == k;
    }
    if r.srb == k {
      assert (list + [r])[|list|].srb == k;
    }
  }

  lemma StartFua(s: State, q: nat, kind: Kind, found: Found)
    requires Inv(s) && q < |s.lists| && FoundOk(found, kind)
    ensures Shape(Start(s, q, kind, found)) && FuaOk(Start(s, q, kind, found))
  {
    var s' := Start(s, q, kind, found);
    var e := s'.events[|s.events|];
    assert s'.events == s.events + [e];
    SuccessGrows(s, s', [e]);
    forall x, j | 0 <= x < |s'.lists| && 0 <= j < |s'.lists[x]|
      ensures PhaseOk(s', s'.lists[x][j])
    {
      if j < |s.lists[x]| {
        assert PhaseOk(s, s.lists[x][j]);
        PhaseGrows(s, s', [e], s.lists[x][j]);
      }
    }
  }

  lemma StartAnswered(s: State, q: nat, kind: Kind, found: Found)
    requires Inv(s) && q < |s.lists|
    ensures AnsweredOk(Start(s, q, kind, found))
  {
    hide AnsweredOk, OnceOk, FuaOk, QueuesOk;
    var s' := Start(s, q, kind, found);
    var e := s'.events[|s.events|];
    assert s'.events == s.events + [e] && !e.Returned?;
    AnsweredGrows(s, s', [e]);
    NotReturned(s', |s.events|);
  }

  /** Only a return asks for an answer. */
  lemma NotReturned(s: State, n: nat)
    requires n <= |s.events| && forall i :: 0 <= i < n ==> AnsweredAt(s, i)
    requires forall i :: n <= i < |s.events| ==> !s.events[i].Returned?
    ensures AnsweredOk(s)
  {
  }

  lemma StartKeeps(s: State, q: nat, kind: Kind, found: Found)
    requires Inv(s) && q < |s.lists| && |s.home| < ID_COUNT && FoundOk(found, kind)
    ensures Inv(Start(s, q, kind, found))
  {
    StartQueues(s, q, kind, found);
    StartOnce(s, q, kind, found);
    StartFua(s, q, kind, found);
    StartAnswered(s, q, kind, found);
  }

  // ----- get_buf returns a token -----

  /** The request found for a returned token is the one the token was added for, in the phase it was
      added in; and if none is found, no pending request waits for that token. */
  lemma FoundIsOwner(s: State, q: nat, i: nat)
    requires Shape(s) && |s.home| <= ID_COUNT && q < |s.lists| && QueueOk(s, q) && i < |s.rings[q]|
    ensures var e, list := s.rings[q][i], s.lists[q];
            var j := Find(list, e.id);
            && (j < |list| ==> list[j].srb == e.owner && e.flush == (s.kinds[e.owner].Fua? && !list[j].fua))
            && (forall x :: 0 <= x < |list| && x != j ==> list[x].srb != e.owner)
  {
    var e, list := s.rings[q][i], s.lists[q];
    var j := Find(list, e.id);
    assert EntryOk(s, q, e);
    if j < |list| {
      var r := list[j];
      assert RequestOk(s, q, r) && HasToken(s, s.rings[q], r);
      IdsDistinct(r.srb, e.owner);
      var x :| 0 <= x < |s.rings[q]| && s.rings[q][x] == Entry(r.id, r.srb, s.kinds[r.srb].Fua? && !r.fua);
      assert x == i;
    }
    forall x | 0 <= x < |list| && x != j
      ensures list[x].srb != e.owner
    {
      assert RequestOk(s, q, list[x]);
      if j == |list| {
        assert list[x].id != e.id;
      }
    }
  }

  /** The state after the token left the ring and the request, if any, its list. */
  function Unlinked(s: State, q: nat, i: nat, dev: DeviceStatus): (s': State)
    requires q < |s.lists| == |s.counts| == |s.rings| && i < |s.rings[q]|
  {
    var e := s.rings[q][i];
    var j := Find(s.lists[q], e.id);
    var s1 := s.(rings := s.rings[q := Without(s.rings[q], i)],
                 events := s.events + [Returned(e.owner, e.flush, dev)]);
    if j == |s.lists[q]| then s1
    else s1.(lists := s.lists[q := Without(s.lists[q], j)], counts := s.counts[q := s.counts[q] - 1])
  }

  lemma UnlinkedList(s: State, q: nat, i: nat, dev: DeviceStatus, x: nat)
    requires Shape(s) && |s.home| <= ID_COUNT && q < |s.lists| && QueueOk(s, q) && i < |s.rings[q]|
    requires x < |Unlinked(s, q, i, dev).lists[q]|
    ensures var s' := Unlinked(s, q, i, dev);
            var r := s'.lists[q][x];
            RequestOk(s', q, r) && HasToken(s', s'.rings[q], r) && r.srb != s.rings[q][i].owner
  {
    var s' := Unlinked(s, q, i, dev);
    var list, ring := s.lists[q], s.rings[q];
    var j := Find(list, ring[i].id);
    FoundIsOwner(s, q, i);
    WithoutHas(ring, i);
    var y := if j < |list| && x >= j then x + 1 else x;
    assert s'.lists[q][x] == list[y];
    assert RequestOk(s, q, list[y]) && HasToken(s, ring, list[y]);
    TokenKept(s, ring, s'.rings[q], list[y]);
    TokenFrame(s, s', s'.rings[q], list[y]);
  }

  lemma UnlinkedQueue(s: State, q: nat, i: nat, dev: DeviceStatus)
    requires Shape(s) && |s.home| <= ID_COUNT && q < |s.lists| && QueueOk(s, q) && i < |s.rings[q]|
    ensures QueueOk(Unlinked(s, q, i, dev), q)
    ensures var s', owner := Unlinked(s, q, i, dev), s.rings[q][i].owner;
            && (forall x :: 0 <= x < |s'.lists[q]| ==> s'.lists[q][x].srb != owner)
            && (forall x :: 0 <= x < |s'.rings[q]| ==> s'.rings[q][x].owner != owner)
  {
    var s' := Unlinked(s, q, i, dev);
    var list, ring := s.lists[q], s.rings[q];
    var j := Find(list, ring[i].id);
    WithoutHas(ring, i);
    if j < |list| {
      WithoutHas(list, j);
    }
    forall x | 0 <= x < |s'.lists[q]|
      ensures RequestOk(s', q, s'.lists[q][x]) && HasToken(s', s'.rings[q], s'.lists[q][x])
      ensures s'.lists[q][x].srb != ring[i].owner
    {
      UnlinkedList(s, q, i, dev, x);
    }
    hide RequestOk, HasToken, Find;
    forall x | 0 <= x < |s'.rings[q]|
      ensures EntryOk(s', q, s'.rings[q][x]) && s'.rings[q][x].owner != ring[i].owner
    {
      assert EntryOk(s, q, ring[if x < i then x else x + 1]);
    }
  }

  /** What happens to the request that was found. */
  lemma ReturnIs(s: State, q: nat, i: nat, dev: DeviceStatus, found: Found)
    requires q < |s.lists| == |s.counts| == |s.rings| && i < |s.rings[q]|
    ensures var s1 := Unlinked(s, q, i, dev);
            var j := Find(s.lists[q], s.rings[q][i].id);
            Return(s, q, i, dev, found) ==
            if j == |s.lists[q]| then s1
            else if s.lists[q][j].fua && found.Room? then Enqueue(s1, q, s.lists[q][j].(fua := false), true)
            else s1.(events := s1.events + [Completed(s.lists[q][j].srb, FinalStatus(s.lists[q][j], dev, found))])
  {
  }

  /** The status of a request that is completed when its token returns: a Force Unit Access write
      gets here only if its flush could not be queued. */
  function FinalStatus(r: Request, dev: DeviceStatus, found: Found): Status {
    if r.fua then (if found.Refused? then found.status else Error)
    else if r.serial then Success
    else ToSrbStatus(dev)
  }

  lemma ReturnQueues(s: State, q: nat, i: nat, dev: DeviceStatus, found: Found)
    requires Inv(s) && q < |s.lists| && i < |s.rings[q]|
    ensures Shape(Return(s, q, i, dev, found)) && QueuesOk(Return(s, q, i, dev, found))
  {
    var s' := Return(s, q, i, dev, found);
    var s1 := Unlinked(s, q, i, dev);
    var j := Find(s.lists[q], s.rings[q][i].id);
    ReturnIs(s, q, i, dev, found);
    hide Return, Taken, Finished;
    assert QueueOk(s, q);
    UnlinkedQueue(s, q, i, dev);
    FoundIsOwner(s, q, i);
    forall x | 0 <= x < |s.lists|
      ensures QueueOk(s', x)
    {
      assert QueueOk(s, x);
      if x != q {
        QueueFrame(s, s', x);
      } else if j < |s.lists[q]| && s.lists[q][j].fua && found.Room? {
        assert RequestOk(s, q, s.lists[q][j]);
        EnqueueQueue(s1, q, s.lists[q][j].(fua := false), true);
      } else {
        QueueFrame(s1, s', q);
      }
    }
  }

  lemma PendingWithout(list: seq<Request>, j: nat, k: nat)
    requires j < |list| && forall x, y :: 0 <= x < y < |list| ==> list[x].srb != list[y].srb
    ensures PendingIn(Without(list, j), k) <==> PendingIn(list, k) && k != list[j].srb
  {
    WithoutHas(list, j);
    if PendingIn(list, k) && k != list[j].srb {
      var x :| 0 <= x < |list| && list[x].srb == k;
      var y :| 0 <= y < |Without(list, j)| && Without(list, j)[y] == list[x];
    }
  }

  lemma ReturnOnceFor(s: State, q: nat, i: nat, dev: DeviceStatus, found: Found, k: nat)
    requires Inv(s) && q < |s.lists| && i < |s.rings[q]| && k < |s.home|
    ensures var s' := Return(s, q, i, dev, found);
            Completions(s'.events, k) == if PendingIn(s'.lists[s.home[k]], k) then 0 else 1
  {
    var s' := Return(s, q, i, dev, found);
    var s1 := Unlinked(s, q, i, dev);
    var j := Find(s.lists[q], s.rings[q][i].id);
    ReturnIs(s, q, i, dev, found);
    hide Return, FinalStatus, FuaOk, HasToken, Find;
    assert QueueOk(s, q);
    CompletionsAppend(s.events, s1.events[|s.events|], k);
    if j < |s.lists[q]| {
      var r := s.lists[q][j];
      assert RequestOk(s, q, r);
      assert r.srb == k ==> PendingIn(s.lists[q], k);
      PendingWithout(s.lists[q], j, k);
      PendingAppend(Without(s.lists[q], j), r.(fua := false), k);
      CompletionsAppend(s1.events, s'.events[|s1.events|], k);
    }
  }

  lemma ReturnOnce(s: State, q: nat, i: nat, dev: DeviceStatus, found: Found)
    requires Inv(s) && q < |s.lists| && i < |s.rings[q]|
    ensures Shape(Return(s, q, i, dev, found)) && OnceOk(Return(s, q, i, dev, found))
  {
    var s' := Return(s, q, i, dev, found);
    hide Completions, PendingIn, FuaOk, QueueOk, Return;
    ReturnShape(s, q, i, dev, found);
    forall k | 0 <= k < |s'.home|
      ensures Completions(s'.events, k) == if PendingIn(s'.lists[s'.home[k]], k) then 0 else 1
    {
      ReturnOnceFor(s, q, i, dev, found, k);
    }
  }

  lemma NothingReported(s: State, n: nat)
    requires n < |s.events| && !s.events[n].Completed?
    ensures SuccessOk(s, n)
  {
  }

  lemma ReturnShape(s: State, q: nat, i: nat, dev: DeviceStatus, found: Found)
    requires Shape(s) && q < |s.lists| && i < |s.rings[q]|
    ensures var s' := Return(s, q, i, dev, found);
            Shape(s') && s'.kinds == s.kinds && s'.home == s.home && |s'.lists| == |s.lists|
  {
  }

  lemma ReturnFua(s: State, q: nat, i: nat, dev: DeviceStatus, found: Found)
    requires Inv(s) && q < |s.lists| && i < |s.rings[q]| && FoundOk(found, Fua)
    ensures Shape(Return(s, q, i, dev, found)) && FuaOk(Return(s, q, i, dev, found))
  {
    var s', n := Return(s, q, i, dev, found), |s.events|;
    hide Return, SuccessOk, PhaseOk, QueueOk, OnceOk;
    ReturnShape(s, q, i, dev, found);
    ReturnEvents(s, q, i, dev, found);
    SuccessGrows(s, s', s'.events[n..]);
    NothingReported(s', n);
    forall x, y | 0 <= x < |s'.lists| && 0 <= y < |s'.lists[x]|
      ensures PhaseOk(s', s'.lists[x][y])
    {
      ReturnPhase(s, q, i, dev, found, x, y);
    }
    if |s'.events| == n + 2 {
      ReturnSuccess(s, q, i, dev, found);
    }
  }

  lemma ReturnEvents(s: State, q: nat, i: nat, dev: DeviceStatus, found: Found)
    requires q < |s.lists| == |s.counts| == |s.rings| && i < |s.rings[q]|
    ensures var s', n := Return(s, q, i, dev, found), |s.events|;
            && s'.events == s.events + s'.events[n..] && n + 1 <= |s'.events| <= n + 2
            && s'.events[n] == Returned(s.rings[q][i].owner, s.rings[q][i].flush, dev)
            && (|s'.events| == n + 2 ==> !s'.events[n + 1].Returned?)
  {
  }

  /** A Force Unit Access write is reported successful only by the return of its flush, any other
      request by its own. */
  lemma ReturnSuccess(s: State, q: nat, i: nat, dev: DeviceStatus, found: Found)
    requires Inv(s) && q < |s.lists| && i < |s.rings[q]| && FoundOk(found, Fua)
    requires |Return(s, q, i, dev, found).events| == |s.events| + 2
    ensures SuccessOk(Return(s, q, i, dev, found), |s.events| + 1)
  {
    var s', n := Return(s, q, i, dev, found), |s.events|;
    var j := Find(s.lists[q], s.rings[q][i].id);
    ReturnIs(s, q, i, dev, found);
    hide Return, Taken, Finished;
    assert QueueOk(s, q);
    FoundIsOwner(s, q, i);
    var e := s'.events[n + 1];
    if e.Completed? && e.status == Success {
      var r := s.lists[q][j];
      assert RequestOk(s, q, r) && e.srb == r.srb;
      if s.kinds[e.srb].Fua? {
        assert PhaseOk(s, r);
        assert s'.events[n] == Returned(e.srb, true, Ok);
        assert s'.events == s.events + s'.events[n..];
        FlushQueuedGrows(s.events, s'.events[n..], e.srb, n, n);
      } else if s.kinds[e.srb].Plain? {
        assert s'.events[n] == Returned(e.srb, false, Ok);
      }
    }
  }

  /** Requests that stay in their lists. */
  lemma PhaseKept(s: State, s': State, r: Request)
    requires s'.kinds == s.kinds && |s.events| <= |s'.events| && s'.events == s.events + s'.events[|s.events|..]
    requires PhaseOk(s, r)
    ensures PhaseOk(s', r)
  {
  }

  /** A write that was sent again waits for its flush. */
  lemma ResentPhase(s: State, q: nat, i: nat, dev: DeviceStatus)
    requires Inv(s) && q < |s.lists| && i < |s.rings[q]|
    requires Find(s.lists[q], s.rings[q][i].id) < |s.lists[q]| && s.lists[q][Find(s.lists[q], s.rings[q][i].id)].fua
    ensures var s' := Return(s, q, i, dev, Room);
            |s'.lists[q]| == |s.lists[q]| && PhaseOk(s', s'.lists[q][|s.lists[q]| - 1])
  {
    var s', n := Return(s, q, i, dev, Room), |s.events|;
    ReturnIs(s, q, i, dev, Room);
    assert QueueOk(s, q);
    FoundIsOwner(s, q, i);
    var r := s'.lists[q][|s.lists[q]| - 1];
    assert s'.events[n].Returned? && s'.events[n].srb == r.srb && !s'.events[n].flush;
    assert s'.events[n + 1] == Submitted(r.srb, true);
  }

  lemma ReturnPhase(s: State, q: nat, i: nat, dev: DeviceStatus, found: Found, x: nat, y: nat)
    requires Inv(s) && q < |s.lists| && i < |s.rings[q]|
    requires x < |s.lists| && y < |Return(s, q, i, dev, found).lists[x]|
    ensures PhaseOk(Return(s, q, i, dev, found), Return(s, q, i, dev, found).lists[x][y])
  {
    hide PhaseOk, QueueOk, OnceOk, SuccessOk, FinalStatus;
    var s' := Return(s, q, i, dev, found);
    var list := s.lists[q];
    var j := Find(list, s.rings[q][i].id);
    ReturnIs(s, q, i, dev, found);
    ReturnEvents(s, q, i, dev, found);
    if x != q || j == |list| {
      PhaseKept(s, s', s.lists[x][y]);
    } else if y < |list| - 1 {
      PhaseKept(s, s', list[if y < j then y else y + 1]);
    } else {
      ResentPhase(s, q, i, dev);
    }
  }

  /** What follows a return: the token's owner is pending, or was completed before. */
  lemma ReturnAnswer(s: State, q: nat, i: nat, dev: DeviceStatus, found: Found)
    requires Inv(s) && q < |s.lists| && i < |s.rings[q]| && FoundOk(found, Fua)
    requires Completions(s.events, s.rings[q][i].owner) == 0
    ensures var s', e, n := Return(s, q, i, dev, found), s.rings[q][i], |s.events|;
            && e.owner < |s.kinds| && |s'.events| == n + 2
            && Answers(s.kinds[e.owner], e.flush, dev, e.owner, s'.events[n + 1])
  {
    var e, list := s.rings[q][i], s.lists[q];
    assert QueueOk(s, q);
    assert EntryOk(s, q, e);
    FoundIsOwner(s, q, i);
    ReturnIs(s, q, i, dev, found);
    hide Return, Taken, Finished, FuaOk, AnsweredOk, HasToken;
    assert PendingIn(list, e.owner);
    assert RequestOk(s, q, list[Find(list, e.id)]);
  }

  lemma ReturnAnswered(s: State, q: nat, i: nat, dev: DeviceStatus, found: Found)
    requires Inv(s) && q < |s.lists| && i < |s.rings[q]| && FoundOk(found, Fua)
    ensures AnsweredOk(Return(s, q, i, dev, found))
  {
    var s' := Return(s, q, i, dev, found);
    hide Return, Completions, AnsweredOk, OnceOk, FuaOk, QueuesOk, Answers;
    ReturnShape(s, q, i, dev, found);
    ReturnEvents(s, q, i, dev, found);
    if Completions(s.events, s.rings[q][i].owner) == 0 {
      ReturnAnswer(s, q, i, dev, found);
    }
    AnsweredOn(s, s');
  }

  /** A return and what follows it. */
  lemma AnsweredOn(s: State, s': State)
    requires s'.kinds == s.kinds && AnsweredOk(s) && forall i :: 0 <= i < |s.events| ==> s.events[i].srb < |s.kinds|
    requires |s.events| < |s'.events| <= |s.events| + 2 && s'.events == s.events + s'.events[|s.events|..]
    requires |s'.events| == |s.events| + 2 ==> !s'.events[|s.events| + 1].Returned?
    requires var e := s'.events[|s.events|];
             e.Returned? && e.srb < |s.kinds| && Completions(s.events, e.srb) == 0
             ==> |s'.events| == |s.events| + 2
                 && Answers(s.kinds[e.srb], e.flush, e.dev, e.srb, s'.events[|s.events| + 1])
    ensures AnsweredOk(s')
  {
    hide AnsweredOk, Answers, Completions;
    var n := |s.events|;
    AnsweredGrows(s, s', s'.events[n..]);
    assert s'.events[..n] == s.events;
    assert AnsweredAt(s', n);
    NotReturned(s', n + 1);
  }

  lemma ReturnKeeps(s: State, q: nat, i: nat, dev: DeviceStatus, found: Found)
    requires Inv(s) && q < |s.lists| && i < |s.rings[q]| && FoundOk(found, Fua)
    ensures Inv(Return(s, q, i, dev, found))
  {
    ReturnQueues(s, q, i, dev, found);
    ReturnOnce(s, q, i, dev, found);
    ReturnFua(s, q, i, dev, found);
    ReturnAnswered(s, q, i, dev, found);
    assert QueueOk(s, q);
    assert EntryOk(s, q, s.rings[q][i]);
    var j := Find(s.lists[q], s.rings[q][i].id);
    if j < |s.lists[q]| {
      assert RequestOk(s, q, s.lists[q][j]);
    }
  }

  // ----- reset -----

  lemma {:induction false} ResetsCount(events: seq<Event>, list: seq<Request>, k: nat)
    requires forall x, y :: 0 <= x < y < |list| ==> list[x].srb != list[y].srb
    ensures Completions(events + Resets(list), k) == Completions(events, k) + if PendingIn(list, k) then 1 else 0
  {
    if list == [] {
      assert events + Resets(list) == events;
    } else {
      var n := |list| - 1;
      ResetsCount(events, list[..n], k);
      assert Resets(list) == Resets(list[..n]) + [Completed(list[n].srb, BusReset)];
      assert events + Resets(list) == (events + Resets(list[..n])) + [Completed(list[n].srb, BusReset)];
      CompletionsAppend(events + Resets(list[..n]), Completed(list[n].srb, BusReset), k);
      assert list == list[..n] + [list[n]];
      PendingAppend(list[..n], list[n], k);
    }
  }

  lemma ResetOnce(s: State, q: nat)
    requires Inv(s) && q < |s.lists|
    ensures Shape(Reset(s, q)) && OnceOk(Reset(s, q))
  {
    var s' := Reset(s, q);
    assert QueueOk(s, q);
    forall k | 0 <= k < |s'.home|
      ensures Completions(s'.events, k) == if PendingIn(s'.lists[s'.home[k]], k) then 0 else 1
    {
      ResetsCount(s.events, s.lists[q], k);
      if PendingIn(s.lists[q], k) {
        var i :| 0 <= i < |s.lists[q]| && s.lists[q][i].srb == k;
        assert RequestOk(s, q, s.lists[q][i]);
      }
    }
  }

  lemma ResetKeeps(s: State, q: nat)
    requires Inv(s) && q < |s.lists|
    ensures Inv(Reset(s, q))
  {
    var s' := Reset(s, q);
    ResetOnce(s, q);
    assert QueueOk(s, q);
    forall x | 0 <= x < |s.lists|
      ensures QueueOk(s', x)
    {
      assert QueueOk(s, x);
      if x != q {
        QueueFrame(s, s', x);
      } else {
        ResetQueue(s, q);
      }
    }
    ResetEvents(s, q);
    SuccessGrows(s, s', Resets(s.lists[q]));
    AnsweredGrows(s, s', Resets(s.lists[q]));
    NotReturned(s', |s.events|);
    forall x, y | 0 <= x < |s'.lists| && 0 <= y < |s'.lists[x]|
      ensures PhaseOk(s', s'.lists[x][y])
    {
      assert PhaseOk(s, s.lists[x][y]);
      PhaseGrows(s, s', Resets(s.lists[q]), s.lists[x][y]);
    }
  }

  lemma ResetQueue(s: State, q: nat)
    requires q < |s.lists| == |s.counts| == |s.rings| && QueueOk(s, q)
    ensures QueueOk(Reset(s, q), q)
  {
  }

  lemma ResetEvents(s: State, q: nat)
    requires q < |s.lists| == |s.counts| == |s.rings| && QueueOk(s, q) && EventsKnown(s)
    ensures EventsKnown(Reset(s, q))
    ensures forall i :: |s.events| <= i < |Reset(s, q).events| ==>
              Reset(s, q).events[i].Completed? && Reset(s, q).events[i].status == BusReset
  {
  }

  // ----- runs -----

  datatype Step =
    | DoStart(q: nat, kind: Kind, found: Found)
    | DoReturn(q: nat, i: nat, dev: DeviceStatus, found: Found)
    | DoReset(q: nat)

  ghost predicate Next(s: State, step: Step, s': State) {
    && |s.lists| == |s.counts| == |s.rings| && step.q < |s.lists|
    && match step
       case DoStart(q, kind, found) => |s.home| < ID_COUNT && FoundOk(found, kind) && s' == Start(s, q, kind, found)
       case DoReturn(q, i, dev, found) => i < |s.rings[q]| && FoundOk(found, Fua) && s' == Return(s, q, i, dev, found)
       case DoReset(q) => s' == Reset(s, q)
  }

  function Initial(queues: nat): (s: State) {
    State([], [], seq(queues, _ => []), seq(queues, _ => 0), seq(queues, _ => []), [])
  }

  lemma NextKeeps(s: State, step: Step, s': State)
    requires Inv(s) && Next(s, step, s')
    ensures Inv(s')
  {
    hide Inv;
    match step
    case DoStart(q, kind, found) => StartKeeps(s, q, kind, found);
    case DoReturn(q, i, dev, found) => ReturnKeeps(s, q, i, dev, found);
    case DoReset(q) => ResetKeeps(s, q);
  }

  ghost predicate IsRun(queues: nat, states: seq<State>, steps: seq<Step>) {
    && |states| == |steps| + 1 && states[0] == Initial(queues)
    && forall i :: 0 <= i < |steps| ==> Next(states[i], steps[i], states[i + 1])
  }

  lemma EveryRun(queues: nat, states: seq<State>, steps: seq<Step>)
    requires IsRun(queues, states, steps)
    ensures forall i :: 0 <= i < |states| ==> Inv(states[i])
  {
    hide Next;
    assert Inv(states[0]);
    hide Inv;
    for k := 0 to |steps|
      invariant forall i :: 0 <= i <= k ==> Inv(states[i])
    {
      assert Next(states[k], steps[k], states[k + 1]);
      NextKeeps(states[k], steps[k], states[k + 1]);
    }
  }

  /** In every state of every run of submissions, full rings, completions in any order and resets
      with stale tokens, a request was completed exactly once unless it is pending, then not at all. */
  lemma CompletedExactlyOnce(queues: nat, states: seq<State>, steps: seq<Step>, i: nat, k: nat)
    requires IsRun(queues, states, steps) && i < |states| && k < |states[i].home|
    ensures Shape(states[i])
    ensures Completions(states[i].events, k) == if PendingIn(states[i].lists[states[i].home[k]], k) then 0 else 1
  {
    EveryRun(queues, states, steps);
  }

  /** In every run, a token that returns before its request was completed is answered at once: with
      success exactly when the device reported success, unless it asked for the serial number or the
      request is a write that still has to be flushed. */
  lemma EveryReturnAnswered(queues: nat, states: seq<State>, steps: seq<Step>, i: nat, n: nat)
    requires IsRun(queues, states, steps) && i < |states| && n < |states[i].events|
    requires states[i].events[n].Returned? && Completions(states[i].events[..n], states[i].events[n].srb) == 0
    ensures var s, e := states[i], states[i].events[n];
            && e.srb < |s.kinds| && n + 1 < |s.events|
            && Answers(s.kinds[e.srb], e.flush, e.dev, e.srb, s.events[n + 1])
  {
    EveryRun(queues, states, steps);
    assert AnsweredAt(states[i], n);
  }

  /** A token without a pending request (left behind by a reset) completes nothing when it returns. */
  lemma StaleIsDropped(s: State, q: nat, i: nat, dev: DeviceStatus, found: Found)
    requires Inv(s) && q < |s.lists| && i < |s.rings[q]| && !PendingIn(s.lists[q], s.rings[q][i].owner)
    ensures Return(s, q, i, dev, found).lists == s.lists && Return(s, q, i, dev, found).counts == s.counts
    ensures forall k :: Completions(Return(s, q, i, dev, found).events, k) == Completions(s.events, k)
  {
    assert QueueOk(s, q);
    FoundIsOwner(s, q, i);
    ReturnIs(s, q, i, dev, found);
    var e := s.rings[q][i];
    forall k: nat
      ensures Completions(Return(s, q, i, dev, found).events, k) == Completions(s.events, k)
    {
      CompletionsAppend(s.events, Returned(e.owner, e.flush, dev), k);
    }
  }

  /** No Force Unit Access write is reported successful before its write came back, a flush was queued
      after that, and that flush came back good. */
  lemma FuaOrdering(queues: nat, states: seq<State>, steps: seq<Step>, i: nat, n: nat)
    requires IsRun(queues, states, steps) && i < |states| && n < |states[i].events|
    requires states[i].events[n].Completed? && states[i].events[n].status == Success
    requires states[i].events[n].srb < |states[i].kinds| && states[i].kinds[states[i].events[n].srb].Fua?
    ensures FlushDone(states[i].events, states[i].events[n].srb, n)
  {
    EveryRun(queues, states, steps);
    assert SuccessOk(states[i], n);
  }

  /** With Force Unit Access the status of the write, or of a read, is dropped: whatever it was, the
      request goes back into the ring as a flush and is later reported with the status of the flush. */
  lemma WriteStatusIsDropped(s: State, q: nat, i: nat, write: DeviceStatus, flush: DeviceStatus, found: Found)
    requires Inv(s) && q < |s.lists| && i < |s.rings[q]|
    requires Find(s.lists[q], s.rings[q][i].id) < |s.lists[q]| && s.lists[q][Find(s.lists[q], s.rings[q][i].id)].fua
    ensures var owner, s1 := s.rings[q][i].owner, Return(s, q, i, write, Room);
            && |s1.rings[q]| > 0 && s1.rings[q][|s1.rings[q]| - 1].owner == owner
            && var s2 := Return(s1, q, |s1.rings[q]| - 1, flush, found);
               |s2.events| > 0 && s2.events[|s2.events| - 1] == Completed(owner, ToSrbStatus(flush))
  {
    hide OnceOk, FuaOk, EventsKnown, Completions, HasToken, EntryOk;
    var s1 := Return(s, q, i, write, Room);
    assert QueueOk(s, q);
    FoundIsOwner(s, q, i);
    ReturnIs(s, q, i, write, Room);
    ReturnKeeps(s, q, i, write, Room);
    var list := s1.lists[q];
    var e := s1.rings[q][|s1.rings[q]| - 1];
    assert list[|list| - 1].id == e.id && e.flush;
    assert QueueOk(s1, q);
    FoundIsOwner(s1, q, |s1.rings[q]| - 1);
    assert RequestOk(s1, q, list[Find(list, e.id)]);
    ReturnIs(s1, q, |s1.rings[q]| - 1, flush, found);
  }

  /** An input for it: the write fails, the flush does not, and success is reported. */
  lemma FailedWriteReportedGood()
    ensures var s1 := Start(Initial(1), 0, Fua, Room);
            var s2 := Return(s1, 0, 0, IoErr, Room);
            Return(s2, 0, 0, Ok, Room).events ==
            [Submitted(0, false), Returned(0, false, IoErr), Submitted(0, true), Returned(0, true, Ok), Completed(0, Success)]
  {
    var s1 := Start(Initial(1), 0, Fua, Room);
    OneStarted(Fua);
    OneResent(s1);
    OneReported(Return(s1, 0, 0, IoErr, Room), Request(0, 1, false, false), true, Ok);
  }

  /** The first request of a single queue. */
  lemma OneStarted(kind: Kind)
    ensures var s1 := Start(Initial(1), 0, kind, Room);
            && |s1.lists| == |s1.counts| == |s1.rings| == 1 && s1.events == [Submitted(0, false)]
            && s1.lists[0] == [Request(0, 1, kind.Fua?, kind.Serial?)] && s1.rings[0] == [Entry(1, 0, false)]
  {
  }

  lemma OneResent(s: State)
    requires |s.lists| == |s.counts| == |s.rings| == 1
    requires s.lists[0] == [Request(0, 1, true, false)] && s.rings[0] == [Entry(1, 0, false)]
    ensures var s' := Return(s, 0, 0, IoErr, Room);
            && |s'.lists| == |s'.counts| == |s'.rings| == 1
            && s'.lists[0] == [Request(0, 1, false, false)] && s'.rings[0] == [Entry(1, 0, true)]
            && s'.events == s.events + [Returned(0, false, IoErr), Submitted(0, true)]
  {
    ReturnIs(s, 0, 0, IoErr, Room);
  }

  lemma OneReported(s: State, r: Request, flush: bool, dev: DeviceStatus)
    requires |s.lists| == |s.counts| == |s.rings| == 1
    requires s.lists[0] == [r] && !r.fua && s.rings[0] == [Entry(r.id, r.srb, flush)]
    ensures Return(s, 0, 0, dev, Room).events ==
            s.events + [Returned(r.srb, flush, dev), Completed(r.srb, if r.serial then Success else ToSrbStatus(dev))]
  {
    ReturnIs(s, 0, 0, dev, Room);
  }

  /** At event n of the history, request k is reported successful after it went into a ring. */
  ghost predicate ReportedGood(s: State, k: nat, n: nat) {
    n < |s.events| && s.events[n] == Completed(k, Success) && k < |s.kinds| && Sent(s.events, k, n)
  }

  /** In every run, a request of the given kind that went into a ring is reported successful only
      after what it asked for came back good. */
  ghost predicate Honest(kind: Kind) {
    forall queues: nat, states: seq<State>, steps, i, k: nat, n: nat ::
      IsRun(queues, states, steps) && 0 <= i < |states| && ReportedGood(states[i], k, n) && states[i].kinds[k] == kind
      ==> CameBackGood(states[i].events, k, n)
  }

  lemma HonestIfPlain(queues: nat, states: seq<State>, steps: seq<Step>, i: nat, k: nat, n: nat)
    requires IsRun(queues, states, steps) && i < |states| && ReportedGood(states[i], k, n) && states[i].kinds[k].Plain?
    ensures CameBackGood(states[i].events, k, n)
  {
    EveryRun(queues, states, steps);
    assert SuccessOk(states[i], n);
  }

  /** A run in which a Force Unit Access write is not, and a read would not be: it fails, the flush does
      not. */
  lemma DishonestWrite() returns (states: seq<State>, steps: seq<Step>)
    ensures IsRun(1, states, steps) && |states| == 4 && ReportedGood(states[3], 0, 4) && states[3].kinds[0] == Fua
    ensures !CameBackGood(states[3].events, 0, 4)
  {
    FailedWriteReportedGood();
    var s0 := Initial(1);
    var s1 := Start(s0, 0, Fua, Room);
    var s2 := Return(s1, 0, 0, IoErr, Room);
    var s3 := Return(s2, 0, 0, Ok, Room);
    states := [s0, s1, s2, s3];
    steps := [DoStart(0, Fua, Room), DoReturn(0, 0, IoErr, Room), DoReturn(0, 0, Ok, Room)];
    OneStarted(Fua);
    OneResent(s1);
    hide Start, Return, Initial;
    assert Next(s0, steps[0], s1) && Next(s1, steps[1], s2) && Next(s2, steps[2], s3);
    assert s3.events[0] == Submitted(0, false);
  }

  /** A run in which a request for the serial number is not: the device refuses it. */
  lemma DishonestSerial() returns (states: seq<State>, steps: seq<Step>)
    ensures IsRun(1, states, steps) && |states| == 3 && ReportedGood(states[2], 0, 2) && states[2].kinds[0] == Serial
    ensures !CameBackGood(states[2].events, 0, 2)
  {
    var s0 := Initial(1);
    var s1 := Start(s0, 0, Serial, Room);
    OneStarted(Serial);
    OneReported(s1, Request(0, 1, false, true), false, IoErr);
    var s2 := Return(s1, 0, 0, IoErr, Room);
    assert s2.events == [Submitted(0, false), Returned(0, false, IoErr), Completed(0, Success)];
    states := [s0, s1, s2];
    steps := [DoStart(0, Serial, Room), DoReturn(0, 0, IoErr, Room)];
    assert Next(s0, steps[0], s1) && Next(s1, steps[1], s2);
    assert s2.events[0] == Submitted(0, false);
  }

  /** Success is honest exactly for plain requests. */
  lemma HonestExact(kind: Kind)
    ensures Honest(kind) <==> kind == Plain
  {
    match kind
    case Fua =>
      var states, steps := DishonestWrite();
    case Serial =>
      var states, steps := DishonestSerial();
    case Plain =>
      forall queues: nat, states: seq<State>, steps, i, k: nat, n: nat |
        IsRun(queues, states, steps) && 0 <= i < |states| && ReportedGood(states[i], k, n) && states[i].kinds[k] == Plain
        ensures CameBackGood(states[i].events, k, n)
      {
        HonestIfPlain(queues, states, steps, i, k, n);
      }
  }

  // ----- reset of every queue -----

  function ResetAll(s: State, n: nat): (s': State)
    requires n <= |s.lists| == |s.counts|
    ensures |s'.lists| == |s.lists| && |s'.counts| == |s.counts| && s'.rings == s.rings && s'.home == s.home
  {
    if n == 0 then s else Reset(ResetAll(s, n - 1), n - 1)
  }

  /** After the drain nothing is pending and every request so far was completed exactly once; the
      tokens are all still in the rings. */
  lemma {:induction false} ResetAllKeeps(s: State, n: nat)
    requires Inv(s) && n <= |s.lists|
    ensures Inv(ResetAll(s, n))
    ensures forall q :: 0 <= q < n ==> ResetAll(s, n).lists[q] == []
    ensures forall k :: 0 <= k < |s.home| && s.home[k] < n ==> Completions(ResetAll(s, n).events, k) == 1
    ensures s.events <= ResetAll(s, n).events && forall m :: |s.events| <= m < |ResetAll(s, n).events| ==>
              ResetAll(s, n).events[m].Completed? && ResetAll(s, n).events[m].status == BusReset
  {
    if n > 0 {
      ResetAllKeeps(s, n - 1);
      ResetKeeps(ResetAll(s, n - 1), n - 1);
      assert QueueOk(ResetAll(s, n - 1), n - 1);
      ResetEvents(ResetAll(s, n - 1), n - 1);
    }
    var s' := ResetAll(s, n);
    assert OnceOk(s');
  }
}
