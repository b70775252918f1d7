/**
 The life of a storage request between StartIo and its completion, in viostor and vioscsi:
 ids, pending lists, the reset drain that leaves stale ids in the rings, and the two phases
 of a write with Force Unit Access.

 The k-th request that StartIo sees is request k. A queue's ring is the bag of tokens that
 Ledger.AddedToBag and ReturnedFromBag show both kinds of virtqueue to be: get_buf may return
 any of them.
 */
module Storage {

  /** ULONG_PTR is 64 bits wide, and 0 is not an id. */
  const ID_COUNT: nat := 0xFFFF_FFFF_FFFF_FFFF

  /** The id that request k gets. */
  function IdOf(k: nat): (id: nat)
    ensures 1 <= id <= ID_COUNT
  {
    1 + k % ID_COUNT
  }

  /** last_srb_id++, skipping 0. */
  function NextId(id: nat): (r: nat) {
    var next := (id + 1) % 0x1_0000_0000_0000_0000;
    if next == 0 then next + 1 else next
  }

  lemma NextIdIs(k: nat)
    ensures NextId(IdOf(k)) == IdOf(k + 1)
  {
  }

  /** Two requests share an id exactly when a multiple of 2^64 - 1 requests lie between them. */
  lemma IdsRepeat(j: nat, k: nat)
    requires j <= k
    ensures IdOf(j) == IdOf(k) <==> (k - j) % ID_COUNT == 0
  {
  }

  lemma IdsDistinct(j: nat, k: nat)
    requires j < ID_COUNT && k < ID_COUNT && IdOf(j) == IdOf(k)
    ensures j == k
  {
  }

  datatype Status = Success | Error | InvalidRequest | Busy | BusReset | NoDevice

  datatype DeviceStatus = Ok | IoErr | Unsupp | Unknown

  /** DeviceToSrbStatus. */
  function ToSrbStatus(d: DeviceStatus): Status {
    match d
    case Ok => Success
    case IoErr => Error
    case Unsupp => InvalidRequest
    case Unknown => Error
  }

  /** A read, a write or another request to the device; a read or write with Force Unit Access, which the
      driver marks alike; or the request for the device's serial number, on behalf of an inquiry. */
  datatype Kind = Plain | Fua | Serial

  /** A pending request, as linked into a processing_srbs list. */
  datatype Request = Request(srb: nat, id: nat, fua: bool, serial: bool)

  /** A token in a ring, with the request it was added for and whether it was added as the flush
      after a Force Unit Access write. */
  datatype Entry = Entry(id: nat, owner: nat, flush: bool)

  datatype Event =
    | Submitted(srb: nat, flush: bool)
    | Returned(srb: nat, flush: bool, dev: DeviceStatus)
    | Completed(srb: nat, status: Status)

  datatype State = State(
    // the queue of every request so far, and its kind
    home: seq<nat>, kinds: seq<Kind>,
    lists: seq<seq<Request>>, counts: seq<int>, rings: seq<seq<Entry>>,
    events: seq<Event>)

  // ----- steps -----

  /** What StartIo found: the adapter gone or resetting (completed with that status at once), or a
      ring with or without room; a full ring completes with failure. */
  datatype Found = Refused(status: Status) | Full(failure: Status) | Room

  /** StartIo and SendSRB, or RhelDoReadWrite: an id, then the ring and the list, or a completion. */
  function Start(s: State, q: nat, kind: Kind, found: Found): (s': State)
    requires q < |s.lists| == |s.counts| == |s.rings|
  {
    var k := |s.home|;
    var s1 := s.(home := s.home + [q], kinds := s.kinds + [kind]);
    match found
    case Refused(status) => s1.(events := s.events + [Completed(k, status)])
    case Full(failure) => s1.(events := s.events + [Completed(k, failure)])
    case Room => Enqueue(s1, q, Request(k, IdOf(k), kind.Fua?, kind.Serial?), false)
  }

  /** A token into the ring and the request to the tail of the list. */
  function Enqueue(s: State, q: nat, r: Request, flush: bool): (s': State)
    requires q < |s.lists| == |s.counts| == |s.rings|
  {
    s.(lists := s.lists[q := s.lists[q] + [r]],
       counts := s.counts[q := s.counts[q] + 1],
       rings := s.rings[q := s.rings[q] + [Entry(r.id, r.srb, flush)]],
       events := s.events + [Submitted(r.srb, flush)])
  }

  /** The place of the first pending request with the given id, or the length of the list. */
  function Find(list: seq<Request>, id: nat): (j: nat)
    ensures j <= |list|
    ensures j < |list| ==> list[j].id == id
    ensures forall i :: 0 <= i < j ==> list[i].id != id
  {
    if list == [] then 0
    else if list[0].id == id then 0
    else 1 + Find(list[1..], id)
  }

  function Without<T>(s: seq<T>, i: nat): (r: seq<T>)
    requires i < |s|
  {
    s[..i] + s[i + 1..]
  }

  /** get_buf returns entry i of ring q. */
  function Taken(s: State, q: nat, i: nat, dev: DeviceStatus): (s': State)
    requires q < |s.rings| && i < |s.rings[q]|
  {
    var e := s.rings[q][i];
    s.(rings := s.rings[q := Without(s.rings[q], i)], events := s.events + [Returned(e.owner, e.flush, dev)])
  }

  /** Request j is unlinked and completed, or sent again as a flush. A serial number is reported as a
      success whatever the device says. */
  function Finished(s: State, q: nat, j: nat, dev: DeviceStatus, found: Found): (s': State)
    requires q < |s.lists| == |s.counts| == |s.rings| && j < |s.lists[q]|
  {
    var r := s.lists[q][j];
    var s1 := s.(lists := s.lists[q := Without(s.lists[q], j)], counts := s.counts[q := s.counts[q] - 1]);
    if !r.fua then s1.(events := s.events + [Completed(r.srb, if r.serial then Success else ToSrbStatus(dev))])
    else match found
         case Refused(status) => s1.(events := s.events + [Completed(r.srb, status)])
         case Full(_) => s1.(events := s.events + [Completed(r.srb, Error)])
         case Room => Enqueue(s1, q, r.(fua := false), true)
  }

  /** The completion handler on entry i of ring q: an id that no pending request has is dropped. */
  function Return(s: State, q: nat, i: nat, dev: DeviceStatus, found: Found): (s': State)
    requires q < |s.lists| == |s.counts| == |s.rings| && i < |s.rings[q]|
  {
    var j := Find(s.lists[q], s.rings[q][i].id);
    if j == |s.lists[q]| then Taken(s, q, i, dev) else Finished(Taken(s, q, i, dev), q, j, dev, found)
  }

  /** The completions of a list drained on reset. */
  function Resets(list: seq<Request>): (ev: seq<Event>)
    ensures |ev| == |list|
  {
    seq(|list|, i requires 0 <= i < |list| => Completed(list[i].srb, BusReset))
  }

  /** The drain of one list on reset: the ring keeps its entries. */
  function Reset(s: State, q: nat): (s': State)
    requires q < |s.lists| == |s.counts|
  {
    s.(lists := s.lists[q := []], counts := s.counts[q := 0], events := s.events + Resets(s.lists[q]))
  }

  // ----- invariant -----

  ghost predicate Shape(s: State) {
    && |s.lists| == |s.counts| == |s.rings| && |s.kinds| == |s.home|
    && forall k :: 0 <= k < |s.home| ==> s.home[k] < |s.lists|
  }

  ghost predicate RequestOk(s: State, q: nat, r: Request) {
    && r.srb < |s.home| && |s.kinds| == |s.home| && s.home[r.srb] == q && r.id == IdOf(r.srb)
    && (r.fua ==> s.kinds[r.srb].Fua?) && r.serial == s.kinds[r.srb].Serial?
  }

  ghost predicate EntryOk(s: State, q: nat, e: Entry) {
    e.owner < |s.home| && s.home[e.owner] == q && e.id == IdOf(e.owner)
  }

  /** The count is the length; each request is linked once; each token is in the ring once. */
  ghost predicate QueueOk(s: State, q: nat)
    requires q < |s.lists| == |s.counts| == |s.rings|
  {
    && s.counts[q] == |s.lists[q]|
    && (forall i :: 0 <= i < |s.lists[q]| ==> RequestOk(s, q, s.lists[q][i]))
    && (forall i, j :: 0 <= i < j < |s.lists[q]| ==> s.lists[q][i].srb != s.lists[q][j].srb)
    && (forall i :: 0 <= i < |s.rings[q]| ==> EntryOk(s, q, s.rings[q][i]))
    && (forall i, j :: 0 <= i < j < |s.rings[q]| ==> s.rings[q][i].owner != s.rings[q][j].owner)
    && (forall i :: 0 <= i < |s.lists[q]| ==> HasToken(s, s.rings[q], s.lists[q][i]))
  }

  /** A pending request's token is in the ring, in the phase the request is in. */
  ghost predicate HasToken(s: State, ring: seq<Entry>, r: Request)
  {
    && r.srb < |s.kinds|
    && exists i :: 0 <= i < |ring| && ring[i] == Entry(r.id, r.srb, s.kinds[r.srb].Fua? && !r.fua)
  }

  ghost predicate PendingIn(list: seq<Request>, k: nat) {
    exists i :: 0 <= i < |list| && list[i].srb == k
  }

  /** How often request k was completed. */
  function Completions(events: seq<Event>, k: nat): (n: nat) {
    if events == [] then 0
    else
      var last := events[|events| - 1];
      Completions(events[..|events| - 1], k) + if last.Completed? && last.srb == k then 1 else 0
  }

  /** Every request is either pending, and was not completed, or was completed exactly once. */
  ghost predicate OnceOk(s: State)
    requires Shape(s)
  {
    forall k :: 0 <= k < |s.home| ==> Completions(s.events, k) == if PendingIn(s.lists[s.home[k]], k) then 0 else 1
  }

  /** Before position i, request k's write came back, then its flush was queued. */
  ghost predicate FlushQueued(events: seq<Event>, k: nat, i: nat) {
    exists a, b :: 0 <= a < b < i <= |events|
      && events[a].Returned? && events[a].srb == k && !events[a].flush && events[b] == Submitted(k, true)
  }

  /** ... and then that flush came back good. */
  ghost predicate FlushDone(events: seq<Event>, k: nat, i: nat) {
    exists c :: 0 <= c < i <= |events| && events[c] == Returned(k, true, Ok) && FlushQueued(events, k, c)
  }

  /** Before position i, request k went into a ring. */
  ghost predicate Sent(events: seq<Event>, k: nat, i: nat) {
    exists c :: 0 <= c < i <= |events| && events[c] == Submitted(k, false)
  }

  /** Before position i, what request k asked for came back good. */
  ghost predicate CameBackGood(events: seq<Event>, k: nat, i: nat) {
    exists c :: 0 <= c < i <= |events| && events[c] == Returned(k, false, Ok)
  }

  /** No Force Unit Access write is reported successful before its flush, no plain request that went
      into a ring before it came back good; and a pending write without its fua mark is waiting for
      its flush. */
  ghost predicate FuaOk(s: State)
    requires Shape(s)
  {
    && (forall i :: 0 <= i < |s.events| ==> SuccessOk(s, i))
    && (forall q, j :: 0 <= q < |s.lists| && 0 <= j < |s.lists[q]| ==> PhaseOk(s, s.lists[q][j]))
  }

  ghost predicate SuccessOk(s: State, i: nat)
    requires i < |s.events|
  {
    var e := s.events[i];
    e.Completed? && e.status == Success && e.srb < |s.kinds|
    ==>
      match s.kinds[e.srb]
      case Fua => FlushDone(s.events, e.srb, i)
      case Plain => Sent(s.events, e.srb, i) ==> CameBackGood(s.events, e.srb, i)
      case Serial => true
  }

  ghost predicate PhaseOk(s: State, r: Request) {
    r.srb < |s.kinds| && (s.kinds[r.srb].Fua? && !r.fua ==> FlushQueued(s.events, r.srb, |s.events|))
  }

  ghost predicate EventsKnown(s: State) {
    forall i :: 0 <= i < |s.events| ==> s.events[i].srb < |s.home|
  }

  /** What follows the return of request k's token, while k has not been completed. A plain request and a
      flush are reported with what the device said. A Force Unit Access write becomes a flush or is
      reported as a failure. */
  ghost predicate Answers(kind: Kind, flush: bool, dev: DeviceStatus, k: nat, e: Event) {
    if kind.Serial? then e == Completed(k, Success)
    else if kind.Fua? && !flush then e == Submitted(k, true) || (e.Completed? && e.srb == k && e.status != Success)
    else
      && e.Completed? && e.srb == k
      && (e.status == Success <==> dev == Ok) && (e.status == InvalidRequest <==> dev == Unsupp)
      && (e.status == Error <==> dev == IoErr || dev == Unknown)
  }

  ghost predicate AnsweredAt(s: State, i: nat)
    requires i < |s.events|
  {
    var e := s.events[i];
    e.Returned? && e.srb < |s.kinds| && Completions(s.events[..i], e.srb) == 0
    ==> i + 1 < |s.events| && Answers(s.kinds[e.srb], e.flush, e.dev, e.srb, s.events[i + 1])
  }

  ghost predicate AnsweredOk(s: State) {
    forall i :: 0 <= i < |s.events| ==> AnsweredAt(s, i)
  }

  ghost predicate QueuesOk(s: State)
    requires Shape(s)
  {
    forall q :: 0 <= q < |s.lists| ==> QueueOk(s, q)
  }

  /** As long as ids have not wrapped around. */
  ghost predicate Inv(s: State) {
    Shape(s) && |s.home| <= ID_COUNT && QueuesOk(s) && EventsKnown(s) && OnceOk(s) && FuaOk(s) && AnsweredOk(s)
  }

  // ----- histories -----

  lemma CompletionsAppend(events: seq<Event>, e: Event, k: nat)
    ensures Completions(events + [e], k) == Completions(events, k) + if e.Completed? && e.srb == k then 1 else 0
  {
  }

  lemma {:induction false} NoCompletions(events: seq<Event>, k: nat)
    requires forall i :: 0 <= i < |events| ==> events[i].srb != k
    ensures Completions(events, k) == 0
  {
    if events != [] {
      NoCompletions(events[..|events| - 1], k);
    }
  }

  lemma FlushQueuedGrows(events: seq<Event>, more: seq<Event>, k: nat, i: nat, i': nat)
    requires FlushQueued(events, k, i) && i <= i' <= |events + more|
    ensures FlushQueued(events + more, k, i')
  {
    var a, b :| 0 <= a < b < i <= |events|
      && events[a].Returned? && events[a].srb == k && !events[a].flush && events[b] == Submitted(k, true);
    assert (events + more)[a] == events[a] && (events + more)[b] == events[b];
  }

  lemma FlushDoneGrows(events: seq<Event>, more: seq<Event>, k: nat, i: nat)
    requires FlushDone(events, k, i)
    ensures FlushDone(events + more, k, i)
  {
    var c :| 0 <= c < i <= |events| && events[c] == Returned(k, true, Ok) && FlushQueued(events, k, c);
    FlushQueuedGrows(events, more, k, c, c);
    assert (events + more)[c] == events[c];
  }

  lemma GoodGrows(events: seq<Event>, more: seq<Event>, k: nat, i: nat)
    requires i <= |events|
    ensures Sent(events + more, k, i) <==> Sent(events, k, i)
    ensures CameBackGood(events + more, k, i) <==> CameBackGood(events, k, i)
  {
    assert forall c :: 0 <= c < i ==> (events + more)[c] == events[c];
  }

  /** Old events stay justified when the history grows. */
  lemma SuccessGrows(s: State, s': State, more: seq<Event>)
    requires |s.kinds| <= |s'.kinds| && s.kinds == s'.kinds[..|s.kinds|] && s'.events == s.events + more
    requires forall i :: 0 <= i < |s.events| ==> s.events[i].srb < |s.kinds| && SuccessOk(s, i)
    ensures forall i :: 0 <= i < |s.events| ==> SuccessOk(s', i)
  {
    forall i | 0 <= i < |s.events|
      ensures SuccessOk(s', i)
    {
      assert SuccessOk(s, i) && s'.events[i] == s.events[i];
      if s.events[i].Completed? && s.events[i].status == Success {
        if s.kinds[s.events[i].srb].Fua? {
          FlushDoneGrows(s.events, more, s.events[i].srb, i);
        } else {
          GoodGrows(s.events, more, s.events[i].srb, i);
        }
      }
    }
  }

  lemma AnsweredGrows(s: State, s': State, more: seq<Event>)
    requires |s.kinds| <= |s'.kinds| && s.kinds == s'.kinds[..|s.kinds|] && s'.events == s.events + more
    requires AnsweredOk(s) && forall i :: 0 <= i < |s.events| ==> s.events[i].srb < |s.kinds|
    ensures forall i :: 0 <= i < |s.events| ==> AnsweredAt(s', i)
  {
    hide Answers, Completions;
    forall i | 0 <= i < |s.events|
      ensures AnsweredAt(s', i)
    {
      assert AnsweredAt(s, i) && s'.events[i] == s.events[i] && s'.events[..i] == s.events[..i];
      assert i + 1 < |s.events| ==> s'.events[i + 1] == s.events[i + 1];
    }
  }

  lemma PhaseGrows(s: State, s': State, more: seq<Event>, r: Request)
    requires |s.kinds| <= |s'.kinds| && s.kinds == s'.kinds[..|s.kinds|] && s'.events == s.events + more && PhaseOk(s, r)
    ensures PhaseOk(s', r)
  {
    if s.kinds[r.srb].Fua? && !r.fua {
      FlushQueuedGrows(s.events, more, r.srb, |s.events|, |s'.events|);
    }
  }

  // ----- queues that a step leaves alone -----

  ghost predicate Extends(s: State, s': State) {
    |s.home| <= |s'.home| && |s.kinds| == |s.home| && |s'.kinds| == |s'.home|
    && s.home == s'.home[..|s.home|] && s.kinds == s'.kinds[..|s.kinds|]
  }

  lemma QueueFrame(s: State, s': State, q: nat)
    requires q < |s.lists| == |s.counts| == |s.rings| && q < |s'.lists| == |s'.counts| == |s'.rings|
    requires QueueOk(s, q) && Extends(s, s')
    requires s'.lists[q] == s.lists[q] && s'.counts[q] == s.counts[q] && s'.rings[q] == s.rings[q]
    ensures QueueOk(s', q)
  {
    forall i | 0 <= i < |s.lists[q]|
      ensures RequestOk(s', q, s.lists[q][i]) && HasToken(s', s.rings[q], s.lists[q][i])
    {
      assert RequestOk(s, q, s.lists[q][i]);
      TokenFrame(s, s', s.rings[q], s.lists[q][i]);
    }
    forall i | 0 <= i < |s.rings[q]|
      ensures EntryOk(s', q, s.rings[q][i])
    {
      assert EntryOk(s, q, s.rings[q][i]);
    }
  }

  lemma TokenFrame(s: State, s': State, ring: seq<Entry>, r: Request)
    requires Extends(s, s') && HasToken(s, ring, r)
    ensures HasToken(s', ring, r)
  {
  }

  lemma TokenKept(s: State, ring: seq<Entry>, ring': seq<Entry>, r: Request)
    requires HasToken(s, ring, r)
    requires forall i :: 0 <= i < |ring| && ring[i].owner == r.srb ==> ring[i] in ring'
    ensures HasToken(s, ring', r)
  {
  }

  lemma WithoutHas<T>(s: seq<T>, i: nat)
    requires i < |s|
    ensures forall j :: 0 <= j < |s| && j != i ==> s[j] in Without(s, i)
    ensures forall j :: 0 <= j < |s| - 1 ==> Without(s, i)[j] == s[if j < i then j else j + 1]
  {
  }

  // ----- adding to a queue -----

  /** A request that is neither pending nor in the ring goes into both. */
  lemma EnqueueQueue(s: State, q: nat, r: Request, flush: bool)
    requires q < |s.lists| == |s.counts| == |s.rings| && QueueOk(s, q) && |s.kinds| == |s.home|
    requires RequestOk(s, q, r) && flush == (s.kinds[r.srb].Fua? && !r.fua)
    requires forall i :: 0 <= i < |s.lists[q]| ==> s.lists[q][i].srb != r.srb
    requires forall i :: 0 <= i < |s.rings[q]| ==> s.rings[q][i].owner != r.srb
    ensures QueueOk(Enqueue(s, q, r, flush), q)
  {
    var s' := Enqueue(s, q, r, flush);
    var list, ring := s'.lists[q], s'.rings[q];
    forall i | 0 <= i < |list|
      ensures RequestOk(s', q, list[i]) && HasToken(s', ring, list[i])
    {
      if i < |s.lists[q]| {
        assert RequestOk(s, q, s.lists[q][i]) && HasToken(s, s.rings[q], s.lists[q][i]);
        TokenKept(s, s.rings[q], ring, s.lists[q][i]);
      } else {
        assert ring[|s.rings[q]|] == Entry(r.id, r.srb, flush);
      }
    }
    forall i | 0 <= i < |ring|
      ensures EntryOk(s', q, ring[i])
    {
      if i < |s.rings[q]| {
        assert EntryOk(s, q, s.rings[q][i]);
      }
    }
  }
}
