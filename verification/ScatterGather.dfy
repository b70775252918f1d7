/**
 VirtIoBuildIo's scatter/gather list: viostor cuts the elements that StorPort hands it to the
 device's segment size, between the request header and the status byte.
 */
module ScatterGather {
  import Bits
  import opened Ledger

  const MAX_PHYS_SEGMENTS: nat := 512
  /** The length of srbExt->sg. */
  const VIRTIO_MAX_SG: nat := 3 + MAX_PHYS_SEGMENTS

  function Span(s: Sg): (bytes: seq<nat>) {
    seq(s.len, i requires 0 <= i => s.addr + i)
  }

  /** The physical addresses that a list transfers, in order. */
  function Bytes(list: seq<Sg>): (bytes: seq<nat>) {
    if list == [] then [] else Bytes(list[..|list| - 1]) + Span(list[|list| - 1])
  }

  /** One element cut into pieces of sizeMax and a rest. */
  function Cut(s: Sg, sizeMax: nat): (pieces: seq<Sg>)
    requires sizeMax > 0
    decreases s.len
  {
    if s.len == 0 then []
    else if s.len <= sizeMax then [s]
    else [Sg(s.addr, sizeMax)] + Cut(Sg(s.addr + sizeMax, s.len - sizeMax), sizeMax)
  }

  function CutAll(list: seq<Sg>, sizeMax: nat): (pieces: seq<Sg>)
    requires sizeMax > 0
  {
    if list == [] then [] else CutAll(list[..|list| - 1], sizeMax) + Cut(list[|list| - 1], sizeMax)
  }

  /** What fits a device with a segment size: a device that reports 0 takes only empty transfers. */
  function Split(list: seq<Sg>, sizeMax: nat, segMax: nat): (r: Option<seq<Sg>>) {
    if sizeMax == 0 then
      if AllEmpty(list) then Some([]) else None
    else if |CutAll(list, sizeMax)| > segMax then None
    else Some(CutAll(list, sizeMax))
  }

  predicate AllEmpty(list: seq<Sg>) {
    forall i :: 0 <= i < |list| ==> list[i].len == 0
  }

  /** The elements that are looked at at all. */
  function Seen(list: seq<Sg>): (r: seq<Sg>) {
    list[..if |list| < MAX_PHYS_SEGMENTS + 1 then |list| else MAX_PHYS_SEGMENTS + 1]
  }

  // ----- what the pieces are -----

  lemma {:induction false} BytesAppend(a: seq<Sg>, b: seq<Sg>)
    ensures Bytes(a + b) == Bytes(a) + Bytes(b)
  {
    if b == [] {
      assert a + b == a;
    } else {
      var n := |b| - 1;
      BytesAppend(a, b[..n]);
      assert (a + b)[..|a + b| - 1] == a + b[..n] && (a + b)[|a + b| - 1] == b[n];
    }
  }

  lemma {:induction false} CutBytes(s: Sg, sizeMax: nat)
    requires sizeMax > 0
    ensures Bytes(Cut(s, sizeMax)) == Span(s)
    ensures forall i :: 0 <= i < |Cut(s, sizeMax)| ==> 0 < Cut(s, sizeMax)[i].len <= sizeMax
    decreases s.len
  {
    if s.len == 0 {
    } else if s.len <= sizeMax {
      assert Bytes([s]) == Bytes([s][..0]) + Span(s);
    } else {
      var first, rest := Sg(s.addr, sizeMax), Sg(s.addr + sizeMax, s.len - sizeMax);
      CutBytes(rest, sizeMax);
      BytesAppend([first], Cut(rest, sizeMax));
      assert Bytes([first]) == Bytes([first][..0]) + Span(first);
      assert Span(s) == Span(first) + Span(rest);
    }
  }

  /** The pieces transfer the same bytes in the same order, and none is empty or too long. */
  lemma {:induction false} CutAllBytes(list: seq<Sg>, sizeMax: nat)
    requires sizeMax > 0
    ensures Bytes(CutAll(list, sizeMax)) == Bytes(list)
    ensures forall i :: 0 <= i < |CutAll(list, sizeMax)| ==> 0 < CutAll(list, sizeMax)[i].len <= sizeMax
  {
    if list != [] {
      var n := |list| - 1;
      CutAllBytes(list[..n], sizeMax);
      CutBytes(list[n], sizeMax);
      BytesAppend(CutAll(list[..n], sizeMax), Cut(list[n], sizeMax));
    }
  }

  lemma {:induction false} BytesBound(pieces: seq<Sg>, sizeMax: nat)
    requires forall i :: 0 <= i < |pieces| ==> pieces[i].len <= sizeMax
    ensures |Bytes(pieces)| <= Bits.Times(|pieces|, sizeMax)
  {
    if pieces != [] {
      var n := |pieces| - 1;
      BytesBound(pieces[..n], sizeMax);
      Bits.Distributes(n, 1, sizeMax);
    }
  }

  lemma {:induction false} CutFull(s: Sg, sizeMax: nat)
    requires sizeMax > 0 && s.len > 0
    ensures |Cut(s, sizeMax)| > 0 && Bits.Times(|Cut(s, sizeMax)| - 1, sizeMax) < s.len
    decreases s.len
  {
    if s.len > sizeMax {
      var rest := Sg(s.addr + sizeMax, s.len - sizeMax);
      CutFull(rest, sizeMax);
      Bits.Distributes(|Cut(rest, sizeMax)| - 1, 1, sizeMax);
    }
  }

  /** No list of pieces within the limit covers an element with fewer pieces. */
  lemma {:induction false} CutMinimal(s: Sg, sizeMax: nat, pieces: seq<Sg>)
    requires sizeMax > 0 && Bytes(pieces) == Span(s)
    requires forall i :: 0 <= i < |pieces| ==> pieces[i].len <= sizeMax
    ensures |Cut(s, sizeMax)| <= |pieces|
  {
    BytesBound(pieces, sizeMax);
    assert |Span(s)| == s.len;
    hide Bytes, Span, Cut, Bits.Times;
    if s.len > 0 {
      CutFull(s, sizeMax);
      Bits.FewerTimes(|Cut(s, sizeMax)| - 1, |pieces|, sizeMax);
    }
  }

  lemma {:induction false} CutGrows(list: seq<Sg>, n: nat, sizeMax: nat)
    requires sizeMax > 0 && n <= |list|
    ensures |CutAll(list[..n], sizeMax)| <= |CutAll(list, sizeMax)|
    decreases |list|
  {
    if n < |list| {
      CutGrows(list[..|list| - 1], n, sizeMax);
      assert list[..|list| - 1][..n] == list[..n];
    } else {
      assert list[..n] == list;
    }
  }

  lemma {:induction false} EmptyBytes(list: seq<Sg>)
    ensures Bytes(list) == [] <==> AllEmpty(list)
  {
    if list != [] {
      var n := |list| - 1;
      EmptyBytes(list[..n]);
      assert AllEmpty(list) <==> AllEmpty(list[..n]) && list[n].len == 0;
      assert |Span(list[n])| == list[n].len;
    }
  }

  lemma SplitBytes(list: seq<Sg>, sizeMax: nat, segMax: nat)
    requires Split(list, sizeMax, segMax).Some?
    ensures Bytes(Split(list, sizeMax, segMax).value) == Bytes(list)
  {
    EmptyBytes(list);
    if sizeMax > 0 {
      CutAllBytes(list, sizeMax);
    }
  }

  /** Elements past the 513th are dropped without an error, so the whole transfer is covered exactly
      when they are empty. */
  lemma SeenExact(list: seq<Sg>)
    ensures Seen(list) <= list && |Seen(list)| == if |list| <= 513 then |list| else 513
    ensures Bytes(Seen(list)) == Bytes(list) <==> |list| <= 513 || AllEmpty(list[513..])
  {
    var n := |Seen(list)|;
    assert list == list[..n] + list[n..];
    BytesAppend(list[..n], list[n..]);
    EmptyBytes(list[n..]);
    if Bytes(Seen(list)) == Bytes(list) {
      assert |Bytes(list[n..])| == 0;
    }
  }

  // ----- filling srbExt->sg -----

  /** Whether every element that is written lies in srbExt->sg: the last one is the status byte's, or,
      when the list is refused, the last piece's. */
  predicate InBounds(sized: bool, list: seq<Sg>, sizeMax: nat, segMax: nat) {
    sized ==>
      if Split(list, sizeMax, segMax).Some? then |Split(list, sizeMax, segMax).value| + 1 < VIRTIO_MAX_SG
      else segMax < VIRTIO_MAX_SG
  }

  /** That is so for every list that StorPort can hand over exactly when the device reports at most 513
      segments: with more, one element of 514 bytes and a size_max of 1 are enough to leave the table. */
  lemma InBoundsExact(segMax: nat)
    ensures (forall list, sizeMax, sized :: InBounds(sized, Seen(list), sizeMax, segMax)) <==> segMax <= 513
  {
    if segMax > 513 {
      var list := [Sg(0, 514)];
      CutOnes(list[0]);
      assert Seen(list) == list && CutAll(list[..0], 1) == [];
      assert !InBounds(true, Seen(list), 1, segMax);
    }
  }

  lemma {:induction false} CutOnes(s: Sg)
    ensures |Cut(s, 1)| == s.len
    decreases s.len
  {
    if s.len > 1 {
      CutOnes(Sg(s.addr + 1, s.len - 1));
    }
  }

  /** What becomes of the table: refused for too many pieces, a store past its end, or filled, the
      device reading the first outs elements and writing the next ins. */
  datatype Outcome = Refused | Overrun | Filled(outs: nat, ins: nat)

  lemma FillData(sized: bool, list: seq<Sg>, sizeMax: nat, segMax: nat, data: seq<Sg>)
    requires sized ==> Split(list, sizeMax, segMax) == Some(data)
    requires !sized ==> data == list
    ensures Bytes(data) == Bytes(list) && (sized && sizeMax == 0 ==> data == [])
    ensures sized && sizeMax > 0 ==> |data| <= segMax && forall i :: 0 <= i < |data| ==> 0 < data[i].len <= sizeMax
  {
    if sized {
      SplitBytes(list, sizeMax, segMax);
      if sizeMax > 0 {
        CutAllBytes(list, sizeMax);
      }
    }
  }

  /** Whether the device takes a list: its pieces are no more than it allows, and with a segment size of
      0 there must be none. */
  predicate Allowed(list: seq<Sg>, sizeMax: nat, segMax: nat) {
    if sizeMax == 0 then AllEmpty(list) else |CutAll(list, sizeMax)| <= segMax
  }

  /** VirtIoBuildIo: the header first and the status byte last, between them the bytes of the elements
      looked at, in order and in pieces that the device takes. A write gives the device all but the
      status to read, a read only the header. */
  method Fill(sg: array<Sg>, sized: bool, list: seq<Sg>, sizeMax: nat, segMax: nat, write: bool,
              header: Sg, status: Sg) returns (r: Outcome)
    requires sg.Length == VIRTIO_MAX_SG
    modifies sg
    ensures r.Overrun? <==> !InBounds(sized, Seen(list), sizeMax, segMax)
    ensures !r.Overrun? ==> (r.Refused? <==> sized && !Allowed(Seen(list), sizeMax, segMax))
    ensures r.Filled? ==>
      && 2 <= r.outs + r.ins <= sg.Length && (if write then r.ins == 1 else r.outs == 1)
      && sg[0] == header && sg[r.outs + r.ins - 1] == status
      && Bytes(sg[1..r.outs + r.ins - 1]) == Bytes(Seen(list))
    ensures r.Filled? && !sized ==> sg[1..r.outs + r.ins - 1] == Seen(list)
    ensures r.Filled? && sized && sizeMax == 0 ==> r.outs + r.ins == 2
    ensures r.Filled? && sized && sizeMax > 0 ==>
      && r.outs + r.ins - 2 <= segMax
      && forall i :: 1 <= i < r.outs + r.ins - 1 ==> 0 < sg[i].len <= sizeMax
  {
    var next: nat;
    if sized {
      var end;
      end, next := CutInto(sg, Seen(list), sizeMax, segMax);
      if end == TooMany {
        return Refused;
      }
      if end == PastEnd || next >= sg.Length {
        return Overrun;
      }
    } else {
      next := CopyInto(sg, Seen(list));
    }
    ghost var data := sg[1..next];
    FillData(sized, Seen(list), sizeMax, segMax, data);
    sg[0] := header;
    sg[next] := status;
    assert sg[1..next] == data;
    assert forall i :: 1 <= i < next ==> sg[i] == data[i - 1];
    r := if write then Filled(next, 1) else Filled(1, next);
  }

  method CopyInto(sg: array<Sg>, list: seq<Sg>) returns (next: nat)
    requires sg.Length == VIRTIO_MAX_SG && |list| <= MAX_PHYS_SEGMENTS + 1
    modifies sg
    ensures 1 <= next < sg.Length && sg[1..next] == list
  {
    next := 1;
    for i := 0 to |list|
      invariant next == i + 1 && sg[1..next] == list[..i]
    {
      sg[next] := list[i];
      next := next + 1;
    }
  }

  /** How a loop over pieces ends: the list is done, it has more pieces than the device takes, or the
      next store would be past the end of the table. */
  datatype End = Done | TooMany | PastEnd

  /** Whether an element from sg[first] on stays within the device's limit. */
  predicate Takes(s: Sg, sizeMax: nat, segMax: nat, first: nat) {
    if sizeMax == 0 then s.len == 0 else first + |Cut(s, sizeMax)| <= segMax + 1
  }

  /** The inner loop: one element from sg[first] on. */
  method CutOne(sg: array<Sg>, s: Sg, sizeMax: nat, segMax: nat, first: nat) returns (end: End, next: nat)
    requires 1 <= first <= segMax + 1 && first <= sg.Length
    modifies sg
    ensures end == Done <==> Takes(s, sizeMax, segMax, first) && (sizeMax > 0 ==> first + |Cut(s, sizeMax)| <= sg.Length)
    ensures end == PastEnd ==> segMax >= sg.Length
    ensures end == TooMany ==> segMax < sg.Length
    ensures sg[..first] == old(sg[..first])
    ensures end == Done ==>
      if sizeMax == 0 then next == first
      else next == first + |Cut(s, sizeMax)| && sg[first..next] == Cut(s, sizeMax)
  {
    next := first;
    var addr: nat, len: nat := s.addr, s.len;
    while len > 0
      invariant first <= next <= segMax + 1 && next <= sg.Length
      invariant sg[..first] == old(sg[..first])
      invariant sizeMax > 0 ==> sg[first..next] + Cut(Sg(addr, len), sizeMax) == Cut(s, sizeMax)
      invariant sizeMax == 0 ==> len == s.len && (len == 0 ==> next == first)
      decreases segMax + 1 - next
    {
      if next > segMax {
        return TooMany, next;
      }
      if next >= sg.Length {
        return PastEnd, next;
      }
      ghost var was := sg[first..next];
      if len > sizeMax {
        sg[next] := Sg(addr, sizeMax);
        addr, len := addr + sizeMax, len - sizeMax;
      } else {
        sg[next] := Sg(addr, len);
        len := 0;
      }
      next := next + 1;
      assert sg[first..next] == was + [sg[next - 1]];
    }
    return Done, next;
  }

  method CutInto(sg: array<Sg>, list: seq<Sg>, sizeMax: nat, segMax: nat) returns (end: End, next: nat)
    requires sg.Length == VIRTIO_MAX_SG
    modifies sg
    ensures end == Done ==>
      && Split(list, sizeMax, segMax).Some? && 1 <= next <= sg.Length
      && sg[1..next] == Split(list, sizeMax, segMax).value
    ensures end == TooMany ==> Split(list, sizeMax, segMax).None? && segMax < sg.Length
    ensures end == PastEnd ==> !InBounds(true, list, sizeMax, segMax)
  {
    hide Cut;
    next := 1;
    for i := 0 to |list|
      invariant 1 <= next <= segMax + 1 && next <= sg.Length
      invariant sizeMax > 0 ==> sg[1..next] == CutAll(list[..i], sizeMax)
      invariant sizeMax == 0 ==> next == 1 && AllEmpty(list[..i])
    {
      if sizeMax > 0 {
        CutGrows(list, i + 1, sizeMax);
        assert list[..i + 1][..i] == list[..i];
      }
      ghost var first, was := next, sg[1..next];
      end, next := CutOne(sg, list[i], sizeMax, segMax, next);
      if end != Done {
        return;
      }
      assert sg[1..first] == was;
      assert sg[1..next] == sg[1..first] + sg[first..next];
    }
    assert list[..|list|] == list;
    return Done, next;
  }
}
