/**
 The descriptor pool that both rings thread through an array of next links:
 one list of free nodes, and one chain of nodes for every outstanding buffer,
 named by its first node.
 */
module DescPool {

  datatype Pool = Pool(next: seq<nat>, head: nat, free: seq<nat>, chains: map<nat, seq<nat>>)

  predicate Distinct(s: seq<nat>) {
    forall i, j :: 0 <= i < j < |s| ==> s[i] != s[j]
  }

  predicate Below(s: seq<nat>, num: nat) {
    forall i :: 0 <= i < |s| ==> s[i] < num
  }

  /** Following next from each node of s leads to the node after it in s. */
  ghost predicate Links(next: seq<nat>, s: seq<nat>)
    requires Below(s, |next|)
  {
    forall i :: 0 <= i < |s| - 1 ==> next[s[i]] == s[i + 1]
  }

  ghost predicate ListOk(next: seq<nat>, s: seq<nat>) {
    Below(s, |next|) && Distinct(s) && Links(next, s)
  }

  /** A chain runs from the node it is named by. */
  ghost predicate ChainOk(next: seq<nat>, id: nat, c: seq<nat>) {
    |c| >= 1 && c[0] == id && ListOk(next, c)
  }

  ghost predicate ListsOk(num: nat, p: Pool) {
    && num > 0 && |p.next| == num && p.head < num
    && Below(p.next, num)
    && ListOk(p.next, p.free)
    && (p.free != [] ==> p.head == p.free[0])
    && (forall id :: id in p.chains ==> ChainOk(p.next, id, p.chains[id]))
  }

  /** No node is on two lists. */
  ghost predicate Apart(p: Pool) {
    && (forall id, x :: id in p.chains && x in p.chains[id] ==> x !in p.free)
    && (forall id, id', x :: id in p.chains && id' in p.chains && x in p.chains[id] && x in p.chains[id'] ==> id == id')
  }

  /** Every node is on some list. */
  ghost predicate Covers(num: nat, p: Pool) {
    forall x: nat :: x < num && x !in p.free ==> exists id :: id in p.chains && x in p.chains[id]
  }

  /** The free list and the chains partition the nodes. */
  ghost predicate PoolOk(num: nat, p: Pool) {
    ListsOk(num, p) && Apart(p) && Covers(num, p)
  }

  function Fresh(num: nat): (p: Pool)
    requires num > 0
  {
    Pool(seq(num, i requires 0 <= i < num => if i == num - 1 then 0 else i + 1), 0, seq(num, i requires 0 <= i => i), map[])
  }

  lemma FreshOk(num: nat)
    requires num > 0
    ensures PoolOk(num, Fresh(num)) && |Fresh(num).free| == num
  {
    var p := Fresh(num);
    forall x: nat | x < num
      ensures x in p.free
    {
      assert p.free[x] == x;
    }
  }

  /** The node reached after k steps from the head of the free list. */
  function FreeAt(p: Pool, k: nat): (r: nat)
    requires k <= |p.free| && Below(p.free, |p.next|)
  {
    if k < |p.free| then p.free[k]
    else if k == 0 then p.head
    else p.next[p.free[k - 1]]
  }

  /** Takes the first n free nodes as one chain; no link changes. */
  function Take(p: Pool, n: nat): (r: Pool)
    requires 1 <= n <= |p.free| && Below(p.free, |p.next|)
  {
    Pool(p.next, FreeAt(p, n), p.free[n..], p.chains[p.free[0] := p.free[..n]])
  }

  /** Gives chain id back: its last node is linked to the old free list. */
  function Put(p: Pool, id: nat): (r: Pool)
    requires id in p.chains && |p.chains[id]| >= 1 && Below(p.chains[id], |p.next|)
  {
    var c := p.chains[id];
    Pool(p.next[c[|c| - 1] := p.head], id, c + p.free, p.chains - {id})
  }

  lemma FreeNotHead(num: nat, p: Pool)
    requires PoolOk(num, p) && p.free != []
    ensures p.free[0] !in p.chains
  {
    assert p.free[0] in p.free;
    assert forall id :: id in p.chains ==> p.chains[id][0] == id && id in p.chains[id];
  }

  lemma TakeListsOk(num: nat, p: Pool, n: nat)
    requires PoolOk(num, p) && 1 <= n <= |p.free|
    ensures ListsOk(num, Take(p, n))
  {
    var q := Take(p, n);
    assert forall i :: 0 <= i < |p.free| - n ==> q.free[i] == p.free[i + n];
  }

  lemma TakeApart(num: nat, p: Pool, n: nat)
    requires PoolOk(num, p) && 1 <= n <= |p.free|
    ensures Apart(Take(p, n))
  {
    var q := Take(p, n);
    FreeNotHead(num, p);
    assert forall x :: x in q.free ==> x in p.free;
    assert forall x :: x in p.free[..n] ==> x in p.free;
    forall x | x in p.free[..n]
      ensures x !in q.free
    {
      assert forall j :: 0 <= j < |q.free| ==> q.free[j] == p.free[j + n];
    }
  }

  lemma TakeCovers(num: nat, p: Pool, n: nat)
    requires PoolOk(num, p) && 1 <= n <= |p.free|
    ensures Covers(num, Take(p, n))
  {
    var q := Take(p, n);
    FreeNotHead(num, p);
    assert p.free == p.free[..n] + q.free;
    forall x: nat | x < num && x !in q.free
      ensures exists id :: id in q.chains && x in q.chains[id]
    {
      if x in p.free {
        assert x in q.chains[p.free[0]];
      } else {
        var id :| id in p.chains && x in p.chains[id];
        assert id in q.chains && x in q.chains[id];
      }
    }
  }

  lemma TakeKeepsPool(num: nat, p: Pool, n: nat)
    requires PoolOk(num, p) && 1 <= n <= |p.free|
    ensures PoolOk(num, Take(p, n))
    ensures p.free[0] !in p.chains
  {
    FreeNotHead(num, p);
    TakeListsOk(num, p, n);
    TakeApart(num, p, n);
    TakeCovers(num, p, n);
  }

  lemma PutListsOk(num: nat, p: Pool, id: nat)
    requires PoolOk(num, p) && id in p.chains
    ensures ListsOk(num, Put(p, id))
  {
    var q := Put(p, id);
    var c := p.chains[id];
    var last := c[|c| - 1];
    assert last in c;
    assert ListOk(q.next, q.free) by {
      assert forall i :: 0 <= i < |c| ==> c[i] in c;
      assert forall i :: 0 <= i < |p.free| ==> p.free[i] in p.free;
    }
    forall id' | id' in q.chains
      ensures ChainOk(q.next, id', q.chains[id'])
    {
      var c' := p.chains[id'];
      assert forall i :: 0 <= i < |c'| ==> c'[i] in c';
      assert forall i :: 0 <= i < |c'| ==> c'[i] != last;
    }
  }

  lemma PutKeepsPool(num: nat, p: Pool, id: nat)
    requires PoolOk(num, p) && id in p.chains
    ensures PoolOk(num, Put(p, id))
  {
    var q := Put(p, id);
    PutListsOk(num, p, id);
    forall x: nat | x < num && x !in q.free
      ensures exists id' :: id' in q.chains && x in q.chains[id']
    {
      assert x !in p.free && x !in p.chains[id];
      var id' :| id' in p.chains && x in p.chains[id'];
      assert id' in q.chains && x in q.chains[id'];
    }
  }

  ghost function Upto(num: nat): (s: set<nat>)
    ensures |s| == num && forall x: nat :: x in s <==> x < num
  {
    if num == 0 then {} else Upto(num - 1) + {num - 1}
  }

  ghost function Elements(s: seq<nat>): (e: set<nat>)
    ensures forall x: nat :: x in e <==> x in s
  {
    if s == [] then {} else Elements(s[..|s| - 1]) + {s[|s| - 1]}
  }

  lemma {:induction false} CountElements(s: seq<nat>)
    requires Distinct(s)
    ensures |Elements(s)| == |s|
  {
    if s != [] {
      CountElements(s[..|s| - 1]);
      assert s[|s| - 1] !in s[..|s| - 1];
    }
  }

  lemma {:induction false} SubsetSize(s: set<nat>, t: set<nat>)
    requires s <= t
    ensures |s| <= |t|
  {
    if s != {} {
      var x :| x in s;
      SubsetSize(s - {x}, t - {x});
    }
  }

  lemma OneMore(num: nat, s: set<nat>, x: nat)
    requires x < num && x !in s && forall y :: y in s ==> y < num
    ensures |s| < num
  {
    SubsetSize(s + {x}, Upto(num));
  }

  lemma DistinctFits(num: nat, s: seq<nat>)
    requires Distinct(s) && Below(s, num)
    ensures |s| <= num
  {
    CountElements(s);
    SubsetSize(Elements(s), Upto(num));
  }

  /** A list without repetition that holds every number below num has num entries. */
  lemma ListOfAll(num: nat, s: seq<nat>)
    requires Distinct(s) && Below(s, num) && forall x: nat :: x < num ==> x in s
    ensures |s| == num
  {
    assert Elements(s) == Upto(num);
    CountElements(s);
  }
}
