/**
 Reading a device's configuration field by field while the device may change it: the retry loop
 around an 8-bit generation counter.
 */
module ConfigRead {
  import opened Bits

  const GENERATIONS: nat := 256

  class ConfigSpace {
    /** The configuration after each number of changes. */
    const config: nat -> seq<nat>
    const size: nat
    /** Whether the device has a generation register: legacy devices have none. */
    const counted: bool
    var version: nat
    /** The device changes its configuration finitely often. */
    var changesLeft: nat

    ghost predicate Valid()
      reads this
    {
      forall v :: |config(v)| == size
    }

    constructor (config: nat -> seq<nat>, size: nat, counted: bool, changes: nat)
      requires forall v :: |config(v)| == size
      ensures Valid() && this.config == config && this.size == size && this.counted == counted && version == 0
    {
      this.config, this.size, this.counted := config, size, counted;
      version, changesLeft := 0, changes;
    }

    /** Between any two accesses the device may make any number of changes. */
    method DeviceRuns()
      modifies this
      ensures old(version) <= version && version + changesLeft == old(version + changesLeft)
    {
      var n: nat :| n <= changesLeft;
      version, changesLeft := version + n, changesLeft - n;
    }

    method GetGeneration() returns (gen: nat)
      modifies this
      ensures old(version) <= version && version + changesLeft == old(version + changesLeft)
      ensures gen == if counted then version % GENERATIONS else 0
    {
      DeviceRuns();
      gen := if counted then version % GENERATIONS else 0;
    }

    /** One access of the given width. */
    method GetField(offset: nat, bytes: nat, buf: array<nat>, at: nat)
      requires Valid() && offset + bytes <= size && at + bytes <= buf.Length
      modifies this, buf
      ensures old(version) <= version && version + changesLeft == old(version + changesLeft)
      ensures buf[..at] == old(buf[..at])
      ensures buf[at..at + bytes] == config(version)[offset..offset + bytes]
    {
      DeviceRuns();
      for i := 0 to bytes
        invariant buf[..at] == old(buf[..at])
        invariant buf[at..at + i] == config(version)[offset..offset + i]
        invariant old(version) <= version && version + changesLeft == old(version + changesLeft)
      {
        buf[at + i] := config(version)[offset + i];
        assert buf[at..at + i + 1] == buf[at..at + i] + [buf[at + i]];
      }
    }

    /** All the fields once: at are the versions that the bytes were read at. If nothing changed meanwhile,
        they are one version's. */
    method GetFields(offset: nat, buf: array<nat>, count: nat, bytes: nat, ghost first: nat) returns (ghost at: seq<nat>)
      requires Valid() && offset + count * bytes <= size && count * bytes <= buf.Length && first <= version
      modifies this, buf
      ensures old(version) <= version && version + changesLeft == old(version + changesLeft)
      ensures |at| == count * bytes && Ordered(first, at, version) && ReadAt(config, offset, at, buf[..count * bytes])
      ensures version == first ==> buf[..count * bytes] == config(first)[offset..offset + count * bytes]
    {
      hide Ordered, ReadAt;
      at := [];
      ReadNone(config, offset, first, version);
      for i := 0 to count
        invariant i * bytes <= count * bytes
        invariant old(version) <= version && version + changesLeft == old(version + changesLeft)
        invariant |at| == i * bytes && Ordered(first, at, version) && ReadAt(config, offset, at, buf[..i * bytes])
      {
        NextField(i, count, bytes);
        var next := bytes * i;
        ghost var was := version;
        GetField(offset + next, bytes, buf, next);
        OrderedUp(first, at, was, version);
        assert buf[..next + bytes] == buf[..next] + buf[next..next + bytes];
        ReadOn(config, offset, first, at, buf[..next], version, buf[next..next + bytes]);
        ghost var v := version;
        at := at + seq(bytes, _ => v);
      }
      if version == first {
        ReadOnce(config, offset, first, at, buf[..count * bytes]);
      }
    }

    /** virtio_cread_many. first and last are the versions at the two generation reads that agreed, and at
        those that the bytes of the pass between them were read at: what is returned is one version's
        configuration as long as the 8-bit counter did not go all the way round in between. */
    method ReadMany(offset: nat, buf: array<nat>, count: nat, bytes: nat)
      returns (ghost first: nat, ghost at: seq<nat>, ghost last: nat)
      requires Valid() && offset + count * bytes <= size && count * bytes <= buf.Length
      modifies this, buf
      ensures old(version) <= first <= last == version
      ensures Accepted(first, at, last, counted)
      ensures |at| == count * bytes && ReadAt(config, offset, at, buf[..count * bytes])
      ensures last == first || (counted && last - first < GENERATIONS) ==>
                buf[..count * bytes] == config(first)[offset..offset + count * bytes]
    {
      var gen := GetGeneration();
      first, at, last := version, [], version;
      var again := true;
      while again
        invariant old(version) <= last == version && gen == if counted then version % GENERATIONS else 0
        invariant !again ==>
          && old(version) <= first && Accepted(first, at, last, counted)
          && |at| == count * bytes && ReadAt(config, offset, at, buf[..count * bytes])
          && (last == first ==> buf[..count * bytes] == config(first)[offset..offset + count * bytes])
        decreases changesLeft, again
      {
        var before := gen;
        first := version;
        at := GetFields(offset, buf, count, bytes, first);
        gen := GetGeneration();
        last := version;
        again := gen != before;
      }
      if counted && last - first < GENERATIONS {
        SameGeneration(first, last);
      }
    }

    /** virtio_get_config: 1, 2 and 4 bytes are one access, 8 are two of 4, anything else is single
        bytes. */
    method Read(offset: nat, buf: array<nat>, len: nat) returns (ghost first: nat, ghost last: nat)
      requires Valid() && offset + len <= size && len <= buf.Length
      modifies this, buf
      ensures old(version) <= first <= last == version
      ensures len in {1, 2, 4} || last == first || (counted && last - first < GENERATIONS) ==>
                buf[..len] == config(first)[offset..offset + len]
    {
      if len == 1 || len == 2 || len == 4 {
        GetField(offset, len, buf, 0);
        first, last := version, version;
      } else if len == 8 {
        ghost var at;
        first, at, last := ReadMany(offset, buf, 2, 4);
      } else {
        ghost var at;
        first, at, last := ReadMany(offset, buf, len, 1);
      }
    }
  }

  lemma NextField(i: nat, count: nat, bytes: nat)
    requires i < count
    ensures bytes * i == i * bytes && (i + 1) * bytes == i * bytes + bytes && i * bytes + bytes <= count * bytes
  {
    var rest := count - (i + 1);
    Product(rest, bytes);
    assert count * bytes == (i + 1 + rest) * bytes;
    Distributes(i + 1, rest, bytes);
    Distributes(i, 1, bytes);
  }

  lemma SameGeneration(first: nat, last: nat)
    requires first <= last < first + GENERATIONS && last % GENERATIONS == first % GENERATIONS
    ensures last == first
  {
  }

  /** The versions that the bytes of one pass were read at, from first to last. */
  ghost predicate Ordered(first: nat, at: seq<nat>, last: nat) {
    && first <= last && (forall i :: 0 <= i < |at| ==> first <= at[i] <= last)
    && (forall i, j :: 0 <= i < j < |at| ==> at[i] <= at[j])
  }

  /** A pass between two generation reads that agree. */
  ghost predicate Accepted(first: nat, at: seq<nat>, last: nat, counted: bool) {
    Ordered(first, at, last) && (counted ==> first % GENERATIONS == last % GENERATIONS)
  }

  /** The bytes of a pass are those of the versions they were read at. */
  ghost predicate ReadAt(config: nat -> seq<nat>, offset: nat, at: seq<nat>, bytes: seq<nat>)
    requires forall v :: |config(v)| >= offset + |at|
  {
    |bytes| == |at| && forall k :: 0 <= k < |at| ==> bytes[k] == config(at[k])[offset + k]
  }

  lemma ReadNone(config: nat -> seq<nat>, offset: nat, first: nat, last: nat)
    requires first <= last && forall v :: |config(v)| >= offset
    ensures Ordered(first, [], last) && ReadAt(config, offset, [], [])
  {
  }

  lemma OrderedUp(first: nat, at: seq<nat>, last: nat, last': nat)
    requires Ordered(first, at, last) && last <= last'
    ensures Ordered(first, at, last') && first <= last' && forall i :: 0 <= i < |at| ==> at[i] <= last'
  {
  }

  /** The next field, read at version v. */
  lemma ReadOn(config: nat -> seq<nat>, offset: nat, first: nat, at: seq<nat>, bytes: seq<nat>, v: nat, more: seq<nat>)
    requires forall v :: |config(v)| >= offset + |at| + |more|
    requires ReadAt(config, offset, at, bytes) && more == config(v)[offset + |at|..offset + |at| + |more|]
    requires first <= v && forall i :: 0 <= i < |at| ==> at[i] <= v
    ensures ReadAt(config, offset, at + seq(|more|, _ => v), bytes + more)
    ensures Ordered(first, at, v) ==> Ordered(first, at + seq(|more|, _ => v), v)
  {
  }

  lemma ReadOnce(config: nat -> seq<nat>, offset: nat, first: nat, at: seq<nat>, bytes: seq<nat>)
    requires forall v :: |config(v)| >= offset + |at|
    requires ReadAt(config, offset, at, bytes) && Ordered(first, at, first)
    ensures bytes == config(first)[offset..offset + |at|]
  {
  }

  /** Every byte of the pass is what version v has in its place. */
  ghost predicate IsVersion(config: nat -> seq<nat>, at: seq<nat>, v: nat)
    requires forall v :: |config(v)| >= |at|
  {
    forall i :: 0 <= i < |at| ==> config(at[i])[i] == config(v)[i]
  }

  ghost predicate OneVersion(config: nat -> seq<nat>, first: nat, at: seq<nat>, last: nat) {
    (forall v :: |config(v)| >= |at|) ==> exists v :: first <= v <= last && IsVersion(config, at, v)
  }

  /** Whatever the configurations, with at most n changes between two generation reads every pass that
      the loop accepts returns the bytes of one version. */
  ghost predicate Untorn(n: nat, counted: bool) {
    forall config: nat -> seq<nat>, first: nat, at: seq<nat>, last: nat ::
      Accepted(first, at, last, counted) && last - first <= n ==> OneVersion(config, first, at, last)
  }

  /** A device that flips both of two bytes, read once before and once after: bytes of no version. */
  lemma TornPass(last: nat)
    requires last > 0
    ensures !OneVersion(v => if v == 0 then [0, 0] else [1, 1], 0, [0, last], last)
  {
    var config: nat -> seq<nat> := v => if v == 0 then [0, 0] else [1, 1];
    var at := [0, last];
    assert forall v :: |config(v)| >= |at|;
    forall v | 0 <= v <= last
      ensures !IsVersion(config, at, v)
    {
      assert at[0] == 0 && at[1] == last;
      assert config(at[0])[0] == 0 && config(at[1])[1] == 1;
    }
  }

  /** That is so exactly for fewer than 256 changes; without a generation register, for none. */
  lemma UntornExact(n: nat, counted: bool)
    ensures Untorn(n, counted) <==> n < (if counted then GENERATIONS else 1)
  {
    if n >= (if counted then GENERATIONS else 1) {
      var last := if counted then GENERATIONS else 1;
      assert Accepted(0, [0, last], last, counted);
      TornPass(last);
    } else {
      forall config: nat -> seq<nat>, first: nat, at: seq<nat>, last: nat |
        Accepted(first, at, last, counted) && last - first <= n
        ensures OneVersion(config, first, at, last)
      {
        if counted {
          SameGeneration(first, last);
        }
        if forall v :: |config(v)| >= |at| {
          assert IsVersion(config, at, first);
        }
      }
    }
  }
}
