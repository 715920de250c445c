/** The single-writer buffer: which proposals the next commit carries, and who may issue it. */
module SingleWriter {
  import opened Bytes
  import opened Sorting
  import opened Types
  import opened Election

  /** proposalRefLess: referenced proposals first, by reference; the rest by type and raw bytes. */
  predicate RefLess(a: BufferedProposal, b: BufferedProposal) {
    if a.ref == [] || b.ref == [] then
      if |a.ref| != |b.ref| then |a.ref| > |b.ref|
      else if a.kind != b.kind then TypeCode(a.kind) < TypeCode(b.kind)
      else Less(a.data, b.data)
    else Less(a.ref, b.ref)
  }

  lemma RefLessTransitive(a: BufferedProposal, b: BufferedProposal, c: BufferedProposal)
    requires RefLess(a, b) && RefLess(b, c)
    ensures RefLess(a, c)
  {
    if a.ref != [] && b.ref != [] && c.ref != [] {
      LessTransitive(a.ref, b.ref, c.ref);
    } else if a.kind == b.kind == c.kind && a.ref == b.ref == c.ref {
      LessTransitive(a.data, b.data, c.data);
    }
  }

  lemma RefLessNegativelyTransitive(a: BufferedProposal, b: BufferedProposal, c: BufferedProposal)
    requires RefLess(a, c)
    ensures RefLess(a, b) || RefLess(b, c)
  {
    LessTotal(a.ref, b.ref);
    LessTotal(a.data, b.data);
    if a.ref != [] && b.ref != [] && c.ref != [] && Less(b.ref, a.ref) {
      LessTransitive(b.ref, a.ref, c.ref);
    } else if a.ref == b.ref == c.ref == [] && a.kind == b.kind == c.kind && Less(b.data, a.data) {
      LessTransitive(b.data, a.data, c.data);
    }
  }

  lemma RefLessOrder()
    ensures StrictWeakOrder(RefLess)
  {
    forall a: BufferedProposal
      ensures !RefLess(a, a)
    {
      LessIrreflexive(a.ref);
      LessIrreflexive(a.data);
    }
    forall a, b, c | RefLess(a, b) && RefLess(b, c)
      ensures RefLess(a, c)
    {
      RefLessTransitive(a, b, c);
    }
    forall a, b, c | RefLess(a, c)
      ensures RefLess(a, b) || RefLess(b, c)
    {
      RefLessNegativelyTransitive(a, b, c);
    }
  }

  /** The mutable part of a SingleWriter, as a value. */
  datatype Writer = Writer(epoch: nat, proposals: seq<BufferedProposal>, suspended: set<PeerId>)

  function Fresh(epoch: nat): Writer {
    Writer(epoch, [], {})
  }

  predicate HasRef(s: seq<BufferedProposal>, ref: Bytes) {
    exists i :: 0 <= i < |s| && s[i].ref == ref
  }

  /** BufferProposal: drop a repeated reference, drop everything beyond the cap. */
  function Buffered(s: seq<BufferedProposal>, p: BufferedProposal, cap: nat): (r: seq<BufferedProposal>)
    ensures |s| <= cap ==> |r| <= cap
  {
    if (p.ref != [] && HasRef(s, p.ref)) || |s| >= cap then s else s + [p]
  }

  function BufferedAll(s: seq<BufferedProposal>, arrivals: seq<BufferedProposal>, cap: nat): (r: seq<BufferedProposal>)
    ensures |s| <= cap ==> |r| <= cap
    decreases arrivals
  {
    if arrivals == [] then s else BufferedAll(Buffered(s, arrivals[0], cap), arrivals[1..], cap)
  }

  /** SnapshotNextBatch: the deterministic candidate batch. */
  function NextBatch(s: seq<BufferedProposal>, cap: nat): (r: seq<BufferedProposal>)
    ensures |r| <= cap
    ensures |s| <= cap ==> multiset(r) == multiset(s)
  {
    var batch := Sort(RefLess, s);
    if |batch| > cap then batch[..cap] else batch
  }

  function CurrentHolder(g: Group, w: Writer, members: seq<PeerId>, cap: nat): Elected {
    Holder(g, w.epoch, members, NextBatch(w.proposals, cap), w.suspended)
  }

  predicate IsTokenHolder(g: Group, w: Writer, members: seq<PeerId>, cap: nat, local: PeerId) {
    CurrentHolder(g, w, members, cap) == Elected(local)
  }

  /** The proposals a commit's references name, in buffer order. */
  function TakenByRefs(s: seq<BufferedProposal>, refs: seq<Bytes>): (r: seq<BufferedProposal>)
    ensures forall p :: p in r <==> p in s && p.ref in refs
  {
    if s == [] then []
    else
      assert s == s[..|s| - 1] + [s[|s| - 1]];
      TakenByRefs(s[..|s| - 1], refs) + (if s[|s| - 1].ref in refs then [s[|s| - 1]] else [])
  }

  /** What DrainBatchByRefs leaves behind. */
  function DrainedByRefs(s: seq<BufferedProposal>, refs: seq<Bytes>): (r: seq<BufferedProposal>)
    ensures |r| <= |s|
    ensures forall p :: p in r <==> p in s && p.ref !in refs
  {
    if s == [] then []
    else
      assert s == s[..|s| - 1] + [s[|s| - 1]];
      DrainedByRefs(s[..|s| - 1], refs) + (if s[|s| - 1].ref in refs then [] else [s[|s| - 1]])
  }

  /** What DrainBatchByData leaves behind. */
  function DrainedByData(s: seq<BufferedProposal>, datas: seq<Bytes>): (r: seq<BufferedProposal>)
    ensures |r| <= |s|
    ensures forall p :: p in r <==> p in s && p.data !in datas
  {
    if s == [] then []
    else
      assert s == s[..|s| - 1] + [s[|s| - 1]];
      DrainedByData(s[..|s| - 1], datas) + (if s[|s| - 1].data in datas then [] else [s[|s| - 1]])
  }

  /** What DrainBatchByData takes out, in buffer order. */
  function TakenByData(s: seq<BufferedProposal>, datas: seq<Bytes>): (r: seq<BufferedProposal>)
    ensures forall p :: p in r <==> p in s && p.data in datas
  {
    if s == [] then []
    else
      assert s == s[..|s| - 1] + [s[|s| - 1]];
      TakenByData(s[..|s| - 1], datas) + (if s[|s| - 1].data in datas then [s[|s| - 1]] else [])
  }

  lemma {:induction false} DataConserves(s: seq<BufferedProposal>, datas: seq<Bytes>)
    ensures multiset(TakenByData(s, datas)) + multiset(DrainedByData(s, datas)) == multiset(s)
  {
    if s != [] {
      assert s == s[..|s| - 1] + [s[|s| - 1]];
      DataConserves(s[..|s| - 1], datas);
    }
  }

  /** Draining loses and invents nothing. */
  lemma {:induction false} DrainConserves(s: seq<BufferedProposal>, refs: seq<Bytes>)
    ensures multiset(TakenByRefs(s, refs)) + multiset(DrainedByRefs(s, refs)) == multiset(s)
  {
    if s != [] {
      assert s == s[..|s| - 1] + [s[|s| - 1]];
      DrainConserves(s[..|s| - 1], refs);
    }
  }

  /** The buffer as the source keeps it: fields updated in place. */
  class SingleWriter {
    const group: Group
    const local: PeerId
    const cap: nat
    var epoch: nat
    var proposals: seq<BufferedProposal>
    var suspended: set<PeerId>

    ghost predicate Valid()
      reads this
    {
      |proposals| <= cap
    }

    function State(): Writer
      reads this
    {
      Writer(epoch, proposals, suspended)
    }

    constructor (group: Group, local: PeerId, cap: nat, epoch: nat)
      ensures Valid() && State() == Fresh(epoch)
      ensures this.group == group && this.local == local && this.cap == cap
    {
      this.group, this.local, this.cap := group, local, cap;
      this.epoch, proposals, suspended := epoch, [], {};
    }

    method Suspend(p: PeerId)
      requires Valid()
      modifies this
      ensures Valid() && State() == old(State()).(suspended := old(suspended) + {p})
    {
      suspended := suspended + {p};
    }

    method BufferProposal(p: BufferedProposal)
      requires Valid()
      modifies this
      ensures Valid() && State() == old(State()).(proposals := Buffered(old(proposals), p, cap))
    {
      if p.ref != [] {
        for i := 0 to |proposals|
          invariant proposals == old(proposals) && epoch == old(epoch) && suspended == old(suspended)
          invariant forall j :: 0 <= j < i ==> proposals[j].ref != p.ref
        {
          if proposals[i].ref == p.ref {
            return;
          }
        }
      }
      if |proposals| >= cap {
        return;
      }
      proposals := proposals + [p];
    }

    method SnapshotNextBatch() returns (batch: seq<BufferedProposal>)
      requires Valid()
      ensures batch == NextBatch(proposals, cap)
      ensures multiset(batch) == multiset(proposals) && Sorted(RefLess, batch)
    {
      RefLessOrder();
      SortSorted(RefLess, proposals);
      batch := Sort(RefLess, proposals);
    }

    /** HolderForBatch: the holder for an explicit batch, under this node's epoch and suspensions. */
    method HolderForBatch(members: seq<PeerId>, batch: seq<BufferedProposal>) returns (r: Elected)
      ensures r == Holder(group, epoch, members, batch, suspended)
      ensures StrictlySorted(Less, members) && r.Elected? ==>
                IsFirst(group, epoch, EligibleSet(group, epoch, members, batch, suspended), r.holder)
    {
      r := ComputeHolder(group, epoch, members, batch, suspended);
      if StrictlySorted(Less, members) && r.Elected? {
        HolderIsFirst(group, epoch, members, batch, suspended, r.holder);
      }
    }

    method CurrentTokenHolder(members: seq<PeerId>) returns (r: Elected)
      requires Valid()
      ensures r == CurrentHolder(group, State(), members, cap)
    {
      var batch := SnapshotNextBatch();
      r := HolderForBatch(members, batch);
    }

    method DrainBatchByRefs(refs: seq<Bytes>) returns (drained: seq<BufferedProposal>)
      requires Valid()
      modifies this
      ensures Valid() && State() == old(State()).(proposals := DrainedByRefs(old(proposals), refs))
      ensures Sorted(RefLess, drained) && multiset(drained) == multiset(TakenByRefs(old(proposals), refs))
    {
      var taken, remaining := [], [];
      for i := 0 to |proposals|
        invariant proposals == old(proposals) && epoch == old(epoch) && suspended == old(suspended)
        invariant taken == TakenByRefs(proposals[..i], refs) && remaining == DrainedByRefs(proposals[..i], refs)
      {
        assert proposals[..i + 1][..i] == proposals[..i];
        if proposals[i].ref in refs {
          taken := taken + [proposals[i]];
        } else {
          remaining := remaining + [proposals[i]];
        }
      }
      assert proposals[..|proposals|] == proposals;
      proposals := remaining;
      RefLessOrder();
      SortSorted(RefLess, taken);
      drained := Sort(RefLess, taken);
    }

    method DrainBatchByData(datas: seq<Bytes>) returns (drained: seq<BufferedProposal>)
      requires Valid()
      modifies this
      ensures Valid() && State() == old(State()).(proposals := DrainedByData(old(proposals), datas))
      ensures drained == TakenByData(old(proposals), datas)
      ensures multiset(drained) + multiset(proposals) == multiset(old(proposals))
    {
      drained := [];
      var remaining := [];
      for i := 0 to |proposals|
        invariant proposals == old(proposals) && epoch == old(epoch) && suspended == old(suspended)
        invariant remaining == DrainedByData(proposals[..i], datas)
        invariant drained == TakenByData(proposals[..i], datas)
      {
        assert proposals[..i + 1][..i] == proposals[..i];
        if proposals[i].data !in datas {
          remaining := remaining + [proposals[i]];
        } else {
          drained := drained + [proposals[i]];
        }
      }
      assert proposals[..|proposals|] == proposals;
      DataConserves(proposals, datas);
      proposals := remaining;
    }

    method AdvanceEpoch(newEpoch: nat)
      modifies this
      ensures Valid() && State() == Fresh(newEpoch)
    {
      epoch, proposals, suspended := newEpoch, [], {};
    }
  }
}
