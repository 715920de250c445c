/** The view of online peers: missed-check counters refine what the trace of events says. */
module ActiveView {
  import opened Bytes
  import opened Sorting
  import opened Types

  /** Missed checks per member. */
  type Members = map<PeerId, nat>

  function Seeded(ms: Members, ids: seq<PeerId>): (r: Members)
    ensures forall p :: p in r <==> p in ms || (p in ids && p != NO_PEER)
    ensures forall p :: p in r ==> r[p] == if p in ms then ms[p] else 0
  {
    if ids == [] then ms
    else
      assert ids == ids[..|ids| - 1] + [ids[|ids| - 1]];
      var before := Seeded(ms, ids[..|ids| - 1]);
      var id := ids[|ids| - 1];
      if id == NO_PEER || id in before then before else before[id := 0]
  }

  function Checked(ms: Members, local: PeerId, deadAfter: nat): Members {
    map p | p in ms && (p == local || ms[p] + 1 < deadAfter) :: if p == local then ms[p] else ms[p] + 1
  }

  function Dead(ms: Members, local: PeerId, deadAfter: nat): set<PeerId> {
    set p | p in ms && p != local && ms[p] + 1 >= deadAfter
  }

  class ActiveView {
    const local: PeerId
    const deadAfter: nat
    var members: Members

    ghost predicate Valid()
      reads this
    {
      local in members && deadAfter >= 1
    }

    constructor (local: PeerId, deadAfter: nat)
      requires deadAfter >= 1
      ensures Valid() && members == map[local := 0] && this.local == local && this.deadAfter == deadAfter
    {
      this.local, this.deadAfter, members := local, deadAfter, map[local := 0];
    }

    method Seed(ids: seq<PeerId>)
      requires Valid()
      modifies this
      ensures Valid() && members == Seeded(old(members), ids)
    {
      for i := 0 to |ids|
        invariant Valid() && members == Seeded(old(members), ids[..i])
      {
        assert ids[..i + 1][..i] == ids[..i];
        if ids[i] != NO_PEER && ids[i] !in members {
          members := members[ids[i] := 0];
        }
      }
      assert ids[..|ids|] == ids;
    }

    /** True exactly when the peer was absent. */
    method RecordHeartbeat(id: PeerId) returns (added: bool)
      requires Valid()
      modifies this
      ensures Valid() && members == old(members)[id := 0]
      ensures added <==> id !in old(members)
    {
      added := id !in members;
      members := members[id := 0];
    }

    method CheckLiveness() returns (evicted: set<PeerId>)
      requires Valid()
      modifies this
      ensures Valid() && members == Checked(old(members), local, deadAfter)
      ensures evicted == Dead(old(members), local, deadAfter)
    {
      members, evicted := CheckEach(members, local, deadAfter);
    }

    /** The loop over the members: count one more missed check, and delete whoever has missed too many. */
    static method CheckEach(ms: Members, local: PeerId, deadAfter: nat) returns (kept: Members, evicted: set<PeerId>)
      ensures kept == Checked(ms, local, deadAfter) && evicted == Dead(ms, local, deadAfter)
    {
      kept, evicted := map[], {};
      var rest := ms.Keys;
      while rest != {}
        invariant rest <= ms.Keys
        invariant forall q :: q in kept <==> q in ms && q !in rest && (q == local || ms[q] + 1 < deadAfter)
        invariant forall q :: q in kept ==> kept[q] == if q == local then ms[q] else ms[q] + 1
        invariant forall q :: q in evicted <==> q in ms && q !in rest && q != local && ms[q] + 1 >= deadAfter
        decreases |rest|
      {
        var p :| p in rest;
        if p == local {
          kept := kept[p := ms[p]];
        } else if ms[p] + 1 >= deadAfter {
          evicted := evicted + {p};
        } else {
          kept := kept[p := ms[p] + 1];
        }
        rest := rest - {p};
      }
      assert kept == Checked(ms, local, deadAfter);
      assert evicted == Dead(ms, local, deadAfter);
    }

    method Evict(id: PeerId)
      requires Valid()
      modifies this
      ensures Valid() && members == if id == local then old(members) else old(members) - {id}
    {
      if id != local && id in members {
        members := members - {id};
      }
    }

    /** The sorted snapshot that the election runs over. */
    method SortedMembers() returns (snapshot: seq<PeerId>)
      ensures StrictlySorted(Less, snapshot)
      ensures forall p :: p in snapshot <==> p in members
    {
      snapshot := [];
      var rest := members.Keys;
      while rest != {}
        invariant StrictlySorted(Less, snapshot)
        invariant rest <= members.Keys && forall p :: p in snapshot <==> p in members && p !in rest
        decreases |rest|
      {
        var p :| p in rest;
        snapshot := Inserted(snapshot, p);
        rest := rest - {p};
      }
    }
  }

  method Inserted(s: seq<PeerId>, p: PeerId) returns (r: seq<PeerId>)
    requires StrictlySorted(Less, s) && p !in s
    ensures StrictlySorted(Less, r) && forall q :: q in r <==> q in s || q == p
  {
    InsertStrict(s, p);
    r := Insert(Less, s, p);
  }

  /** Inserting an absent peer keeps a snapshot strictly sorted. */
  lemma {:induction false} InsertStrict(s: seq<PeerId>, p: PeerId)
    requires StrictlySorted(Less, s) && p !in s
    ensures StrictlySorted(Less, Insert(Less, s, p))
    ensures forall q :: q in Insert(Less, s, p) <==> q in s || q == p
  {
    if s != [] {
      if Less(p, s[0]) {
        forall j | 0 < j < |s|
          ensures Less(p, s[j])
        {
          LessTransitive(p, s[0], s[j]);
        }
      } else {
        LessTotal(p, s[0]);
        InsertStrict(s[1..], p);
        var t := Insert(Less, s[1..], p);
        forall j | 0 <= j < |t|
          ensures Less(s[0], t[j])
        {
          assert t[j] in t;
        }
      }
    }
  }

  // ----- the trace -----

  datatype Event = Seed(ids: seq<PeerId>) | Heartbeat(id: PeerId) | Check | Evict(id: PeerId)

  /** The counters after a trace, as the methods leave them. */
  function After(local: PeerId, deadAfter: nat, trace: seq<Event>): Members {
    if trace == [] then map[local := 0]
    else
      var before := After(local, deadAfter, trace[..|trace| - 1]);
      match trace[|trace| - 1]
      case Seed(ids) => Seeded(before, ids)
      case Heartbeat(id) => before[id := 0]
      case Check => Checked(before, local, deadAfter)
      case Evict(id) => if id == local then before else before - {id}
  }

  /** Liveness checks from position `k` on. */
  function ChecksFrom(trace: seq<Event>, k: nat): nat
    requires k <= |trace|
    decreases |trace| - k
  {
    if k == |trace| then 0 else (if trace[k].Check? then 1 else 0) + ChecksFrom(trace, k + 1)
  }

  /** Reference: a sign of life from `p` is still fresh and no eviction followed it. */
  ghost predicate Online(deadAfter: nat, trace: seq<Event>, p: PeerId)
    decreases |trace|
  {
    exists k ::
      0 <= k < |trace| && Refreshes(deadAfter, trace, k, p) && ChecksFrom(trace, k + 1) < deadAfter
        && NoEvictionAfter(trace, k, p)
  }

  /** A heartbeat always counts; a seed counts only for a peer that was offline. */
  ghost predicate Refreshes(deadAfter: nat, trace: seq<Event>, k: nat, p: PeerId)
    requires k < |trace|
    decreases |trace|, 0
  {
    match trace[k]
    case Heartbeat(id) => id == p
    case Seed(ids) => p in ids && p != NO_PEER && !Online(deadAfter, trace[..k], p)
    case _ => false
  }

  ghost predicate NoEvictionAfter(trace: seq<Event>, k: nat, p: PeerId) {
    forall i :: k < i < |trace| ==> trace[i] != Evict(p)
  }

  /** `k` is a sign of life that still counts at the end of the trace. */
  ghost predicate Counts(deadAfter: nat, trace: seq<Event>, k: nat, p: PeerId) {
    k < |trace| && Refreshes(deadAfter, trace, k, p) && ChecksFrom(trace, k + 1) < deadAfter
      && NoEvictionAfter(trace, k, p)
  }

  lemma {:induction false} ChecksAppend(trace: seq<Event>, e: Event, k: nat)
    requires k <= |trace|
    ensures ChecksFrom(trace + [e], k) == ChecksFrom(trace, k) + (if e.Check? then 1 else 0)
    decreases |trace| - k
  {
    var t := trace + [e];
    if k == |trace| {
      assert t[k] == e;
      assert ChecksFrom(t, k + 1) == 0;
    } else {
      assert t[k] == trace[k];
      ChecksAppend(trace, e, k + 1);
    }
  }

  /** An earlier sign of life counts after one more event exactly when it counted before and the event leaves it. */
  lemma CountsAppend(deadAfter: nat, trace: seq<Event>, e: Event, k: nat, p: PeerId)
    requires k < |trace|
    ensures Counts(deadAfter, trace + [e], k, p) <==>
            && Counts(deadAfter, trace, k, p) && e != Evict(p)
            && ChecksFrom(trace, k + 1) + (if e.Check? then 1 else 0) < deadAfter
  {
    var t := trace + [e];
    ChecksAppend(trace, e, k + 1);
    assert t[k] == trace[k] && t[..k] == trace[..k];
    assert Refreshes(deadAfter, t, k, p) <==> Refreshes(deadAfter, trace, k, p);
    assert NoEvictionAfter(t, k, p) <==> NoEvictionAfter(trace, k, p) && e != Evict(p) by {
      assert forall i :: k < i < |trace| ==> t[i] == trace[i];
      assert t[|trace|] == e;
    }
  }

  lemma NewCounts(deadAfter: nat, trace: seq<Event>, e: Event, p: PeerId)
    requires deadAfter >= 1
    ensures Counts(deadAfter, trace + [e], |trace|, p) <==>
            e == Heartbeat(p) || (e.Seed? && p in e.ids && p != NO_PEER && !Online(deadAfter, trace, p))
  {
    var t := trace + [e];
    assert t[|trace|] == e && t[..|trace|] == trace;
    assert ChecksFrom(t, |t|) == 0;
  }

  /** The counter is the number of checks since the last sign of life that counts. */
  ghost predicate Agrees(deadAfter: nat, trace: seq<Event>, p: PeerId, ms: Members) {
    && (forall k: nat :: k < |trace| && Counts(deadAfter, trace, k, p) ==> p in ms && ms[p] <= ChecksFrom(trace, k + 1))
    && (p in ms ==> exists k: nat :: k < |trace| && Counts(deadAfter, trace, k, p) && ms[p] == ChecksFrom(trace, k + 1))
  }

  lemma OnlineIsCounts(deadAfter: nat, trace: seq<Event>, p: PeerId)
    ensures Online(deadAfter, trace, p) <==> exists k: nat :: k < |trace| && Counts(deadAfter, trace, k, p)
  {
    hide Refreshes, ChecksFrom, NoEvictionAfter;
    if Online(deadAfter, trace, p) {
      var k :| 0 <= k < |trace| && Refreshes(deadAfter, trace, k, p) && ChecksFrom(trace, k + 1) < deadAfter
                 && NoEvictionAfter(trace, k, p);
      assert Counts(deadAfter, trace, k, p);
    }
  }

  /** One more event's effect on one remote peer's counter. */
  lemma AfterStep(local: PeerId, deadAfter: nat, trace: seq<Event>, e: Event, p: PeerId)
    requires p != local
    ensures var ms, ms' := After(local, deadAfter, trace), After(local, deadAfter, trace + [e]);
            && (p in ms' <==>
                  || e == Heartbeat(p)
                  || (e.Seed? && p in e.ids && p != NO_PEER)
                  || (p in ms && e != Evict(p) && (e.Check? ==> ms[p] + 1 < deadAfter)))
            && (p in ms' ==> ms'[p] == if e == Heartbeat(p) || p !in ms then 0 else if e.Check? then ms[p] + 1
                else ms[p])
  {
    var t := trace + [e];
    assert t[..|t| - 1] == trace && t[|t| - 1] == e;
  }

  /** One more event keeps counter and trace in agreement. */
  lemma AgreesStep(local: PeerId, deadAfter: nat, trace: seq<Event>, e: Event, p: PeerId)
    requires deadAfter >= 1 && p != local
    requires Agrees(deadAfter, trace, p, After(local, deadAfter, trace))
    ensures Agrees(deadAfter, trace + [e], p, After(local, deadAfter, trace + [e]))
  {
    hide After, Counts, Online, ChecksFrom;
    AfterStep(local, deadAfter, trace, e, p);
    CountedStep(local, deadAfter, trace, e, p);
    var t := trace + [e];
    var ms, ms' := After(local, deadAfter, trace), After(local, deadAfter, t);
    OnlineIsCounts(deadAfter, trace, p);
    NewCounts(deadAfter, trace, e, p);
    if p in ms' {
      if p in ms && e != Heartbeat(p) {
        var k: nat :| k < |trace| && Counts(deadAfter, trace, k, p) && ms[p] == ChecksFrom(trace, k + 1);
        CountsWithin(deadAfter, trace, k, p);
        CountsAppend(deadAfter, trace, e, k, p);
        ChecksAppend(trace, e, k + 1);
        assert Counts(deadAfter, t, k, p) && ms'[p] == ChecksFrom(t, k + 1);
      } else {
        NoChecksAtEnd(t);
        assert Counts(deadAfter, t, |trace|, p) && ms'[p] == ChecksFrom(t, |trace| + 1);
      }
    }
  }

  lemma NoChecksAtEnd(t: seq<Event>)
    ensures ChecksFrom(t, |t|) == 0
  {
  }

  /** Every sign of life that counts keeps the peer in the view with a counter no larger than the checks since. */
  lemma CountedStep(local: PeerId, deadAfter: nat, trace: seq<Event>, e: Event, p: PeerId)
    requires deadAfter >= 1 && p != local
    requires Agrees(deadAfter, trace, p, After(local, deadAfter, trace))
    ensures var t, ms' := trace + [e], After(local, deadAfter, trace + [e]);
            forall k: nat :: k < |t| && Counts(deadAfter, t, k, p) ==> p in ms' && ms'[p] <= ChecksFrom(t, k + 1)
  {
    hide After, Counts, Online, ChecksFrom;
    var t := trace + [e];
    AfterStep(local, deadAfter, trace, e, p);
    OnlineIsCounts(deadAfter, trace, p);
    NewCounts(deadAfter, trace, e, p);
    var ms, ms' := After(local, deadAfter, trace), After(local, deadAfter, t);
    forall k: nat | k < |t| && Counts(deadAfter, t, k, p)
      ensures p in ms' && ms'[p] <= ChecksFrom(t, k + 1)
    {
      CountsWithin(deadAfter, t, k, p);
      if k < |trace| {
        CountsAppend(deadAfter, trace, e, k, p);
        ChecksAppend(trace, e, k + 1);
      }
    }
  }

  lemma CountsWithin(deadAfter: nat, trace: seq<Event>, k: nat, p: PeerId)
    requires Counts(deadAfter, trace, k, p)
    ensures k < |trace| && ChecksFrom(trace, k + 1) < deadAfter
  {
  }

  lemma {:induction false} CountersAgree(local: PeerId, deadAfter: nat, trace: seq<Event>, p: PeerId)
    requires deadAfter >= 1 && p != local
    ensures Agrees(deadAfter, trace, p, After(local, deadAfter, trace))
    decreases |trace|
  {
    if trace != [] {
      var init, e := trace[..|trace| - 1], trace[|trace| - 1];
      assert trace == init + [e];
      CountersAgree(local, deadAfter, init, p);
      AgreesStep(local, deadAfter, init, e, p);
    }
  }

  /** Liveness: a remote peer is in the view exactly when the trace says it is online, and the local node always is. */
  lemma ViewRefinesTrace(local: PeerId, deadAfter: nat, trace: seq<Event>, p: PeerId)
    requires deadAfter >= 1
    ensures p != local ==> (p in After(local, deadAfter, trace) <==> Online(deadAfter, trace, p))
    ensures local in After(local, deadAfter, trace)
  {
    LocalStays(local, deadAfter, trace);
    if p != local {
      CountersAgree(local, deadAfter, trace, p);
      OnlineIsCounts(deadAfter, trace, p);
    }
  }

  lemma {:induction false} LocalStays(local: PeerId, deadAfter: nat, trace: seq<Event>)
    ensures local in After(local, deadAfter, trace)
    decreases |trace|
  {
    if trace != [] {
      LocalStays(local, deadAfter, trace[..|trace| - 1]);
    }
  }
}
