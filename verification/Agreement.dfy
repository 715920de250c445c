/** What the election promises across nodes: the same proposals give one batch, one holder, one verdict. */
module Agreement {
  import opened Bytes
  import opened Sorting
  import opened Types
  import opened Election
  import opened SingleWriter

  // ----- arrival order -----

  /** Every proposal has a reference and no two share one. */
  ghost predicate DistinctlyReferenced(s: set<BufferedProposal>) {
    && (forall p :: p in s ==> p.ref != [])
    && (forall p, q :: p in s && q in s && p != q ==> p.ref != q.ref)
  }

  ghost function Set(s: seq<BufferedProposal>): set<BufferedProposal> {
    set p | p in s
  }

  ghost predicate NoRepeats(s: seq<BufferedProposal>) {
    forall i, j :: 0 <= i < j < |s| ==> s[i] != s[j]
  }

  lemma {:induction false} NoRepeatsSize(s: seq<BufferedProposal>)
    requires NoRepeats(s)
    ensures |Set(s)| == |s|
  {
    if s != [] {
      var init, last := s[..|s| - 1], s[|s| - 1];
      assert s == init + [last];
      assert Set(s) == Set(init) + {last};
      NoRepeatsSize(init);
    }
  }

  lemma {:induction false} NoRepeatsMultiset(s: seq<BufferedProposal>)
    requires NoRepeats(s)
    ensures multiset(s) == multiset(Set(s))
  {
    if s != [] {
      var init, last := s[..|s| - 1], s[|s| - 1];
      assert s == init + [last];
      assert Set(s) == Set(init) + {last};
      NoRepeatsMultiset(init);
    }
  }

  /** Buffering one more of a distinctly-referenced set that fits under the cap. */
  lemma BufferedOne(s: seq<BufferedProposal>, p: BufferedProposal, all: set<BufferedProposal>, cap: nat)
    requires NoRepeats(s) && Set(s) <= all && p in all
    requires DistinctlyReferenced(all) && |all| <= cap
    ensures NoRepeats(Buffered(s, p, cap)) && Set(Buffered(s, p, cap)) == Set(s) + {p}
  {
    if HasRef(s, p.ref) {
      var i :| 0 <= i < |s| && s[i].ref == p.ref;
      assert s[i] in Set(s);
      assert p in Set(s);
    } else {
      NoRepeatsSize(s);
      assert p !in Set(s);
      SubsetSize(Set(s) + {p}, all);
      assert |s| < cap;
      assert Set(s + [p]) == Set(s) + {p};
    }
  }

  /** Buffering distinctly-referenced arrivals within the cap keeps each of them once. */
  lemma {:induction false} BufferedAllCollects(s: seq<BufferedProposal>, arrivals: seq<BufferedProposal>,
                                               all: set<BufferedProposal>, cap: nat)
    requires NoRepeats(s) && Set(s) <= all && Set(arrivals) <= all
    requires DistinctlyReferenced(all) && |all| <= cap
    ensures NoRepeats(BufferedAll(s, arrivals, cap))
    ensures Set(BufferedAll(s, arrivals, cap)) == Set(s) + Set(arrivals)
    decreases arrivals
  {
    if arrivals == [] {
      assert Set(s) + Set(arrivals) == Set(s);
    } else {
      var p, rest := arrivals[0], arrivals[1..];
      assert arrivals == [p] + rest;
      assert Set(arrivals) == {p} + Set(rest);
      BufferedOne(s, p, all, cap);
      BufferedAllCollects(Buffered(s, p, cap), rest, all, cap);
    }
  }

  lemma {:induction false} SubsetSize<T>(a: set<T>, b: set<T>)
    requires a <= b
    ensures |a| <= |b|
  {
    if a != {} {
      var x :| x in a;
      SubsetSize(a - {x}, b - {x});
    }
  }

  /** Buffers with the same distinctly-referenced contents have the same batch. */
  lemma SameContentsSameBatch(x: seq<BufferedProposal>, y: seq<BufferedProposal>, cap: nat)
    requires multiset(x) == multiset(y)
    requires DistinctlyReferenced(Set(x))
    ensures NextBatch(x, cap) == NextBatch(y, cap)
  {
    RefLessOrder();
    SortSorted(RefLess, x);
    SortSorted(RefLess, y);
    forall p, q | p in multiset(x) && q in multiset(x) && p != q
      ensures RefLess(p, q) || RefLess(q, p)
    {
      assert p in Set(x) && q in Set(x);
      LessTotal(p.ref, q.ref);
    }
    SortedUnique(RefLess, Sort(RefLess, x), Sort(RefLess, y));
  }

  /** The same set of proposals, buffered in any order and with repeats, gives the same batch. */
  lemma SameSetSameBatch(a: seq<BufferedProposal>, b: seq<BufferedProposal>, cap: nat)
    requires Set(a) == Set(b)
    requires DistinctlyReferenced(Set(a))
    requires |Set(a)| <= cap
    ensures NextBatch(BufferedAll([], a, cap), cap) == NextBatch(BufferedAll([], b, cap), cap)
  {
    BufferedAllCollects([], a, Set(a), cap);
    BufferedAllCollects([], b, Set(a), cap);
    var x, y := BufferedAll([], a, cap), BufferedAll([], b, cap);
    assert Set(x) == Set(a) == Set(y) by {
      assert Set([]) == {};
    }
    NoRepeatsMultiset(x);
    NoRepeatsMultiset(y);
    SameContentsSameBatch(x, y, cap);
  }

  /** A full buffer takes nothing more. */
  lemma {:induction false} FullBufferStays(s: seq<BufferedProposal>, arrivals: seq<BufferedProposal>, cap: nat)
    requires |s| >= cap
    ensures BufferedAll(s, arrivals, cap) == s
    decreases arrivals
  {
    if arrivals != [] {
      FullBufferStays(s, arrivals[1..], cap);
    }
  }

  /** Arrivals beyond the cap leave the buffer full of some of them. */
  lemma {:induction false} OverflowFills(s: seq<BufferedProposal>, arrivals: seq<BufferedProposal>, cap: nat)
    requires NoRepeats(s + arrivals)
    requires DistinctlyReferenced(Set(s + arrivals))
    requires |s| <= cap <= |s| + |arrivals|
    ensures |BufferedAll(s, arrivals, cap)| == cap
    ensures Set(BufferedAll(s, arrivals, cap)) <= Set(s + arrivals)
    decreases arrivals
  {
    if |s| == cap {
      FullBufferStays(s, arrivals, cap);
    } else {
      var p, rest := arrivals[0], arrivals[1..];
      assert s + arrivals == (s + [p]) + rest;
      assert (s + arrivals)[|s|] == p;
      forall i | 0 <= i < |s|
        ensures s[i].ref != p.ref
      {
        assert (s + arrivals)[i] == s[i];
        assert s[i] in Set(s + arrivals) && p in Set(s + arrivals);
      }
      OverflowFills(s + [p], rest, cap);
    }
  }

  lemma {:induction false} BufferedAllAppend(s: seq<BufferedProposal>, a: seq<BufferedProposal>,
                                             b: seq<BufferedProposal>, cap: nat)
    ensures BufferedAll(s, a + b, cap) == BufferedAll(BufferedAll(s, a, cap), b, cap)
    decreases a
  {
    if a == [] {
      assert a + b == b;
    } else {
      assert (a + b)[1..] == a[1..] + b;
      BufferedAllAppend(Buffered(s, a[0], cap), a[1..], b, cap);
    }
  }

  lemma {:induction false} ListOf(s: set<BufferedProposal>) returns (l: seq<BufferedProposal>)
    ensures NoRepeats(l) && Set(l) == s
  {
    if s == {} {
      l := [];
    } else {
      var x :| x in s;
      var rest := ListOf(s - {x});
      l := [x] + rest;
      assert Set(l) == {x} + Set(rest);
      assert x !in Set(rest);
    }
  }

  ghost predicate OrderIndependent(s: set<BufferedProposal>, cap: nat) {
    forall a, b {:trigger BufferedAll([], a, cap), BufferedAll([], b, cap)} :: Set(a) == s && Set(b) == s ==>
      NextBatch(BufferedAll([], a, cap), cap) == NextBatch(BufferedAll([], b, cap), cap)
  }

  /** Arrival order is immaterial exactly when the proposals fit under the batching cap. */
  lemma OrderIndependentExactlyWithinCap(s: set<BufferedProposal>, cap: nat)
    requires DistinctlyReferenced(s)
    requires cap >= 1
    ensures OrderIndependent(s, cap) <==> |s| <= cap
  {
    if |s| <= cap {
      forall a, b | Set(a) == s && Set(b) == s
        ensures NextBatch(BufferedAll([], a, cap), cap) == NextBatch(BufferedAll([], b, cap), cap)
      {
        SameSetSameBatch(a, b, cap);
      }
    } else {
      var a, b := BeyondCapDiffers(s, cap);
    }
  }

  /** Beyond the cap a proposal is in or out of the batch by its arrival time alone. */
  lemma BeyondCapDiffers(s: set<BufferedProposal>, cap: nat)
    returns (a: seq<BufferedProposal>, b: seq<BufferedProposal>)
    requires DistinctlyReferenced(s)
    requires 1 <= cap < |s|
    ensures Set(a) == s && Set(b) == s
    ensures NextBatch(BufferedAll([], a, cap), cap) != NextBatch(BufferedAll([], b, cap), cap)
  {
    var x :| x in s;
    var rest := ListOf(s - {x});
    NoRepeatsSize(rest);
    assert x !in Set(rest) && DistinctlyReferenced(Set(rest));
    a, b := [x] + rest, rest + [x];
    SetOfAppend(x, rest);
    assert s == {x} + (s - {x});
    ArrivalTimeDecides(x, rest, cap);
  }

  lemma SetOfAppend(x: BufferedProposal, rest: seq<BufferedProposal>)
    ensures Set([x] + rest) == {x} + Set(rest) == Set(rest + [x])
  {
  }

  lemma ArrivalTimeDecides(x: BufferedProposal, rest: seq<BufferedProposal>, cap: nat)
    requires NoRepeats(rest) && DistinctlyReferenced(Set(rest))
    requires 1 <= cap <= |rest| && x !in rest
    ensures NextBatch(BufferedAll([], [x] + rest, cap), cap) != NextBatch(BufferedAll([], rest + [x], cap), cap)
  {
    FirstArrivalKept(x, rest, cap);
    LastArrivalDropped(x, rest, cap);
  }

  lemma FirstArrivalKept(x: BufferedProposal, rest: seq<BufferedProposal>, cap: nat)
    requires cap >= 1
    ensures x in NextBatch(BufferedAll([], [x] + rest, cap), cap)
  {
    assert ([x] + rest)[1..] == rest;
    assert Buffered([], x, cap) == [x];
    BufferedAllGrows([x], rest, cap);
    assert x in multiset(BufferedAll([x], rest, cap));
    assert x in multiset(NextBatch(BufferedAll([], [x] + rest, cap), cap));
  }

  lemma {:induction false} BufferedAllGrows(s: seq<BufferedProposal>, arrivals: seq<BufferedProposal>, cap: nat)
    ensures s <= BufferedAll(s, arrivals, cap)
    decreases arrivals
  {
    if arrivals != [] {
      BufferedAllGrows(Buffered(s, arrivals[0], cap), arrivals[1..], cap);
    }
  }

  lemma LastArrivalDropped(x: BufferedProposal, rest: seq<BufferedProposal>, cap: nat)
    requires NoRepeats(rest) && DistinctlyReferenced(Set(rest))
    requires cap <= |rest| && x !in rest
    ensures x !in NextBatch(BufferedAll([], rest + [x], cap), cap)
  {
    assert [] + rest == rest;
    OverflowFills([], rest, cap);
    BufferedAllAppend([], rest, [x], cap);
    FullBufferStays(BufferedAll([], rest, cap), [x], cap);
    var full := BufferedAll([], rest, cap);
    assert x !in Set(full);
    assert x !in multiset(full);
    assert x !in multiset(NextBatch(full, cap));
  }

  /** Nodes with the same epoch, view set, suspensions and proposal set elect the same holder. */
  lemma SameHolderEverywhere(
    g: Group, epoch: nat, cap: nat, suspended: set<PeerId>,
    view1: seq<PeerId>, arrivals1: seq<BufferedProposal>, view2: seq<PeerId>, arrivals2: seq<BufferedProposal>)
    requires StrictlySorted(Less, view1) && StrictlySorted(Less, view2) && Elements(view1) == Elements(view2)
    requires Set(arrivals1) == Set(arrivals2) && DistinctlyReferenced(Set(arrivals1)) && |Set(arrivals1)| <= cap
    ensures CurrentHolder(g, Writer(epoch, BufferedAll([], arrivals1, cap), suspended), view1, cap) ==
            CurrentHolder(g, Writer(epoch, BufferedAll([], arrivals2, cap), suspended), view2, cap)
  {
    SameSetSameBatch(arrivals1, arrivals2, cap);
    SameViewSameMembers(view1, view2);
  }

  lemma PeerOrder()
    ensures StrictWeakOrder<PeerId>(Less)
  {
    forall a: PeerId ensures !Less(a, a) { LessIrreflexive(a); }
    forall a, b, c | Less(a, b) && Less(b, c) ensures Less(a, c) { LessTransitive(a, b, c); }
    forall a, b, c | Less(a, c)
      ensures Less(a, b) || Less(b, c)
    {
      LessTotal(a, b);
      if Less(b, a) {
        LessTransitive(b, a, c);
      }
    }
  }

  /** The sorted snapshot is determined by the view's set of members. */
  lemma SameViewSameMembers(view1: seq<PeerId>, view2: seq<PeerId>)
    requires StrictlySorted(Less, view1) && StrictlySorted(Less, view2) && Elements(view1) == Elements(view2)
    ensures view1 == view2
  {
    PeerOrder();
    forall p
      ensures p in view1 <==> p in view2
    {
      assert p in view1 <==> p in Elements(view1);
      assert p in view2 <==> p in Elements(view2);
    }
    StrictlySortedUnique(Less, view1, view2);
  }

  // ----- committer and validator -----

  function ToMsg(p: BufferedProposal): ProposalMsg {
    ProposalMsg(p.kind, p.data, p.ref, p.operationId, p.target, [], p.requestId, p.groupType, p.categoryId,
                p.keyPackageHash)
  }

  function FromMsg(m: ProposalMsg): BufferedProposal {
    BufferedProposal(m.kind, m.data, m.ref, m.operationId, m.target, m.requestId, m.groupType, m.categoryId,
                     m.keyPackageHash)
  }

  /** proposalMsgsFromBatch. */
  function ToMsgs(batch: seq<BufferedProposal>): (r: seq<ProposalMsg>)
    ensures |r| == |batch| && forall i :: 0 <= i < |batch| ==> r[i] == ToMsg(batch[i])
  {
    if batch == [] then [] else ToMsgs(batch[..|batch| - 1]) + [ToMsg(batch[|batch| - 1])]
  }

  /** bufferedBatchFromProposalMsgs. */
  function FromMsgs(msgs: seq<ProposalMsg>): (r: seq<BufferedProposal>)
    ensures |r| == |msgs| && forall i :: 0 <= i < |msgs| ==> r[i] == FromMsg(msgs[i])
  {
    if msgs == [] then [] else FromMsgs(msgs[..|msgs| - 1]) + [FromMsg(msgs[|msgs| - 1])]
  }

  method ProposalMsgsFromBatch(batch: seq<BufferedProposal>) returns (out: seq<ProposalMsg>)
    ensures out == ToMsgs(batch)
    ensures FromMsgs(out) == batch
  {
    out := [];
    for i := 0 to |batch|
      invariant out == ToMsgs(batch[..i])
    {
      assert batch[..i + 1][..i] == batch[..i];
      out := out + [ToMsg(batch[i])];
    }
    assert batch[..|batch|] == batch;
    BatchRoundTrip(batch);
  }

  method BufferedBatchFromProposalMsgs(msgs: seq<ProposalMsg>) returns (out: seq<BufferedProposal>)
    ensures out == FromMsgs(msgs)
  {
    out := [];
    for i := 0 to |msgs|
      invariant out == FromMsgs(msgs[..i])
    {
      assert msgs[..i + 1][..i] == msgs[..i];
      out := out + [FromMsg(msgs[i])];
    }
    assert msgs[..|msgs|] == msgs;
  }

  /** A batch survives the trip through the wire form unchanged. */
  lemma BatchRoundTrip(batch: seq<BufferedProposal>)
    ensures FromMsgs(ToMsgs(batch)) == batch
  {
    var back := FromMsgs(ToMsgs(batch));
    forall i | 0 <= i < |batch|
      ensures back[i] == batch[i]
    {
      assert back[i] == FromMsg(ToMsg(batch[i]));
    }
  }

  /** The text form of a peer ID is empty only for the empty ID. */
  ghost predicate PeerTextNonEmpty(g: Group) {
    g.peerText(NO_PEER) == "" && forall p :: p != NO_PEER ==> g.peerText(p) != ""
  }

  /** handleCommitLocked's metadata test on a commit that carries proposals and names its sender. */
  predicate PassesMetadata(g: Group, w: Writer, members: seq<PeerId>, included: seq<ProposalMsg>, sender: PeerId) {
    var batch := FromMsgs(included);
    && Holder(g, w.epoch, members, batch, w.suspended) == Elected(sender)
    && !RemovesPeer(g, batch, sender)
  }

  /** A commit issued by a token holder from its whole buffer passes at every like-minded peer. */
  lemma CommitterValidatorAgree(g: Group, committer: Writer, validator: Writer, cap: nat,
                                members: seq<PeerId>, validatorMembers: seq<PeerId>, local: PeerId)
    requires PeerTextNonEmpty(g)
    requires StrictlySorted(Less, members) && StrictlySorted(Less, validatorMembers)
    requires Elements(members) == Elements(validatorMembers)
    requires committer.epoch == validator.epoch && committer.suspended == validator.suspended
    requires IsTokenHolder(g, committer, members, cap, local)
    ensures PassesMetadata(g, validator, validatorMembers, ToMsgs(NextBatch(committer.proposals, cap)), local)
  {
    var batch := NextBatch(committer.proposals, cap);
    BatchRoundTrip(batch);
    SameViewSameMembers(members, validatorMembers);
    HolderNotRemoved(g, committer.epoch, members, batch, committer.suspended);
  }

  /** Policy that looks only at the epoch. */
  ghost predicate PolicyIgnoresBatch(g: Group) {
    forall epoch, a, b :: Allowed(g, epoch, a, NO_PEER) == Allowed(g, epoch, b, NO_PEER) &&
      PolicyAnswers(g, epoch, a) == PolicyAnswers(g, epoch, b) &&
      forall p :: Allowed(g, epoch, a, p) == Allowed(g, epoch, b, p)
  }

  /** Some buffered removal that `p` does not repeat clears an eligible peer that outranks `local`. */
  ghost predicate AheadOnlyRemovedByOthers(g: Group, w: Writer, members: seq<PeerId>, batch: seq<BufferedProposal>,
                                           p: BufferedProposal, local: PeerId) {
    exists q :: q in members && q !in w.suspended && Allowed(g, w.epoch, batch, q)
      && Before(g, w.epoch, q, local)
      && g.peerText(q) in RemovedBy(batch) && g.peerText(q) !in RemovedBy([p])
  }

  lemma SingleProposalTrip(p: BufferedProposal)
    ensures FromMsgs([ToMsg(p)]) == [p]
  {
    assert [ToMsg(p)][..0] == [] && FromMsgs([]) == [];
  }

  /**
    * The synchronous paths decide holdership from a buffer `w` but commit one proposal `p`. An
    * add is buffered before that, if there is room; a removal is not. Either way the commit
    * passes at like-minded peers exactly when `p` does not remove the committer and no buffered
    * removal that `p` does not repeat was what cleared a higher-ranked peer out of the way.
    */
  lemma SyncCommitAcceptedExactlyWhen(g: Group, w: Writer, cap: nat, members: seq<PeerId>, local: PeerId,
                                      p: BufferedProposal)
    requires PeerTextNonEmpty(g) && PolicyIgnoresBatch(g)
    requires StrictlySorted(Less, members)
    requires IsTokenHolder(g, w, members, cap, local)
    ensures PassesMetadata(g, w, members, [ToMsg(p)], local) <==>
            && g.peerText(local) !in RemovedBy([p])
            && !AheadOnlyRemovedByOthers(g, w, members, NextBatch(w.proposals, cap), p, local)
  {
    var batch := NextBatch(w.proposals, cap);
    SingleProposalTrip(p);
    HolderIsFirst(g, w.epoch, members, batch, w.suspended, local);
    HolderIsFirst(g, w.epoch, members, [p], w.suspended, local);
    assert PolicyAnswers(g, w.epoch, [p]) by {
      assert Allowed(g, w.epoch, batch, NO_PEER) == Allowed(g, w.epoch, [p], NO_PEER);
    }
    SingleFirstExactlyWhen(g, w, members, batch, p, local);
    if Holder(g, w.epoch, members, [p], w.suspended) == Elected(local) {
      HolderNotRemoved(g, w.epoch, members, [p], w.suspended);
    }
  }

  lemma SingleFirstExactlyWhen(g: Group, w: Writer, members: seq<PeerId>, batch: seq<BufferedProposal>,
                               p: BufferedProposal, local: PeerId)
    requires PolicyIgnoresBatch(g)
    requires IsFirst(g, w.epoch, EligibleSet(g, w.epoch, members, batch, w.suspended), local)
    ensures IsFirst(g, w.epoch, EligibleSet(g, w.epoch, members, [p], w.suspended), local) <==>
            && g.peerText(local) !in RemovedBy([p])
            && !AheadOnlyRemovedByOthers(g, w, members, batch, p, local)
  {
    assert Allowed(g, w.epoch, batch, NO_PEER) == Allowed(g, w.epoch, [p], NO_PEER);
    assert forall q :: Allowed(g, w.epoch, batch, q) == Allowed(g, w.epoch, [p], q);
    var whole, single := EligibleSet(g, w.epoch, members, batch, w.suspended),
                         EligibleSet(g, w.epoch, members, [p], w.suspended);
    assert local in single <==> g.peerText(local) !in RemovedBy([p]);
    if AheadOnlyRemovedByOthers(g, w, members, batch, p, local) {
      var q :| q in members && q !in w.suspended && Allowed(g, w.epoch, batch, q)
        && Before(g, w.epoch, q, local) && g.peerText(q) in RemovedBy(batch) && g.peerText(q) !in RemovedBy([p]);
      assert q in single;
      BeforeAsymmetric(g, w.epoch, q, local);
    } else {
      forall q | q in single && q != local
        ensures Before(g, w.epoch, local, q)
      {
        BeforeTotal(g, w.epoch, local, q);
        assert q in whole || g.peerText(q) in RemovedBy(batch);
      }
    }
  }

  // ----- the failing inputs -----

  /** Two peers, the first ahead of the second, and a buffered removal of the first. */
  function TwoPeers(): Group {
    Group([], x => if x == [] then [] else x[|x| - 1..],
          p => if p == NO_PEER then "" else if p == [1] then "a" else "b", None)
  }

  const REMOVES_FIRST := BufferedProposal(Remove, [], [1], "", "a", "", "", "", [])
  const ADDS_THIRD := BufferedProposal(Add, [], [2], "", "c", "", "", "", [])
  const REMOVES_SECOND := BufferedProposal(Remove, [], [3], "", "b", "", "", "", [])

  lemma TwoPeersFacts()
    ensures var g := TwoPeers();
            PeerTextNonEmpty(g) && PolicyIgnoresBatch(g) && StrictlySorted(Less, [[1], [2]]) && Before(g, 0, [1], [2])
  {
    var g := TwoPeers();
    var x, y := g.id + LittleEndian64(0) + [1], g.id + LittleEndian64(0) + [2];
    assert x[|x| - 1..] == [1] && y[|y| - 1..] == [2];
  }

  /** With that removal in the buffer the second peer holds the token. */
  lemma SecondHolds(w: Writer, cap: nat)
    requires w == Writer(0, [REMOVES_FIRST], {}) || w == Writer(0, [REMOVES_FIRST, ADDS_THIRD], {})
    requires cap >= |w.proposals|
    ensures RemovedBy(NextBatch(w.proposals, cap)) == {"a"}
    ensures IsTokenHolder(TwoPeers(), w, [[1], [2]], cap, [2])
  {
    hide NextBatch;
    var g, batch := TwoPeers(), NextBatch(w.proposals, cap);
    TwoPeersFacts();
    RemovesOnlyFirst(w.proposals, cap);
    assert EligibleSet(g, 0, [[1], [2]], batch, {}) == {[2]};
    HolderIsFirst(g, 0, [[1], [2]], batch, {}, [2]);
  }

  lemma RemovesOnlyFirst(s: seq<BufferedProposal>, cap: nat)
    requires (s == [REMOVES_FIRST] || s == [REMOVES_FIRST, ADDS_THIRD]) && cap >= |s|
    ensures RemovedBy(NextBatch(s, cap)) == {"a"}
  {
    var batch := NextBatch(s, cap);
    assert multiset(batch) == multiset(s);
    assert REMOVES_FIRST in multiset(batch) && forall b :: b in batch ==> b in multiset(s);
  }

  lemma FirstWasAhead(w: Writer, batch: seq<BufferedProposal>)
    requires w.epoch == 0 && w.suspended == {} && RemovedBy(batch) == {"a"}
    ensures AheadOnlyRemovedByOthers(TwoPeers(), w, [[1], [2]], batch, ADDS_THIRD, [2])
  {
    hide PeerTextNonEmpty, PolicyIgnoresBatch, StrictlySorted;
    TwoPeersFacts();
    assert [1] in [[1], [2]] && TwoPeers().peerText([1]) == "a" && RemovedBy([ADDS_THIRD]) == {};
  }

  /** Every peer then refuses a synchronous add, whether the buffer had room for it or was full. */
  lemma SyncAddRefused(cap: nat)
    requires cap == 1 || cap == 2
    ensures var g, w := TwoPeers(), Writer(0, Buffered([REMOVES_FIRST], ADDS_THIRD, cap), {});
            IsTokenHolder(g, w, [[1], [2]], cap, [2]) && !PassesMetadata(g, w, [[1], [2]], [ToMsg(ADDS_THIRD)], [2])
  {
    var g, w := TwoPeers(), Writer(0, Buffered([REMOVES_FIRST], ADDS_THIRD, cap), {});
    hide PassesMetadata, IsTokenHolder, NextBatch, PeerTextNonEmpty;
    hide PolicyIgnoresBatch, StrictlySorted, AheadOnlyRemovedByOthers;
    TwoPeersFacts();
    SecondHolds(w, cap);
    FirstWasAhead(w, NextBatch(w.proposals, cap));
    SyncCommitAcceptedExactlyWhen(g, w, cap, [[1], [2]], [2], ADDS_THIRD);
  }

  /** And a holder's synchronous removal of itself, decided before it is buffered. */
  lemma SyncSelfRemovalRefused()
    ensures var g, w := TwoPeers(), Writer(0, [REMOVES_FIRST], {});
            IsTokenHolder(g, w, [[1], [2]], 2, [2]) && !PassesMetadata(g, w, [[1], [2]], [ToMsg(REMOVES_SECOND)], [2])
  {
    var g, w := TwoPeers(), Writer(0, [REMOVES_FIRST], {});
    hide PassesMetadata, IsTokenHolder, NextBatch, PeerTextNonEmpty, PolicyIgnoresBatch, StrictlySorted;
    TwoPeersFacts();
    SecondHolds(w, 2);
    assert REMOVES_SECOND in [REMOVES_SECOND] && g.peerText([2]) == "b";
    SyncCommitAcceptedExactlyWhen(g, w, 2, [[1], [2]], [2], REMOVES_SECOND);
  }

  // ----- set equality of references -----

  lemma SortedFormsDecide(a: seq<Bytes>, b: seq<Bytes>)
    ensures Sort(Less, a) == Sort(Less, b) <==> multiset(a) == multiset(b)
  {
    if multiset(a) == multiset(b) {
      var aa, bb := Sort(Less, a), Sort(Less, b);
      PeerOrder();
      SortSorted(Less, a);
      SortSorted(Less, b);
      forall p, q | p in multiset(aa) && q in multiset(aa) && p != q
        ensures Less(p, q) || Less(q, p)
      {
        LessTotal(p, q);
      }
      SortedUnique(Less, aa, bb);
    }
  }

  /** proposalRefSetsEqual: sorting both lists decides equality as multisets. */
  method ProposalRefSetsEqual(a: seq<Bytes>, b: seq<Bytes>) returns (same: bool)
    ensures same <==> multiset(a) == multiset(b)
  {
    SortedFormsDecide(a, b);
    same := SameLists(Sort(Less, a), Sort(Less, b));
  }

  method SameLists(a: seq<Bytes>, b: seq<Bytes>) returns (same: bool)
    ensures same <==> a == b
  {
    if |a| != |b| {
      return false;
    }
    for i := 0 to |a|
      invariant a[..i] == b[..i]
    {
      if a[i] != b[i] {
        return false;
      }
    }
    assert a == a[..|a|] && b == b[..|a|];
    return true;
  }
}
