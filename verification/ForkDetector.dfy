/** Fork detection: which of two branches wins, and when every node reaches the same verdict. */
module ForkDetector {
  import opened Bytes
  import opened Types

  datatype Announcement = Announcement(treeHash: Bytes, memberCount: int, epoch: nat, commitHash: Bytes,
                                       historyHash: Bytes)

  datatype BranchResult = BranchLocal | BranchRemote | BranchEqual

  /** Branches are told apart by history hash; the source keys them by its hexadecimal form. */
  predicate SameBranch(a: Announcement, b: Announcement) {
    a.historyHash == b.historyHash
  }

  /** compareBranchWeightWithSupport. */
  function Compare(local: Announcement, remote: Announcement, localSupport: int, remoteSupport: int, localInvalid: bool,
                   remoteInvalid: bool): BranchResult {
    if SameBranch(local, remote) then BranchEqual
    else if localInvalid != remoteInvalid then (if localInvalid then BranchRemote else BranchLocal)
    else if localSupport != remoteSupport then (if localSupport > remoteSupport then BranchLocal else BranchRemote)
    else if local.memberCount != remote.memberCount
            then (if local.memberCount > remote.memberCount then BranchLocal else BranchRemote)
    else if local.epoch != remote.epoch then (if local.epoch > remote.epoch then BranchLocal else BranchRemote)
    else if Less(remote.commitHash, local.commitHash) then BranchLocal
    else if Less(local.commitHash, remote.commitHash) then BranchRemote
    else if Less(local.treeHash, remote.treeHash) then BranchLocal
    else BranchRemote
  }

  // ----- the order behind the comparison -----

  datatype Weight = Weight(invalid: bool, support: int, memberCount: int, epoch: int, commitHash: Bytes,
                           treeHash: Bytes)

  /**
    * Lexicographic: valid before invalid, then more support,
    * members, epochs, the larger commit hash, the smaller tree hash.
    */
  predicate Outweighs(a: Weight, b: Weight) {
    if a.invalid != b.invalid then b.invalid
    else if a.support != b.support then a.support > b.support
    else if a.memberCount != b.memberCount then a.memberCount > b.memberCount
    else if a.epoch != b.epoch then a.epoch > b.epoch
    else if a.commitHash != b.commitHash then Less(b.commitHash, a.commitHash)
    else Less(a.treeHash, b.treeHash)
  }

  function WeightOf(a: Announcement, support: int, invalid: bool): Weight {
    Weight(invalid, support, a.memberCount, a.epoch, a.commitHash, a.treeHash)
  }

  /** Outweighing is a strict total order on weights. */
  lemma OutweighsStrictTotal(a: Weight, b: Weight, c: Weight)
    ensures !Outweighs(a, a)
    ensures Outweighs(a, b) ==> !Outweighs(b, a)
    ensures a == b || Outweighs(a, b) || Outweighs(b, a)
    ensures Outweighs(a, b) && Outweighs(b, c) ==> Outweighs(a, c)
  {
    LessIrreflexive(a.treeHash);
    LessTotal(a.treeHash, b.treeHash);
    LessTotal(a.commitHash, b.commitHash);
    if Less(a.treeHash, b.treeHash) {
      LessAsymmetric(a.treeHash, b.treeHash);
      if Less(b.treeHash, c.treeHash) {
        LessTransitive(a.treeHash, b.treeHash, c.treeHash);
      }
    }
    if Less(b.commitHash, a.commitHash) {
      LessAsymmetric(b.commitHash, a.commitHash);
      if Less(c.commitHash, b.commitHash) {
        LessTransitive(c.commitHash, b.commitHash, a.commitHash);
        LessIrreflexive(a.commitHash);
      }
    }
  }

  /** The comparison of different branches decides by weight; anything but a win is a loss, ties included. */
  lemma CompareByWeight(local: Announcement, remote: Announcement, ls: int, rs: int, li: bool, ri: bool)
    requires !SameBranch(local, remote)
    ensures Compare(local, remote, ls, rs, li, ri) ==
            if Outweighs(WeightOf(local, ls, li), WeightOf(remote, rs, ri)) then BranchLocal else BranchRemote
  {
    LessTotal(local.commitHash, remote.commitHash);
    LessIrreflexive(local.commitHash);
    if Less(remote.commitHash, local.commitHash) {
      LessAsymmetric(remote.commitHash, local.commitHash);
    }
  }

  /**
    * Two different branches, each side comparing: exactly one yields
    * if and only if their weights differ; on a full tie both do.
    */
  lemma ExactlyOneYields(a: Announcement, b: Announcement, sa: int, sb: int, ia: bool, ib: bool)
    requires !SameBranch(a, b)
    ensures (Compare(a, b, sa, sb, ia, ib) == BranchRemote) != (Compare(b, a, sb, sa, ib, ia) == BranchRemote) <==>
            WeightOf(a, sa, ia) != WeightOf(b, sb, ib)
    ensures WeightOf(a, sa, ia) == WeightOf(b, sb, ib) ==>
            Compare(a, b, sa, sb, ia, ib) == BranchRemote && Compare(b, a, sb, sa, ib, ia) == BranchRemote
  {
    CompareByWeight(a, b, sa, sb, ia, ib);
    CompareByWeight(b, a, sb, sa, ib, ia);
    OutweighsStrictTotal(WeightOf(a, sa, ia), WeightOf(b, sb, ib), WeightOf(a, sa, ia));
    OutweighsStrictTotal(WeightOf(b, sb, ib), WeightOf(a, sa, ia), WeightOf(b, sb, ib));
  }

  /** The failing input: two branches that differ in nothing but their history, with equal support; both sides yield. */
  lemma TieMovesBoth()
    ensures var a, b := Announcement([7], 2, 3, [9], [1]), Announcement([7], 2, 3, [9], [2]);
            && !SameBranch(a, b) && WeightOf(a, 1, false) == WeightOf(b, 1, false)
            && Compare(a, b, 1, 1, false, false) == BranchRemote && Compare(b, a, 1, 1, false, false) == BranchRemote
  {
    ExactlyOneYields(Announcement([7], 2, 3, [9], [1]), Announcement([7], 2, 3, [9], [2]), 1, 1, false, false);
  }

  // ----- the detector -----

  datatype BranchInfo = BranchInfo(announcement: Announcement, peers: set<PeerId>, firstSeenAt: int)

  datatype ForkEvent = ForkEvent(
    remotePeer: PeerId, localAnnounce: Announcement, remoteAnnounce: Announcement, remoteEpoch: nat,
    result: BranchResult, needExternalJoin: bool, winnerPeers: seq<PeerId>, partitionStartedAt: int)

  /** The detector's state as a value. */
  datatype Detector = Detector(local: Option<Announcement>, known: map<Bytes, BranchInfo>, invalid: set<Bytes>)

  function Updated(d: Detector, ann: Announcement): Detector {
    d.(known := if d.local.Some? && ann.epoch > d.local.value.epoch then map[] else d.known, local := Some(ann))
  }

  function Recorded(d: Detector, at: int, from: PeerId, ann: Announcement): BranchInfo {
    if ann.historyHash in d.known then
      var bi := d.known[ann.historyHash];
      BranchInfo(ann, bi.peers + {from}, bi.firstSeenAt)
    else BranchInfo(ann, {from}, at)
  }

  /** ProcessRemote's effect: the announcement is filed under its branch. */
  function Observed(d: Detector, at: int, from: PeerId, ann: Announcement): Detector {
    if d.local.None? then d else d.(known := d.known[ann.historyHash := Recorded(d, at, from, ann)])
  }

  /** The peers filed under a branch. */
  function Filed(d: Detector, h: Bytes): set<PeerId> {
    if h in d.known then d.known[h].peers else {}
  }

  /** branchSupportLocked: this node and the peers filed under the branch. */
  function Support(d: Detector, ann: Announcement): nat {
    1 + |Filed(d, ann.historyHash)|
  }

  predicate KnownInvalid(d: Detector, commitHash: Bytes) {
    commitHash != [] && commitHash in d.invalid
  }

  /** ProcessRemote's verdict, taken after the announcement is filed. */
  function Verdict(d: Detector, at: int, from: PeerId, ann: Announcement): BranchResult
    requires d.local.Some?
  {
    var d' := Observed(d, at, from, ann);
    Compare(d.local.value, ann, Support(d', d.local.value), |d'.known[ann.historyHash].peers|,
            KnownInvalid(d, d.local.value.commitHash), KnownInvalid(d, ann.commitHash))
  }

  class ForkDetector {
    var local: Option<Announcement>
    var known: map<Bytes, BranchInfo>
    var invalid: set<Bytes>

    function State(): Detector
      reads this
    {
      Detector(local, known, invalid)
    }

    constructor ()
      ensures State() == Detector(None, map[], {})
    {
      local, known, invalid := None, map[], {};
    }

    method UpdateLocal(ann: Announcement)
      modifies this
      ensures State() == Updated(old(State()), ann)
    {
      if local.Some? && ann.epoch > local.value.epoch {
        known := map[];
      }
      local := Some(ann);
    }

    method MarkInvalidCommit(commitHash: Bytes)
      modifies this`invalid
      ensures State() == if commitHash == [] then old(State())
              else old(State()).(invalid := old(invalid) + {commitHash})
    {
      if commitHash != [] {
        invalid := invalid + {commitHash};
      }
    }

    method Reset()
      modifies this`known
      ensures State() == old(State()).(known := map[])
    {
      known := map[];
    }

    /** File the announcement; report a fork event exactly for a different branch. */
    method ProcessRemote(at: int, from: PeerId, remoteEpoch: nat, ann: Announcement) returns (event: Option<ForkEvent>)
      modifies this`known
      ensures State() == Observed(old(State()), at, from, ann)
      ensures event.None? <==> local.None? || SameBranch(ann, local.value)
      ensures event.Some? ==>
                && event.value.remotePeer == from && event.value.remoteEpoch == remoteEpoch
                && Some(event.value.localAnnounce) == local && event.value.remoteAnnounce == ann
      ensures event.Some? ==> event.value.result == Verdict(old(State()), at, from, ann)
      ensures event.Some? ==> (event.value.needExternalJoin <==> event.value.result == BranchRemote)
      ensures event.Some? ==> (set p | p in event.value.winnerPeers) == known[ann.historyHash].peers
      ensures event.Some? ==> event.value.winnerPeers != [] && event.value.winnerPeers[0] == from
      ensures event.Some? ==> event.value.partitionStartedAt == known[ann.historyHash].firstSeenAt
    {
      if local.None? {
        return None;
      }
      var bi := BranchInfo(ann, {}, at);
      if ann.historyHash in known {
        bi := known[ann.historyHash].(announcement := ann);
      }
      bi := bi.(peers := bi.peers + {from});
      known := known[ann.historyHash := bi];
      if SameBranch(ann, local.value) {
        return None;
      }
      var ours := local.value;
      var localSupport := 1;
      if ours.historyHash in known {
        localSupport := localSupport + |known[ours.historyHash].peers|;
      }
      var result := Compare(ours, ann, localSupport, |bi.peers|,
                            ours.commitHash != [] && ours.commitHash in invalid,
                            ann.commitHash != [] && ann.commitHash in invalid);
      var winners := OthersAfter(from, bi.peers);
      event := Some(ForkEvent(from, ours, ann, remoteEpoch, result, result == BranchRemote, winners, bi.firstSeenAt));
    }

    /** The triggering peer first, then the branch's other peers in some order. */
    static method OthersAfter(from: PeerId, peers: set<PeerId>) returns (winners: seq<PeerId>)
      requires from in peers
      ensures winners != [] && winners[0] == from
      ensures (set p | p in winners) == peers
    {
      winners := [from];
      var rest := peers - {from};
      while rest != {}
        invariant winners != [] && winners[0] == from
        invariant rest <= peers && (set p | p in winners) == peers - rest
        decreases |rest|
      {
        var p :| p in rest;
        assert (set q | q in winners + [p]) == (set q | q in winners) + {p};
        winners := winners + [p];
        rest := rest - {p};
      }
    }
  }

  // ----- agreement -----

  /** What the nodes announce: one announcement per node, the same within a branch. */
  ghost predicate Coherent(anns: map<PeerId, Announcement>) {
    forall p, q :: p in anns && q in anns && SameBranch(anns[p], anns[q]) ==> anns[p] == anns[q]
  }

  /** All nodes on the same branch as `p`. */
  ghost function Branch(anns: map<PeerId, Announcement>, p: PeerId): set<PeerId>
    requires p in anns
  {
    set q | q in anns && SameBranch(anns[q], anns[p])
  }

  /** A branch's weight, the same wherever it is judged: its size and what its nodes announce. */
  ghost function BranchWeight(anns: map<PeerId, Announcement>, p: PeerId): Weight
    requires p in anns
  {
    WeightOf(anns[p], |Branch(anns, p)|, false)
  }

  /** A fresh detector at `r` that has processed the announcements of `heard`, in that order and with those repeats. */
  function Heard(anns: map<PeerId, Announcement>, r: PeerId, heard: seq<PeerId>, at: int): (d: Detector)
    requires r in anns && forall i :: 0 <= i < |heard| ==> heard[i] in anns
    ensures d.local == Some(anns[r]) && d.invalid == {}
  {
    if heard == [] then Updated(Detector(None, map[], {}), anns[r])
    else Observed(Heard(anns, r, heard[..|heard| - 1], at), at, heard[|heard| - 1], anns[heard[|heard| - 1]])
  }

  /** Reference: the peers heard whose announcement names the branch. */
  ghost function Announcers(anns: map<PeerId, Announcement>, heard: seq<PeerId>, h: Bytes): set<PeerId> {
    set p | p in heard && p in anns && anns[p].historyHash == h
  }

  /** The detector files exactly the peers it heard, each under its branch. */
  lemma {:induction false} HeardFiles(anns: map<PeerId, Announcement>, r: PeerId, heard: seq<PeerId>, at: int, h: Bytes)
    requires r in anns && forall i :: 0 <= i < |heard| ==> heard[i] in anns
    ensures Filed(Heard(anns, r, heard, at), h) == Announcers(anns, heard, h)
    decreases |heard|
  {
    if heard != [] {
      var init, last := heard[..|heard| - 1], heard[|heard| - 1];
      assert heard == init + [last];
      HeardFiles(anns, r, init, at, h);
      assert Announcers(anns, heard, h) ==
               Announcers(anns, init, h) + (if anns[last].historyHash == h then {last} else {});
    }
  }

  /** Once `r` has heard every other node, hearing `p` again judges by the two branches' true sizes. */
  lemma TrueSupports(anns: map<PeerId, Announcement>, r: PeerId, heard: seq<PeerId>, at: int, p: PeerId)
    requires r in anns && p in anns && p != r && !SameBranch(anns[p], anns[r])
    requires forall i :: 0 <= i < |heard| ==> heard[i] in anns && heard[i] != r
    requires forall q :: q in anns && q != r ==> q in heard
    ensures var d := Observed(Heard(anns, r, heard, at), at, p, anns[p]);
            && Support(d, anns[r]) == |Branch(anns, r)|
            && anns[p].historyHash in d.known && |d.known[anns[p].historyHash].peers| == |Branch(anns, p)|
  {
    hide Heard;
    var d := Observed(Heard(anns, r, heard, at), at, p, anns[p]);
    HeardFiles(anns, r, heard, at, anns[r].historyHash);
    HeardFiles(anns, r, heard, at, anns[p].historyHash);
    assert Announcers(anns, heard, anns[r].historyHash) == Branch(anns, r) - {r};
    assert Announcers(anns, heard, anns[p].historyHash) == Branch(anns, p);
    assert p in Branch(anns, p) && Filed(d, anns[p].historyHash) == Branch(anns, p) + {p} == Branch(anns, p);
    assert Filed(d, anns[r].historyHash) == Branch(anns, r) - {r};
    assert |Branch(anns, r)| == |Branch(anns, r) - {r}| + 1 by {
      assert r in Branch(anns, r);
    }
  }

  /**
    * Verdict agreement. Once every node has heard every other, a repeated announcement asks for an
    * external join exactly unless the receiver's branch outweighs the announcer's.
    */
  lemma VerdictByWeight(anns: map<PeerId, Announcement>, r: PeerId, heard: seq<PeerId>, at: int, p: PeerId)
    requires r in anns && p in anns && p != r && !SameBranch(anns[p], anns[r])
    requires forall i :: 0 <= i < |heard| ==> heard[i] in anns && heard[i] != r
    requires forall q :: q in anns && q != r ==> q in heard
    ensures Verdict(Heard(anns, r, heard, at), at, p, anns[p]) == BranchRemote <==>
              !Outweighs(BranchWeight(anns, r), BranchWeight(anns, p))
    ensures BranchWeight(anns, r) != BranchWeight(anns, p) ==>
            (Verdict(Heard(anns, r, heard, at), at, p, anns[p]) == BranchRemote <==>
               Outweighs(BranchWeight(anns, p), BranchWeight(anns, r)))
  {
    TrueSupports(anns, r, heard, at, p);
    CompareByWeight(anns[r], anns[p], |Branch(anns, r)|, |Branch(anns, p)|, false, false);
    OutweighsStrictTotal(BranchWeight(anns, r), BranchWeight(anns, p), BranchWeight(anns, r));
    OutweighsStrictTotal(BranchWeight(anns, p), BranchWeight(anns, r), BranchWeight(anns, p));
  }

  /** A branch that outweighs every other never has to move; any other node is told to move by some announcement. */
  lemma HeaviestStays(anns: map<PeerId, Announcement>, best: PeerId, r: PeerId, heard: seq<PeerId>, at: int)
    requires Coherent(anns) && best in anns && r in anns
    requires forall q ::
               q in anns && !SameBranch(anns[q], anns[best]) ==>
                 Outweighs(BranchWeight(anns, best), BranchWeight(anns, q))
    requires forall i :: 0 <= i < |heard| ==> heard[i] in anns && heard[i] != r
    requires forall q :: q in anns && q != r ==> q in heard
    ensures SameBranch(anns[r], anns[best]) <==>
            forall p :: p in anns && p != r && !SameBranch(anns[p], anns[r]) ==>
                        Verdict(Heard(anns, r, heard, at), at, p, anns[p]) != BranchRemote
  {
    if SameBranch(anns[r], anns[best]) {
      forall p | p in anns && p != r && !SameBranch(anns[p], anns[r])
        ensures Verdict(Heard(anns, r, heard, at), at, p, anns[p]) != BranchRemote
      {
        VerdictByWeight(anns, r, heard, at, p);
        assert Branch(anns, r) == Branch(anns, best);
      }
    } else {
      VerdictByWeight(anns, r, heard, at, best);
      OutweighsStrictTotal(BranchWeight(anns, best), BranchWeight(anns, r), BranchWeight(anns, best));
    }
  }
}
