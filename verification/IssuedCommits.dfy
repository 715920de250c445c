/** Commits as a coordinator issues them, judged by a peer with the same epoch, view and suspensions. */
module IssuedCommits {
  import opened Bytes
  import opened Sorting
  import opened Types
  import opened Election
  import opened SingleWriter
  import opened Agreement
  import opened Coordinator
  import opened NodeRuns

  /** The text that goes out in the envelope decodes to the sender. */
  ghost predicate NamesDecode(env: Env) {
    PeerTextNonEmpty(env.group) && forall p :: p != NO_PEER ==> env.decodePeer(env.group.peerText(p)) == p
  }

  /** A validator at the same epoch that sees the same members and has suspended the same peers. */
  ghost predicate LikeMinded(n: Node, v: Node) {
    && v.writer.epoch == n.writer.epoch && v.writer.suspended == n.writer.suspended
    && StrictlySorted(Less, n.members) && StrictlySorted(Less, v.members) && Elements(n.members) == Elements(v.members)
  }

  /** What the validator's metadata test says of an issued commit, from the envelope on. */
  ghost predicate Passes(env: Env, v: Node, p: Applying) {
    PassesMetadata(env.group, v.writer, v.members, p.commit.included, env.decodePeer(p.envelope.from))
  }

  lemma IssuedLooks(env: Env, n: Node, batch: seq<BufferedProposal>)
    requires Prepares(env, n, batch).Some?
    ensures var p := Prepares(env, n, batch).value;
            p.envelope.from == env.group.peerText(n.local) && p.commit.included == ToMsgs(batch)
  {
  }

  /** A commit issued by tryCommitLocked passes at every like-minded peer. */
  lemma TimedCommitPasses(env: Env, n: Node, v: Node, graceOver: bool)
    requires NamesDecode(env) && LikeMinded(n, v) && n.local != NO_PEER
    requires FirstCommit(env, n, CommitTimer(graceOver)).Some?
    ensures Passes(env, v, FirstCommit(env, n, CommitTimer(graceOver)).value)
  {
    hide Prepares, PassesMetadata, ViewReady, NextBatch, IsTokenHolder;
    IssuedLooks(env, n, NextBatch(n.writer.proposals, env.cap));
    CommitterValidatorAgree(env.group, n.writer, v.writer, env.cap, n.members, v.members, n.local);
  }

  /**
    * A commit issued at once by AddMember or RemoveMember passes exactly when its proposal does not
    * remove the committer and repeats whatever cleared a higher-ranked peer out of the deciding buffer:
    * the one with the new proposal for an add, if there was room, and the one without it for a removal.
    */
  lemma SyncCommitPassesExactly(env: Env, n: Node, v: Node, kind: ProposalType, data: Bytes, meta: BufferedProposal,
                                graceOver: bool)
    requires NamesDecode(env) && PolicyIgnoresBatch(env.group) && LikeMinded(n, v) && n.local != NO_PEER
    requires FirstCommit(env, n, CommitAtOnce(kind, data, meta, graceOver)).Some?
    ensures CreateLocal(env, n, kind, data, meta).Some?
    ensures var p := CreateLocal(env, n, kind, data, meta).value.1;
            var decider := if kind.Remove? then n.writer.proposals else Buffered(n.writer.proposals, p, env.cap);
            Passes(env, v, FirstCommit(env, n, CommitAtOnce(kind, data, meta, graceOver)).value) <==>
            && env.group.peerText(n.local) !in RemovedBy([p])
            && !AheadOnlyRemovedByOthers(env.group, n.writer, n.members, NextBatch(decider, env.cap), p, n.local)
  {
    hide Prepares, ViewReady, NextBatch, AheadOnlyRemovedByOthers, RemovedBy;
    var made := CreateLocal(env, n, kind, data, meta).value;
    var n1 := WithProposal(env, made.0, made.1);
    var w := if kind.Remove? then n.writer else n1.writer;
    IssuedLooks(env, n1, [made.1]);
    assert ToMsgs([made.1]) == [ToMsg(made.1)] by { assert [made.1][..0] == []; }
    SameViewSameMembers(n.members, v.members);
    SyncCommitAcceptedExactlyWhen(env.group, w, env.cap, n.members, n.local, made.1);
    SameSituation(env, n.writer, w, n.members, NextBatch(w.proposals, env.cap), made.1, n.local);
    SameJudge(env.group, w, v.writer, n.members, [ToMsg(made.1)], n.local);
  }

  lemma SameSituation(env: Env, a: Writer, b: Writer, members: seq<PeerId>, batch: seq<BufferedProposal>,
                      p: BufferedProposal, local: PeerId)
    requires a.epoch == b.epoch && a.suspended == b.suspended
    ensures AheadOnlyRemovedByOthers(env.group, a, members, batch, p, local) <==>
              AheadOnlyRemovedByOthers(env.group, b, members, batch, p, local)
  {
  }

  lemma SameJudge(g: Group, a: Writer, b: Writer, members: seq<PeerId>, included: seq<ProposalMsg>, sender: PeerId)
    requires a.epoch == b.epoch && a.suspended == b.suspended
    ensures PassesMetadata(g, a, members, included, sender) <==> PassesMetadata(g, b, members, included, sender)
  {
  }
}
