/** What a node does with an envelope that it may only log, that it replays, or that waited through a restart. */
module Receiving {
  import opened Bytes
  import opened Types
  import opened SingleWriter
  import opened EpochTracker
  import opened HybridClock
  import opened Coordinator
  import opened NodeRuns
  import opened ReleasedChain
  import opened Admission
  import opened EarlyMessages

  /** The group's own, and not dated too far ahead. */
  predicate Sane(env: Env, n: Node, e: Envelope) {
    e.group == env.group.id && e.ts.wall <= n.now + 300000
  }

  ghost function SeenNow(n: Node, hash: Bytes): map<Bytes, int> {
    if hash in n.firstSeen then n.firstSeen else n.firstSeen[hash := n.now]
  }

  /** While catching up or frozen, a node logs commits and messages of others and handles nothing. */
  lemma LoggedOnly(env: Env, n: Node, from: PeerId, e: Envelope)
    requires WellFormed(n) && !n.mode.Live?
    ensures var logs :=
              && from != n.local && Sane(env, n, e) && (e.body.CommitBody? || e.body.ApplicationBody?)
              && (n.mode.CatchingUp? ==> env.offlineSync);
            Handle(env, n, Deliver(from, e)) == if logs then n.(firstSeen := SeenNow(n, env.envelopeHash(e))) else n
  {
    hide Dispatch, WellFormed;
  }

  /** A live node hands an envelope of another peer to the handler of its type, and ignores any other. */
  lemma LiveDispatch(env: Env, n: Node, from: PeerId, e: Envelope)
    requires WellFormed(n) && n.mode.Live?
    ensures Handle(env, n, Deliver(from, e)) ==
            if from == n.local || !Sane(env, n, e) then n
            else match e.body
                 case ProposalBody(_) => HandleProposal(env, n, e)
                 case CommitBody(_) => HandleCommit(env, n, e).0
                 case ApplicationBody(_) => HandleApplication(env, n, e).0
                 case OtherBody => n
  {
    hide HandleProposal, HandleCommit, HandleApplication, WellFormed;
  }

  // ----- replay verdicts -----

  /** Replay looks only at the group's own commits and messages, and at none dated too far ahead. */
  predicate Replayable(env: Env, n: Node, e: Envelope) {
    Sane(env, n, e) && (e.body.CommitBody? || e.body.ApplicationBody?)
  }

  /** A commit of an earlier epoch, or a message that has left the window. */
  ghost predicate Passed(env: Env, n: Node, e: Envelope) {
    e.epoch < n.epoch && (e.body.ApplicationBody? ==> !InWindow(env, n, e))
  }

  /**
    * The verdict of a replay says what happened, and a cursor may move on exactly past what is applied or has passed.
    */
  lemma VerdictExactly(env: Env, n: Node, e: Envelope)
    requires WellFormed(n)
    ensures var r, hash := Replay(env, n, e), env.envelopeHash(e);
            var unseen := Replayable(env, n, e) && hash !in n.applied;
            && (!Replayable(env, n, e) ==> r.0 == n && r.1.state.Invalid?)
            && (r.1.state.Duplicate? <==> Replayable(env, n, e) && hash in n.applied)
            && (r.1.state.Applied? <==> unseen && hash in r.0.applied)
            && (r.1.state.FutureEpoch? <==> unseen && e.epoch > n.epoch)
            && (r.1.state.StaleEpoch? <==> unseen && Passed(env, n, e))
            && (r.1.cursorSafe <==> Replayable(env, n, e) && (hash in r.0.applied || Passed(env, n, e)))
  {
    hide HandleCommit, HandleApplication, WellFormed, InWindow;
    if Replayable(env, n, e) {
      if e.body.CommitBody? {
        if e.epoch == n.epoch && env.envelopeHash(e) !in n.applied {
          CommitVerdict(env, n, e);
        }
      } else {
        ApplicationVerdict(env, n, e);
      }
    }
  }

  lemma CommitVerdict(env: Env, n: Node, e: Envelope)
    requires WellFormed(n) && e.body.CommitBody? && e.epoch == n.epoch && env.envelopeHash(e) !in n.applied
    ensures HandleCommit(env, n, e).1 <==> env.envelopeHash(e) in HandleCommit(env, n, e).0.applied
  {
    hide HandleCommit, WellFormed, Receives, Finished, Onward;
    ReceivedIsFinished(env, n, e);
    if Receives(env, n, e).Some? {
      ReceivedAt(env, n, e);
      FinishedOnward(env, Receives(env, n, e).value);
    }
  }

  lemma ApplicationVerdict(env: Env, n: Node, e: Envelope)
    ensures var r, hash := HandleApplication(env, n, e), env.envelopeHash(e);
            && (r.1.state.Duplicate? <==> hash in n.applied)
            && (r.1.state.Applied? <==> hash !in n.applied && hash in r.0.applied)
            && (r.1.state.FutureEpoch? <==> hash !in n.applied && e.epoch > n.epoch)
            && (r.1.state.StaleEpoch? <==> hash !in n.applied && e.epoch < n.epoch && !InWindow(env, n, e))
            && r.1.cursorSafe == (r.1.state.Applied? || r.1.state.Duplicate? || r.1.state.StaleEpoch?)
            && n.applied <= r.0.applied
  {
    hide ApplicationAction, Merged, Logged, InWindow, Enqueued;
    ActionMeans(env, n, e);
  }

  lemma ActionMeans(env: Env, n: Node, e: Envelope)
    ensures ApplicationAction(env, n, e).BufferFuture? <==> e.epoch > n.epoch
    ensures ApplicationAction(env, n, e).RejectStale? <==> e.epoch < n.epoch && !InWindow(env, n, e)
  {
    if e.epoch <= n.epoch {
      WindowMeans(env, n, e);
    }
  }

  // ----- restarts -----

  /**
    * A restart keeps what is stored and starts memory afresh: nothing buffered, nobody suspended, no proposals,
    * no invalid commits, the clock at zero; a chain that has no link for the stored epoch gets the initial one.
    */
  lemma RestartExactly(env: Env, n: Node)
    requires WellFormed(n)
    ensures var r := Handle(env, n, Restart);
            && r.local == n.local && r.members == n.members && r.now == n.now && r.mode.Live?
            && r.epoch == n.epoch && r.groupState == n.groupState && r.treeHash == n.treeHash
            && r.applied == n.applied && r.commits == n.commits && r.delivered == n.delivered
            && r.firstSeen == n.firstSeen && r.ops == n.ops && r.outbox == n.outbox
            && r.future == map[] && r.invalid == {} && r.hlc == Clock(0, 0)
            && r.writer.epoch == n.epoch && r.writer.proposals == [] && r.writer.suspended == {}
            && r.chain == (if n.epoch in n.chain then n.chain
                           else n.chain[n.epoch := env.group.sha256(HISTORY_LABEL + env.group.id)])
            && r.historyHash == Some(r.chain[r.epoch])
  {
    hide Handle;
    Stored(env, n, Restart);
  }
}
