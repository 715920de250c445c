/** When a node commits, what it does instead, and what a commit takes out of the proposal buffer. */
module Issuing {
  import opened Bytes
  import opened Sorting
  import opened Types
  import opened Election
  import opened SingleWriter
  import opened EpochTracker
  import opened Agreement
  import opened HybridClock
  import opened Operations
  import opened Coordinator
  import opened NodeRuns
  import opened ReleasedChain
  import opened Admission
  import opened Proposals
  import opened EarlyMessages

  /**
    * Alone in its view, before the grace has passed, a node waits
    * for an authorised peer that its batch does not remove.
    */
  ghost predicate WaitsForPeer(env: Env, n: Node, batch: seq<BufferedProposal>, graceOver: bool) {
    && !graceOver && |n.members| <= 1 && env.group.provider.Some?
    && env.group.provider.value(n.epoch, batch).Some?
    && exists p ::
         && p in env.group.provider.value(n.epoch, batch).value && p != NO_PEER && p != n.local
         && env.group.peerText(p) !in RemovedBy(batch)
  }

  /** The token for the buffer that decides, and nobody to wait for before this batch goes out. */
  ghost predicate MayCommit(env: Env, n: Node, deciding: seq<BufferedProposal>, batch: seq<BufferedProposal>,
                            graceOver: bool) {
    Holds(env, n, NextBatch(deciding, env.cap)) && !WaitsForPeer(env, n, batch, graceOver)
  }

  /** MLS makes a commit of the batch in state `s`. */
  ghost function MadeOf(env: Env, s: Bytes, batch: seq<BufferedProposal>): Option<CreatedCommit> {
    if s == [] then None else env.mls.createCommit(s, Refs(batch))
  }

  /** The commit can be stored: its state is not empty, and its envelope is new. */
  ghost predicate Usable(env: Env, n: Node, batch: seq<BufferedProposal>, made: CreatedCommit) {
    && made.state != []
    && env.envelopeHash(Wrapped(env, n, Ticked(n.hlc, n.now, n.now), CommitBody(Some(CommitMessage(env, batch, made)))))
         !in n.applied
  }

  lemma ReadyMeans(env: Env, n: Node, batch: seq<BufferedProposal>, graceOver: bool)
    ensures ViewReady(env, n, batch, graceOver) <==> !WaitsForPeer(env, n, batch, graceOver)
  {
  }

  /**
    * A batch goes out exactly if MLS makes a usable commit of it; a commit that cannot be stored still ticks the clock.
    */
  lemma BatchExactly(env: Env, n: Node, batch: seq<BufferedProposal>)
    requires WellFormed(n)
    ensures var made := MadeOf(env, n.groupState, batch);
            && (Prepares(env, n, batch).Some? <==> made.Some? && Usable(env, n, batch, made.value))
            && (Prepares(env, n, batch).None? ==>
                  CommitBatch(env, n, batch) == n.(hlc := if made.Some? then Ticked(n.hlc, n.now, n.now) else n.hlc))
  {
    hide CommitMessage, Ticked, Refs, AdvanceAndDrain, Reconcile;
  }

  /** The commit timer: exactly when it commits, and that otherwise nothing happens but a tick of the clock. */
  lemma TimerExactly(env: Env, n: Node, graceOver: bool)
    requires WellFormed(n) && StrictlySorted(Less, n.members)
    ensures var batch, r := NextBatch(n.writer.proposals, env.cap), Handle(env, n, CommitTimer(graceOver));
            var made := MadeOf(env, n.groupState, batch);
            var goes :=
              n.writer.proposals != [] && env.cap > 0 && MayCommit(env, n, n.writer.proposals, batch, graceOver)
              && made.Some?;
            && (AppliedBy(env, n, CommitTimer(graceOver)) != [] <==> goes && Usable(env, n, batch, made.value))
            && (AppliedBy(env, n, CommitTimer(graceOver)) == [] ==>
                  r == n.(hlc := if goes then Ticked(n.hlc, n.now, n.now) else n.hlc))
  {
    hide Handle, Holds, IsTokenHolder, ViewReady, WaitsForPeer, Prepares, CommitBatch, NextBatch, Released, Ticked;
    hide Usable, WellFormed, Queue, Begun;
    WriterEpoch(n);
    TimerCalls(env, n, graceOver);
    var batch := NextBatch(n.writer.proposals, env.cap);
    BatchExactly(env, n, batch);
    HoldsMeans(env, n, n.writer);
    ReadyMeans(env, n, batch, graceOver);
    BatchEmpty(n.writer.proposals, env.cap);
  }

  lemma TimerCalls(env: Env, n: Node, graceOver: bool)
    requires WellFormed(n)
    ensures Handle(env, n, CommitTimer(graceOver)) == TryCommit(env, n, graceOver)
  {
    hide TryCommit;
  }

  lemma AtOnceCalls(env: Env, n: Node, kind: ProposalType, data: Bytes, meta: BufferedProposal, graceOver: bool)
    requires WellFormed(n)
    ensures Handle(env, n, CommitAtOnce(kind, data, meta, graceOver)) == CommitOne(env, n, kind, data, meta, graceOver)
  {
    hide CommitOne;
  }

  lemma WriterEpoch(n: Node)
    requires WellFormed(n)
    ensures n.writer.epoch == n.epoch
  {
  }

  lemma BatchEmpty(s: seq<BufferedProposal>, cap: nat)
    ensures NextBatch(s, cap) == [] <==> s == [] || cap == 0
  {
  }

  /** A node whose proposal has been made and buffered, but not sent. */
  ghost function Ready(env: Env, n: Node, made: CreatedProposal, p: BufferedProposal): Node {
    n.(groupState := made.state, writer := n.writer.(proposals := Buffered(n.writer.proposals, p, env.cap)))
  }

  /** The buffer that decides who commits a single proposal: with it for an add, without it for a removal. */
  function Deciding(env: Env, n: Node, p: BufferedProposal): seq<BufferedProposal> {
    if p.kind.Remove? then n.writer.proposals else Buffered(n.writer.proposals, p, env.cap)
  }

  /**
    * AddMember and RemoveMember. Without a proposal nothing happens. A node that may not commit sends the proposal and
    * buffers it. Otherwise it commits this one proposal exactly if MLS makes a usable commit of it.
    */
  lemma AtOnceExactly(env: Env, n: Node, kind: ProposalType, data: Bytes, meta: BufferedProposal, graceOver: bool)
    requires WellFormed(n) && StrictlySorted(Less, n.members)
    ensures var ev := CommitAtOnce(kind, data, meta, graceOver);
            var r, applied := Handle(env, n, ev), AppliedBy(env, n, ev);
            if !Creates(env, n.groupState, kind, data) then r == n && applied == []
            else
              var created := env.mls.createProposal(n.groupState, kind, data).value;
              var p := Filled(meta, kind, created);
              if !MayCommit(env, n, Deciding(env, n, p), [p], graceOver)
              then Sends(env, n, r, created.state, p) && r.ops == n.ops && applied == []
              else
                var made, ready := MadeOf(env, created.state, [p]), Ready(env, n, created, p);
                && (applied != [] <==> made.Some? && Usable(env, ready, [p], made.value))
                && (applied == [] ==> r == ready.(hlc := if made.Some? then Ticked(n.hlc, n.now, n.now) else n.hlc))
  {
    hide Handle, Holds, IsTokenHolder, ViewReady, WaitsForPeer, Prepares, CommitBatch, NextBatch, Released, Ticked;
    hide Usable, WellFormed, Queue, Begun, Sends, Buffered;
    WriterEpoch(n);
    AtOnceCalls(env, n, kind, data, meta, graceOver);
    if Creates(env, n.groupState, kind, data) {
      var created := env.mls.createProposal(n.groupState, kind, data).value;
      var p := Filled(meta, kind, created);
      var ready := Ready(env, n, created, p);
      ReadyWellFormed(env, n, created, p);
      BatchExactly(env, ready, [p]);
      HoldsMeans(env, n, n.writer.(proposals := Deciding(env, n, p)));
      ReadyMeans(env, ready, [p], graceOver);
      SameWait(env, n, ready, [p], graceOver);
      SendsLate(env, n, created, p);
      assert CreateLocal(env, n, kind, data, meta) == Some((n.(groupState := created.state), p));
      assert WithProposal(env, n.(groupState := created.state), p) == ready;
    }
  }

  lemma ReadyWellFormed(env: Env, n: Node, made: CreatedProposal, p: BufferedProposal)
    requires WellFormed(n)
    ensures WellFormed(Ready(env, n, made, p))
  {
  }

  lemma SameWait(env: Env, n: Node, r: Node, batch: seq<BufferedProposal>, graceOver: bool)
    requires r.members == n.members && r.epoch == n.epoch && r.local == n.local
    ensures WaitsForPeer(env, n, batch, graceOver) <==> WaitsForPeer(env, r, batch, graceOver)
  {
  }

  lemma SendsLate(env: Env, n: Node, made: CreatedProposal, p: BufferedProposal)
    ensures var r := Publish(env, Ready(env, n, made, p), ProposalBody(Some(ToMsg(p))));
            Sends(env, n, r, made.state, p) && r.ops == n.ops
  {
    hide Ticked, Buffered;
  }

  // ----- what leaves the buffer -----

  /** The proposal is part of the commit, by its reference or by its bytes. */
  predicate CommittedIn(c: CommitMsg, p: BufferedProposal) {
    p.ref in c.committedRefs || (p.data != [] && exists m :: m in c.included && m.data == p.data)
  }

  lemma {:induction false} NonEmptyMeans(datas: seq<Bytes>, d: Bytes)
    ensures d in NonEmpty(datas) <==> d in datas && d != []
  {
    if datas != [] {
      var init, last := datas[..|datas| - 1], datas[|datas| - 1];
      assert datas == init + [last];
      NonEmptyMeans(init, d);
    }
  }

  /** Exactly the committed proposals are dropped. */
  lemma DroppedExactly(n: Node, c: CommitMsg, p: BufferedProposal)
    ensures p in WithoutCommitted(n, c).writer.proposals <==> p in n.writer.proposals && !CommittedIn(c, p)
  {
    hide DrainedByRefs, DrainedByData, NonEmpty, ProposalDatas;
    DatasAre(c.included);
    NonEmptyMeans(ProposalDatas(c.included), p.data);
    if p.data in Datas(c.included) {
      var i :| 0 <= i < |c.included| && Datas(c.included)[i] == p.data;
      assert c.included[i] in c.included;
    }
    if m :| m in c.included && m.data == p.data {
      var i :| 0 <= i < |c.included| && c.included[i] == m;
      assert Datas(c.included)[i] == p.data;
    }
  }

  /** The proposal went out between two states of the outbox. */
  ghost predicate SentBetween(n: Node, r: Node, p: BufferedProposal) {
    exists i ::
      && |n.outbox| <= i < |r.outbox| && r.outbox[i].body.ProposalBody? && r.outbox[i].body.proposal.Some?
      && FromMsg(r.outbox[i].body.proposal.value) == p
  }

  lemma {:induction false} BufferedFrom(s: seq<BufferedProposal>, arrivals: seq<BufferedProposal>, cap: nat,
                                        p: BufferedProposal)
    requires p in BufferedAll(s, arrivals, cap)
    ensures p in s || p in arrivals
    decreases arrivals
  {
    if arrivals != [] {
      BufferedFrom(Buffered(s, arrivals[0], cap), arrivals[1..], cap, p);
    }
  }

  /**
    * Once a received commit is applied, a proposal in it is in the buffer only if the node has just proposed it again.
    */
  lemma CommittedLeave(env: Env, n: Node, e: Envelope, p: BufferedProposal)
    requires WellFormed(n) && HandleCommit(env, n, e).1
    requires p in HandleCommit(env, n, e).0.writer.proposals
    ensures e.body.CommitBody? && e.body.commit.Some?
    ensures CommittedIn(e.body.commit.value, p) ==> SentBetween(n, HandleCommit(env, n, e).0, p)
  {
    hide HandleCommit, Receives, Finished, WellFormed, CommittedIn, SentBetween;
    ReceivedIsFinished(env, n, e);
    ReceivedAt(env, n, e);
    ReceivesApplies(env, n, e);
    ReceivedFlag(env, n, e);
    FinishedLeaves(env, Receives(env, n, e).value, p);
  }

  lemma ReceivedFlag(env: Env, n: Node, e: Envelope)
    requires Receives(env, n, e).Some?
    ensures Receives(env, n, e).value.received
  {
  }

  lemma FinishedLeaves(env: Env, a: Applying, p: BufferedProposal)
    requires WellFormed(a.at) && a.received && p in Finished(env, a).writer.proposals
    ensures CommittedIn(a.commit, p) ==> SentBetween(a.at, Finished(env, a), p)
  {
    hide Drain, WithoutCommitted, Reconcile, WellFormed, CommittedIn, Pass, Advanced;
    var drained := AdvanceAndDrain(env, a.at, a.envelope, a.commit.commitData, a.state, a.treeHash);
    var base, r := WithoutCommitted(drained, a.commit), Finished(env, a);
    var out := ReconcileSends(env, base, a.commit);
    DroppedExactly(drained, a.commit, p);
    BufferedFrom(base.writer.proposals, Contents(out), env.cap, p);
    DrainedOutbox(env, a);
    if CommittedIn(a.commit, p) {
      var i :| 0 <= i < |out| && Contents(out)[i] == p;
      assert r.outbox[|base.outbox| + i] == out[i];
    }
  }

  lemma DrainedOutbox(env: Env, a: Applying)
    requires WellFormed(a.at)
    ensures a.at.outbox <= AdvanceAndDrain(env, a.at, a.envelope, a.commit.commitData, a.state, a.treeHash).outbox
  {
    hide Drain, WellFormed, Onward;
    var b, q := Begun(env, a), Queue(a.at.future, a.at.epoch + 1);
    BegunFits(env, a);
    BegunOnward(env, a);
    DrainOnward(env, b, q);
    OnwardTrans(a.at, b, Drain(env, b, q));
    OnwardMeans(a.at, Drain(env, b, q));
  }
}
