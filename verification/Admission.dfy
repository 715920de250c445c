/**
  * Which commits reach a node's log, whoever sends them: the sender is the elected holder, and the references are true.
  */
module Admission {
  import opened Bytes
  import opened Sorting
  import opened Types
  import opened Election
  import opened SingleWriter
  import opened EpochTracker
  import opened Agreement
  import opened HybridClock
  import opened Coordinator
  import opened NodeRuns
  import opened ReleasedChain

  /** The raw proposals of a commit, in order. */
  ghost function Datas(included: seq<ProposalMsg>): seq<Bytes> {
    seq(|included|, i requires 0 <= i < |included| => included[i].data)
  }

  lemma {:induction false} DatasAre(included: seq<ProposalMsg>)
    ensures ProposalDatas(included) == Datas(included)
  {
    if included != [] {
      DatasAre(included[..|included| - 1]);
    }
  }

  /**
    * A commit with proposals and a sender that decodes comes from the first peer of the view
    * that may hold the token for these proposals, and none of them removes that peer.
    */
  ghost predicate FromHolder(env: Env, epoch: nat, members: seq<PeerId>, suspended: set<PeerId>, e: Envelope) {
    && e.body.CommitBody? && e.body.commit.Some?
    && var included, sender := e.body.commit.value.included, env.decodePeer(e.from);
    included != [] && sender != NO_PEER ==>
      && IsFirst(env.group, epoch, EligibleSet(env.group, epoch, members, FromMsgs(included), suspended), sender)
      && forall m :: m in included && m.kind.Remove? ==> m.target != env.group.peerText(sender)
  }

  /** MLS can stage the commit, and the references it announces, if any, are the staged ones. */
  ghost predicate Announced(env: Env, state: Bytes, c: CommitMsg) {
    var staged := env.mls.stageCommit(state, c.commitData, Datas(c.included));
    staged.Some? && (c.committedRefs != [] ==> multiset(staged.value) == multiset(c.committedRefs))
  }

  /** MLS makes a new state of the commit. */
  ghost predicate Processed(env: Env, state: Bytes, c: CommitMsg) {
    var done := env.mls.processCommit(state, c.commitData, Datas(c.included));
    done.Some? && done.value.0 != []
  }

  /** A new commit for the node's epoch. */
  ghost predicate Current(env: Env, n: Node, e: Envelope) {
    e.epoch == n.epoch && e.body.CommitBody? && e.body.commit.Some? && env.envelopeHash(e) !in n.applied
  }

  ghost predicate Admissible(env: Env, n: Node, e: Envelope) {
    && Current(env, n, e) && FromHolder(env, n.epoch, n.members, n.writer.suspended, e)
    && Announced(env, n.groupState, e.body.commit.value) && Processed(env, n.groupState, e.body.commit.value)
  }

  /** The test on routing metadata, said without the filters of the election. */
  lemma MetadataMeans(env: Env, w: Writer, members: seq<PeerId>, included: seq<ProposalMsg>, sender: PeerId)
    requires StrictlySorted(Less, members) && sender != NO_PEER
    ensures PassesMetadata(env.group, w, members, included, sender) <==>
            && IsFirst(env.group, w.epoch,
                       EligibleSet(env.group, w.epoch, members, FromMsgs(included), w.suspended), sender)
            && forall m :: m in included && m.kind.Remove? ==> m.target != env.group.peerText(sender)
  {
    hide Holder, EligibleSet;
    var batch := FromMsgs(included);
    HolderIsFirst(env.group, w.epoch, members, batch, w.suspended, sender);
    FirstIsAnswered(env.group, w.epoch, members, batch, w.suspended, sender);
    RemovesAlike(env, included, sender);
  }

  lemma FirstIsAnswered(g: Group, epoch: nat, members: seq<PeerId>, batch: seq<BufferedProposal>,
                        suspended: set<PeerId>, p: PeerId)
    ensures IsFirst(g, epoch, EligibleSet(g, epoch, members, batch, suspended), p) ==> PolicyAnswers(g, epoch, batch)
  {
  }

  lemma RemovesAlike(env: Env, included: seq<ProposalMsg>, sender: PeerId)
    requires sender != NO_PEER
    ensures RemovesPeer(env.group, FromMsgs(included), sender) <==>
            exists m :: m in included && m.kind.Remove? && m.target == env.group.peerText(sender)
  {
    var batch := FromMsgs(included);
    if RemovesPeer(env.group, batch, sender) {
      var b :| b in batch && b.kind.Remove? && b.target == env.group.peerText(sender);
      var i :| 0 <= i < |batch| && batch[i] == b;
      assert included[i] in included;
    }
    if m :| m in included && m.kind.Remove? && m.target == env.group.peerText(sender) {
      var i :| 0 <= i < |included| && included[i] == m;
      assert batch[i] in batch;
    }
  }

  /** The verdict on a commit for the node's epoch. */
  lemma ExaminedExactly(env: Env, n: Node, e: Envelope)
    requires WellFormed(n) && StrictlySorted(Less, n.members) && e.body.CommitBody? && e.body.commit.Some?
    requires env.envelopeHash(e) !in n.applied
    ensures var c, verdict := e.body.commit.value, Examine(env, n, e, e.body.commit.value);
            var done := env.mls.processCommit(n.groupState, c.commitData, Datas(c.included));
            var holds := FromHolder(env, n.epoch, n.members, n.writer.suspended, e) && Announced(env, n.groupState, c);
            && (verdict.Refuse? <==> !holds || done.None?)
            && (verdict.Accept? <==> holds && Processed(env, n.groupState, c))
            && (verdict.Accept? ==> done == Some((verdict.state, verdict.treeHash)))
  {
    hide PassesMetadata, IsFirst, EligibleSet;
    var c, sender := e.body.commit.value, env.decodePeer(e.from);
    DatasAre(c.included);
    if sender != NO_PEER {
      MetadataMeans(env, n.writer, n.members, c.included, sender);
    }
  }

  /** A commit is applied if and only if it is admissible. */
  lemma AdmittedExactly(env: Env, n: Node, e: Envelope)
    requires WellFormed(n) && StrictlySorted(Less, n.members)
    ensures HandleCommit(env, n, e).1 <==> Admissible(env, n, e)
    ensures Receives(env, n, e).Some? <==> Admissible(env, n, e)
  {
    hide Examine, AdvanceAndDrain, Reconcile, WithoutCommitted, FromHolder, Announced, Processed;
    if Current(env, n, e) {
      ExaminedExactly(env, n, e);
    } else if e.epoch == n.epoch && e.body.CommitBody? && e.body.commit.Some? {
      AppliedIsIgnored(env, n, e);
    }
  }

  lemma AppliedIsIgnored(env: Env, n: Node, e: Envelope)
    requires env.envelopeHash(e) in n.applied && e.body.CommitBody? && e.body.commit.Some?
    ensures Examine(env, n, e, e.body.commit.value).Ignore?
  {
  }

  /** The hash under which a refused commit is remembered; an empty one is not. */
  function Remembered(env: Env, c: CommitMsg): set<Bytes> {
    (if c.commitData == [] then {} else {env.group.sha256(c.commitData)}) - {[]}
  }

  /**
    * A new commit for the node's epoch that is not applied: with the wrong sender, untrue references
    * or a refusal by MLS its hash joins the invalid ones; an empty state changes nothing.
    */
  lemma RefusedIsMarked(env: Env, n: Node, e: Envelope)
    requires WellFormed(n) && StrictlySorted(Less, n.members) && Current(env, n, e) && !Admissible(env, n, e)
    ensures var c := e.body.commit.value;
            var empty :=
              && FromHolder(env, n.epoch, n.members, n.writer.suspended, e) && Announced(env, n.groupState, c)
              && env.mls.processCommit(n.groupState, c.commitData, Datas(c.included)).Some?;
            HandleCommit(env, n, e).0 == n.(invalid := n.invalid + if empty then {} else Remembered(env, c))
  {
    hide Examine, AdvanceAndDrain, Reconcile, WithoutCommitted, FromHolder, Announced, Processed, Remembered;
    ExaminedExactly(env, n, e);
    MarkedMeans(env, n, e.body.commit.value);
    assert n.invalid + {} == n.invalid;
  }

  lemma MarkedMeans(env: Env, n: Node, c: CommitMsg)
    ensures Marked(env, n, c) == n.(invalid := n.invalid + Remembered(env, c))
  {
    assert n.invalid + {} == n.invalid;
  }

  // ----- every commit of an event -----

  /** MLS accepted the commit in some state. */
  ghost predicate Accepted(env: Env, e: Envelope) {
    && e.body.CommitBody? && e.body.commit.Some?
    && exists s :: Announced(env, s, e.body.commit.value) && Processed(env, s, e.body.commit.value)
  }

  /**
    * What is known of a received commit: its epoch, its sender
    * under the view and suspensions of its turn, its references.
    */
  ghost predicate Entitled(env: Env, epoch: nat, members: seq<PeerId>, suspended: set<PeerId>, e: Envelope) {
    e.epoch == epoch && FromHolder(env, epoch, members, suspended, e) && Accepted(env, e)
  }

  lemma ReceivedIsEntitled(env: Env, n: Node, e: Envelope)
    requires WellFormed(n) && StrictlySorted(Less, n.members) && Receives(env, n, e).Some?
    ensures Entitled(env, n.epoch, n.members, n.writer.suspended, e)
  {
    hide Receives, FromHolder, Announced, Processed;
    AdmittedExactly(env, n, e);
  }

  /** The view and the suspensions while a queue is worked off. */
  ghost predicate SameElectorate(n: Node, r: Node) {
    r.members == n.members && r.writer.suspended == n.writer.suspended && r.epoch == n.epoch
  }

  lemma MessageKeepsElectorate(env: Env, n: Node, e: Envelope)
    requires WellFormed(n) && e.epoch <= n.epoch && Receives(env, n, e).None?
    ensures SameElectorate(n, HandleQueued(env, n, e))
  {
    hide HandleProposal, HandleApplication, HandleCommit, Receives, WellFormed;
    ReceivedIsFinished(env, n, e);
    ApplicationKeepsElectorate(env, n, e);
  }

  lemma ApplicationKeepsElectorate(env: Env, n: Node, e: Envelope)
    ensures SameElectorate(n, HandleApplication(env, n, e).0)
  {
    hide ApplicationAction, Merged;
  }

  lemma BegunElectorate(env: Env, p: Applying)
    requires WellFormed(p.at)
    ensures var r := Begun(env, p); r.members == p.at.members && r.writer.suspended == {} && r.epoch == p.at.epoch + 1
  {
    hide CommitHash, NextHistory, InitialHistory;
  }

  /** The commits a queue releases follow one another by epoch, and each was entitled when its turn came. */
  lemma {:induction false} ReleasedEntitled(env: Env, n: Node, queue: seq<Envelope>, i: nat)
    requires WellFormed(n) && StrictlySorted(Less, n.members) && n.writer.suspended == {}
    requires (forall m :: m in queue ==> m.epoch <= n.epoch) && i < |Released(env, n, queue)|
    ensures Entitled(env, n.epoch + i, n.members, {}, Released(env, n, queue)[i])
    decreases Size(n.future) + |queue|
  {
    hide HandleQueued, WellFormed, Receives, Begun, Released, Queue, Size, Entitled;
    ReleasedStep(env, n, queue);
    var p := Receives(env, n, queue[0]);
    if p.Some? {
      ReceivedIsEntitled(env, n, queue[0]);
      if i > 0 {
        BegunFits(env, p.value);
        BegunElectorate(env, p.value);
        ReleasedEntitled(env, Begun(env, p.value), Queue(n.future, n.epoch + 1), i - 1);
      }
    } else {
      NotReceived(env, n, queue[0]);
      MessageKeepsElectorate(env, n, queue[0]);
      ReleasedEntitled(env, HandleQueued(env, n, queue[0]), queue[1..], i);
    }
  }

  /** The event itself, or the one a crash cuts short. */
  function Cause(ev: Event): Event {
    if ev.Crash? then ev.during else ev
  }

  /** The local node is the first peer that may hold the token for this batch. */
  ghost predicate Holds(env: Env, n: Node, batch: seq<BufferedProposal>) {
    IsFirst(env.group, n.epoch, EligibleSet(env.group, n.epoch, n.members, batch, n.writer.suspended), n.local)
  }

  /** A commit of one's own: the node holds the token for its buffer, and the envelope bears its name and its epoch. */
  ghost predicate Own(env: Env, n: Node, ev: Event, e: Envelope) {
    && e.epoch == n.epoch && e.from == env.group.peerText(n.local) && e.group == env.group.id
    && e.body.CommitBody? && e.body.commit.Some?
    && if ev.CommitTimer? then Holds(env, n, NextBatch(n.writer.proposals, env.cap))
       else ev.CommitAtOnce? && exists made ::
              env.mls.createProposal(n.groupState, ev.kind, ev.data) == Some(made)
              && var p := ev.meta.(kind := ev.kind, data := made.data, ref := made.ref);
                 var deciding :=
                   if ev.kind.Remove? then n.writer.proposals else Buffered(n.writer.proposals, p, env.cap);
                 Holds(env, n, NextBatch(deciding, env.cap))
  }

  lemma HoldsMeans(env: Env, n: Node, w: Writer)
    requires StrictlySorted(Less, n.members) && w.epoch == n.epoch && w.suspended == n.writer.suspended
    ensures IsTokenHolder(env.group, w, n.members, env.cap, n.local) <==> Holds(env, n, NextBatch(w.proposals, env.cap))
  {
    hide NextBatch, Holder, EligibleSet;
    var batch := NextBatch(w.proposals, env.cap);
    HolderIsFirst(env.group, w.epoch, n.members, batch, w.suspended, n.local);
    FirstIsAnswered(env.group, w.epoch, n.members, batch, w.suspended, n.local);
  }

  lemma PreparedEnvelope(env: Env, n: Node, batch: seq<BufferedProposal>)
    requires Prepares(env, n, batch).Some?
    ensures var e := Prepares(env, n, batch).value.envelope;
            && e.epoch == n.epoch && e.from == env.group.peerText(n.local) && e.group == env.group.id
            && e.body.CommitBody? && e.body.commit.Some?
  {
    hide CommitMessage, Ticked;
  }

  lemma OwnOnTimer(env: Env, n: Node, graceOver: bool)
    requires WellFormed(n) && StrictlySorted(Less, n.members)
    requires FirstCommit(env, n, CommitTimer(graceOver)).Some?
    ensures Own(env, n, CommitTimer(graceOver), FirstCommit(env, n, CommitTimer(graceOver)).value.envelope)
  {
    hide FirstCommit, Prepares, IsTokenHolder, NextBatch, Holds;
    FirstCommitOnTimer(env, n, graceOver);
    PreparedEnvelope(env, n, NextBatch(n.writer.proposals, env.cap));
    HoldsMeans(env, n, n.writer);
  }

  lemma OwnAtOnce(env: Env, n: Node, kind: ProposalType, data: Bytes, meta: BufferedProposal, graceOver: bool)
    requires WellFormed(n) && StrictlySorted(Less, n.members)
    requires FirstCommit(env, n, CommitAtOnce(kind, data, meta, graceOver)).Some?
    ensures var ev := CommitAtOnce(kind, data, meta, graceOver);
            Own(env, n, ev, FirstCommit(env, n, ev).value.envelope)
  {
    hide Prepares, IsTokenHolder, NextBatch, Holds, ViewReady, Buffered;
    var made := CreateLocal(env, n, kind, data, meta).value;
    var n1 := WithProposal(env, made.0, made.1);
    PreparedEnvelope(env, n1, [made.1]);
    HoldsMeans(env, n, (if kind.Remove? then n else n1).writer);
  }

  /**
    * Every commit an event adds to the log, over arbitrary senders: the first is the node's own, as holder for
    * its buffer, or was received from the holder under the node's view and suspensions; each later one waited in
    * the buffer, comes one epoch after the other, and was from the holder of its epoch with nobody suspended.
    */
  ghost predicate Justified(env: Env, n: Node, ev: Event, i: nat, e: Envelope) {
    if i > 0 then Entitled(env, n.epoch + i, n.members, {}, e)
    else if Cause(ev).Deliver? || Cause(ev).Resync?
         then Cause(ev).envelope == e && Entitled(env, n.epoch, n.members, n.writer.suspended, e)
    else Own(env, n, Cause(ev), e)
  }

  lemma AppliedJustified(env: Env, n: Node, ev: Event, i: nat)
    requires WellFormed(n) && StrictlySorted(Less, n.members) && i < |AppliedBy(env, n, ev)|
    ensures Justified(env, n, ev, i, AppliedBy(env, n, ev)[i])
  {
    hide FirstCommit, Begun, Released, WellFormed, Entitled, Own, Queue;
    var cause := Cause(ev);
    FirstCommitWellFormed(env, n, cause);
    var p := FirstCommit(env, n, cause).value;
    if i > 0 {
      BegunFits(env, p);
      BegunElectorate(env, p);
      ReleasedEntitled(env, Begun(env, p), Queue(n.future, n.epoch + 1), i - 1);
    } else {
      FirstJustified(env, n, cause);
    }
  }

  lemma FirstJustified(env: Env, n: Node, ev: Event)
    requires WellFormed(n) && StrictlySorted(Less, n.members) && FirstCommit(env, n, ev).Some?
    ensures var e := FirstCommit(env, n, ev).value.envelope;
            if ev.Deliver? || ev.Resync?
            then ev.envelope == e && Entitled(env, n.epoch, n.members, n.writer.suspended, e)
            else Own(env, n, ev, e)
  {
    hide FirstCommit, Receives, WellFormed, Entitled, Own;
    FirstCommitBy(env, n, ev);
    if ev.Deliver? || ev.Resync? {
      FirstCommitReceived(env, n, if ev.Deliver? then ev.from else n.local, ev.envelope);
      ReceivedAt(env, n, ev.envelope);
      ReceivedIsEntitled(env, n, ev.envelope);
    } else if ev.CommitTimer? {
      OwnOnTimer(env, n, ev.graceOver);
    } else {
      OwnAtOnce(env, n, ev.kind, ev.data, ev.meta, ev.graceOver);
    }
  }

  // ----- every run -----

  /** What no handler touches. */
  ghost predicate SameSite(n: Node, r: Node) {
    r.local == n.local && r.members == n.members && r.mode == n.mode && r.now == n.now
  }

  lemma MessageKeepsSite(env: Env, n: Node, e: Envelope)
    ensures SameSite(n, HandleProposal(env, n, e)) && SameSite(n, HandleApplication(env, n, e).0)
  {
    hide HandleProposal, ApplicationAction, Merged;
  }

  lemma BegunSite(env: Env, p: Applying)
    requires WellFormed(p.at)
    ensures SameSite(p.at, Begun(env, p))
  {
    hide CommitHash, NextHistory, InitialHistory;
  }

  lemma {:induction false} QueuedKeepsSite(env: Env, n: Node, e: Envelope)
    requires WellFormed(n) && e.epoch <= n.epoch
    ensures SameSite(n, HandleQueued(env, n, e))
    decreases Size(n.future), 3
  {
    hide HandleProposal, HandleApplication, HandleCommit, WellFormed, Receives, Finished, Size;
    MessageKeepsSite(env, n, e);
    ReceivedIsFinished(env, n, e);
    if Receives(env, n, e).Some? {
      ReceivedAt(env, n, e);
      FinishedKeepsSite(env, Receives(env, n, e).value);
    }
  }

  lemma {:induction false} DrainKeepsSite(env: Env, n: Node, queue: seq<Envelope>)
    requires WellFormed(n) && forall m :: m in queue ==> m.epoch <= n.epoch
    ensures SameSite(n, Drain(env, n, queue))
    decreases Size(n.future) + |queue|, 0
  {
    hide HandleQueued, WellFormed, Size;
    if queue != [] {
      QueuedKeepsSite(env, n, queue[0]);
      DrainKeepsSite(env, HandleQueued(env, n, queue[0]), queue[1..]);
    }
  }

  lemma {:induction false} FinishedKeepsSite(env: Env, p: Applying)
    requires WellFormed(p.at)
    ensures SameSite(p.at, Finished(env, p))
    decreases Size(p.at.future), 2
  {
    hide Drain, Advanced, WithoutCommitted, Reconcile, WellFormed, Size, Queue;
    BegunFits(env, p);
    BegunSite(env, p);
    DrainKeepsSite(env, Begun(env, p), Queue(p.at.future, p.at.epoch + 1));
  }

  /** Only a view change changes the view. */
  lemma ViewsStay(env: Env, n: Node, ev: Event)
    requires WellFormed(n)
    ensures Handle(env, n, ev).members == if ev.ViewChange? then ev.members else n.members
  {
    hide Handle, FirstCommit, Finished, WellFormed;
    if ev.Crash? {
      CrashViews(env, n, ev);
    } else if FirstCommit(env, n, ev).Some? {
      FirstCommitBy(env, n, ev);
      HandledByCommit(env, n, ev);
      FirstCommitWellFormed(env, n, ev);
      FinishedKeepsSite(env, FirstCommit(env, n, ev).value);
    } else {
      OtherViews(env, n, ev);
    }
  }

  lemma CrashViews(env: Env, n: Node, ev: Event)
    requires WellFormed(n) && ev.Crash?
    ensures Handle(env, n, ev).members == n.members
  {
    hide Handle, FirstCommit, CommitHash, NextHistory, InitialHistory;
    CrashStops(env, n, ev);
    FirstCommitWellFormed(env, n, ev.during);
  }

  lemma OtherViews(env: Env, n: Node, ev: Event)
    requires WellFormed(n) && FirstCommit(env, n, ev).None? && !ev.Crash?
    ensures Handle(env, n, ev).members == if ev.ViewChange? then ev.members else n.members
  {
    hide HandleProposal, HandleApplication, HandleCommit, CommitBatch, CommitOne, Prepares, Receives;
    hide Finished, WellFormed, IsTokenHolder, NextBatch, ViewReady, Propose, InitialHistory, Logged, Ticked;
    match ev
    case Deliver(_, e) =>
      MessageKeepsSite(env, n, e);
      ReceivedIsFinished(env, n, e);
    case Resync(e) =>
      MessageKeepsSite(env, n, e);
      ReceivedIsFinished(env, n, e);
    case CommitTimer(_) => PreparedIsFinished(env, n, NextBatch(n.writer.proposals, env.cap));
    case CommitAtOnce(kind, data, meta, graceOver) => AtOnceViews(env, n, kind, data, meta, graceOver);
    case _ =>
  }

  lemma AtOnceViews(env: Env, n: Node, kind: ProposalType, data: Bytes, meta: BufferedProposal, graceOver: bool)
    requires WellFormed(n) && FirstCommit(env, n, CommitAtOnce(kind, data, meta, graceOver)).None?
    ensures CommitOne(env, n, kind, data, meta, graceOver).members == n.members
  {
    hide FirstCommit, CommitOne, Prepares, CommitBatch, WellFormed, Finished, CreateLocal, WithProposal;
    var made := CreateLocal(env, n, kind, data, meta);
    CommitOneCases(env, n, kind, data, meta, graceOver);
    if made.Some? {
      ProposedLocally(env, n, kind, data, meta);
      PreparedIsFinished(env, WithProposal(env, made.value.0, made.value.1), [made.value.1]);
    }
  }

  /** Views are sorted snapshots. */
  ghost predicate SortedViews(n: Node, events: seq<Event>) {
    StrictlySorted(Less, n.members) &&
    forall i :: 0 <= i < |events| && events[i].ViewChange? ==> StrictlySorted(Less, events[i].members)
  }

  lemma {:induction false} ViewsSorted(env: Env, n: Node, events: seq<Event>)
    requires WellFormed(n) && SortedViews(n, events)
    ensures StrictlySorted(Less, Run(env, n, events).members)
  {
    hide Handle, WellFormed, StrictlySorted;
    if events != [] {
      var init, last := events[..|events| - 1], events[|events| - 1];
      assert forall i :: 0 <= i < |init| ==> init[i] == events[i];
      ViewsSorted(env, n, init);
      ViewsStay(env, Run(env, n, init), last);
    }
  }

  /** The `k`-th commit of the log was put there by event `j`, as its `i`-th, and was justified there. */
  ghost predicate EnteredBy(env: Env, n: Node, events: seq<Event>, k: nat, j: nat, e: Envelope)
    requires WellFormed(n)
  {
    && j < |events|
    && var at := Run(env, n, events[..j]);
    |at.commits| <= k && Justified(env, at, events[j], k - |at.commits|, e)
  }

  /** Whoever sends what: every commit that a run adds to the log was justified at the event that added it. */
  lemma {:induction false} LogJustified(env: Env, n: Node, events: seq<Event>, k: nat)
    requires WellFormed(n) && SortedViews(n, events) && |n.commits| <= k < |Run(env, n, events).commits|
    ensures exists j: nat :: EnteredBy(env, n, events, k, j, Run(env, n, events).commits[k])
  {
    hide Handle, WellFormed, StrictlySorted, Justified, AppliedBy;
    if events != [] {
      var init, last := events[..|events| - 1], events[|events| - 1];
      assert forall i :: 0 <= i < |init| ==> init[i] == events[i];
      var at := Run(env, n, init);
      AppliedGrows(env, at, last);
      if k < |at.commits| {
        LogJustified(env, n, init, k);
        var j: nat :| EnteredBy(env, n, init, k, j, at.commits[k]);
        assert init[..j] == events[..j];
        assert Run(env, n, events).commits[k] == at.commits[k];
        assert EnteredBy(env, n, events, k, j, at.commits[k]);
      } else {
        ViewsSorted(env, n, init);
        AppliedJustified(env, at, last, k - |at.commits|);
        assert EnteredBy(env, n, events, k, |init|, Run(env, n, events).commits[k]);
      }
    }
  }
}
