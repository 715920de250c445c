/** Where a node's group state and tree hash come from: the MLS engine's answer to the last commit of its log. */
module EngineStates {
  import opened Bytes
  import opened Types
  import opened SingleWriter
  import opened EpochTracker
  import opened Agreement
  import opened HybridClock
  import opened Operations
  import opened Coordinator
  import opened NodeRuns
  import opened ReleasedChain
  import opened Admission
  import Confluence

  ghost function References(batch: seq<BufferedProposal>): seq<Bytes> {
    seq(|batch|, i requires 0 <= i < |batch| => batch[i].ref)
  }

  lemma {:induction false} ReferencesAre(batch: seq<BufferedProposal>)
    ensures Refs(batch) == References(batch)
  {
    if batch != [] {
      ReferencesAre(batch[..|batch| - 1]);
    }
  }

  /** MLS's answer to the first commit of an event: to a received one, to the next batch, or to one new proposal. */
  ghost predicate Computed(env: Env, n: Node, ev: Event, state: Bytes, tree: Bytes) {
    match ev
    case Deliver(_, e) => Answers(env, n.groupState, e, state, tree)
    case Resync(e) => Answers(env, n.groupState, e, state, tree)
    case CommitTimer(_) =>
      var made := env.mls.createCommit(n.groupState, References(NextBatch(n.writer.proposals, env.cap)));
      made.Some? && made.value.state == state && made.value.treeHash == tree
    case CommitAtOnce(kind, data, _, _) =>
      var proposal := env.mls.createProposal(n.groupState, kind, data);
      && proposal.Some?
      && var made := env.mls.createCommit(proposal.value.state, [proposal.value.ref]);
      made.Some? && made.value.state == state && made.value.treeHash == tree
    case _ => false
  }

  ghost predicate Answers(env: Env, s: Bytes, e: Envelope, state: Bytes, tree: Bytes) {
    && e.body.CommitBody? && e.body.commit.Some?
    && var c := e.body.commit.value;
    env.mls.processCommit(s, c.commitData, Datas(c.included)) == Some((state, tree))
  }

  /** The hash a node keeps of a commit: of its bytes, unless there are none. */
  function HashOf(env: Env, e: Envelope): Bytes {
    if !e.body.CommitBody? || e.body.commit.None? || e.body.commit.value.commitData == [] then []
    else env.group.sha256(e.body.commit.value.commitData)
  }

  lemma ReceivedAnswers(env: Env, n: Node, e: Envelope)
    requires Receives(env, n, e).Some?
    ensures var p := Receives(env, n, e).value;
            p.state != [] && Answers(env, n.groupState, e, p.state, p.treeHash) && p.at == n && p.envelope == e
  {
    hide PassesMetadata;
    DatasAre(e.body.commit.value.included);
  }

  lemma PreparedAnswers(env: Env, n: Node, batch: seq<BufferedProposal>)
    requires Prepares(env, n, batch).Some?
    ensures var p, made := Prepares(env, n, batch).value, env.mls.createCommit(n.groupState, References(batch));
            && made.Some? && p.state == made.value.state != [] && p.treeHash == made.value.treeHash
            && p.envelope.body == CommitBody(Some(p.commit)) && p.commit.commitData == made.value.data
            && p.commit.newTreeHash == made.value.treeHash && p.at.ops == n.ops
  {
    hide Ticked, Deliveries;
    ReferencesAre(batch);
  }

  lemma FirstComputed(env: Env, n: Node, ev: Event)
    requires FirstCommit(env, n, ev).Some?
    ensures var p := FirstCommit(env, n, ev).value;
            p.state != [] && Computed(env, n, ev, p.state, p.treeHash) && p.envelope.body == CommitBody(Some(p.commit))
  {
    hide Receives, Prepares, NextBatch, IsTokenHolder, ViewReady, Buffered;
    match ev
    case Deliver(_, e) =>
      ReceivedAnswers(env, n, e);
      ReceivesApplies(env, n, e);
    case Resync(e) =>
      ReceivedAnswers(env, n, e);
      ReceivesApplies(env, n, e);
    case CommitTimer(_) => PreparedAnswers(env, n, NextBatch(n.writer.proposals, env.cap));
    case CommitAtOnce(kind, data, meta, _) =>
      var made := CreateLocal(env, n, kind, data, meta).value;
      PreparedAnswers(env, WithProposal(env, made.0, made.1), [made.1]);
      assert References([made.1]) == [made.1.ref];
  }

  // ----- one commit -----

  /** The envelope has a first-seen time: an earlier one, or now. */
  ghost predicate FirstSeen(n: Node, hash: Bytes, r: Node) {
    r.firstSeen == if hash in n.firstSeen then n.firstSeen else n.firstSeen[hash := n.now]
  }

  /** What the fields of a new epoch say, for a commit with nothing behind it. */
  ghost predicate Renewed(env: Env, n: Node, e: Envelope, state: Bytes, tree: Bytes, r: Node) {
    && r.epoch == n.epoch + 1 && r.treeHash == tree && r.lastCommitHash == HashOf(env, e)
    && r.commits == n.commits + [e] && r.applied == n.applied + {env.envelopeHash(e)} && r.delivered == n.delivered
    && r.invalid == n.invalid && r.writer.suspended == {} && SameSite(n, r) && FirstSeen(n, env.envelopeHash(e), r)
    && (n.ops == [] ==> r.groupState == state && r.ops == [])
  }

  lemma BegunRenewed(env: Env, n: Node, p: Applying)
    requires WellFormed(p.at) && AppliesTo(env, n, p)
    ensures var r := Begun(env, p);
            && r.epoch == n.epoch + 1 && r.treeHash == p.treeHash && r.groupState == p.state
            && r.lastCommitHash == HashOf(env, p.envelope)
            && r.commits == n.commits + [p.envelope] && r.applied == n.applied + {env.envelopeHash(p.envelope)}
            && r.delivered == n.delivered && r.invalid == n.invalid && r.writer.suspended == {} && SameSite(n, r)
            && r.ops == n.ops && FirstSeen(n, env.envelopeHash(p.envelope), r)
  {
    hide NextHistory, InitialHistory;
  }

  /** A commit with nothing waiting behind it, received or issued: state, tree hash and log move on as MLS answered. */
  lemma OneCommitMoves(env: Env, n: Node, ev: Event)
    requires WellFormed(n) && !ev.Crash? && AppliedBy(env, n, ev) != [] && n.epoch + 1 !in n.future
    ensures AppliedBy(env, n, ev) == [AppliedBy(env, n, ev)[0]]
    ensures exists state, tree ::
              && state != [] && Computed(env, n, ev, state, tree)
              && Renewed(env, n, AppliedBy(env, n, ev)[0], state, tree, Handle(env, n, ev))
  {
    hide Handle, FirstCommit, Finished, Begun, WellFormed, Computed, SameSite, HashOf, FirstSeen;
    var p := FirstCommit(env, n, ev).value;
    FirstCommitWellFormed(env, n, ev);
    FirstComputed(env, n, ev);
    HandledByCommit(env, n, ev);
    BegunFits(env, p);
    BegunRenewed(env, n, p);
    AloneFinishes(env, p);
    assert Computed(env, n, ev, p.state, p.treeHash);
    SiteTrans(n, Begun(env, p), Handle(env, n, ev));
    SeenTrans(n, Begun(env, p), Handle(env, n, ev), env.envelopeHash(p.envelope));
    assert Renewed(env, n, p.envelope, p.state, p.treeHash, Handle(env, n, ev));
  }

  lemma SiteTrans(a: Node, b: Node, c: Node)
    requires SameSite(a, b) && SameSite(b, c)
    ensures SameSite(a, c)
  {
  }

  lemma SeenTrans(n: Node, b: Node, r: Node, hash: Bytes)
    requires FirstSeen(n, hash, b) && r.firstSeen == b.firstSeen
    ensures FirstSeen(n, hash, r)
  {
  }

  lemma AloneFinishes(env: Env, p: Applying)
    requires WellFormed(p.at) && p.at.epoch + 1 !in p.at.future
    ensures var b, r := Begun(env, p), Finished(env, p);
            && SameCore(b, r) && SameSite(b, r) && (b.ops == [] ==> r.groupState == b.groupState && r.ops == [])
  {
    hide Advanced, WithoutCommitted, Reconcile, WellFormed;
    BegunFits(env, p);
    assert Queue(p.at.future, p.at.epoch + 1) == [];
    assert Drain(env, Begun(env, p), []) == Begun(env, p);
    var drained := AdvanceAndDrain(env, p.at, p.envelope, p.commit.commitData, p.state, p.treeHash);
    assert drained == Begun(env, p);
    NothingToReconcile(env, drained, p.commit);
    NothingToReconcile(env, WithoutCommitted(drained, p.commit), p.commit);
  }

  lemma NothingToReconcile(env: Env, n: Node, c: CommitMsg)
    requires WellFormed(n)
    ensures n.ops == [] ==> Reconcile(env, n, c).groupState == n.groupState && Reconcile(env, n, c).ops == []
  {
  }

  /**
    * The state that a crash after ApplyCommit leaves: the record is MLS's answer, whether or not the chain was stored.
    */
  lemma CrashKeepsAnswer(env: Env, n: Node, ev: Event)
    requires WellFormed(n) && ev.Crash? && AppliedBy(env, n, ev) != []
    ensures |AppliedBy(env, n, ev)| == 1
    ensures var e, r := AppliedBy(env, n, ev)[0], Handle(env, n, ev);
            && Computed(env, n, ev.during, r.groupState, r.treeHash) && r.groupState != [] && r.epoch == n.epoch + 1
            && r.commits == n.commits + [e] && r.applied == n.applied + {env.envelopeHash(e)}
            && r.delivered == n.delivered && r.ops == n.ops && FirstSeen(n, env.envelopeHash(e), r)
            && r.lastCommitHash == if ev.persisted then HashOf(env, e) else n.lastCommitHash
  {
    hide Handle, FirstCommit, WellFormed, Computed, NextHistory, InitialHistory;
    var p := FirstCommit(env, n, ev.during).value;
    FirstCommitWellFormed(env, n, ev.during);
    FirstComputed(env, n, ev.during);
    CrashStops(env, n, ev);
  }

  // ----- chains of commits -----

  /** MLS gave this tree hash for this commit. */
  ghost predicate Gave(env: Env, e: Envelope, tree: Bytes) {
    && e.body.CommitBody? && e.body.commit.Some?
    && (|| (exists s, state :: Answers(env, s, e, state, tree) && state != [])
        || (exists s, refs :: Made(env, s, refs, e.body.commit.value, tree)))
  }

  ghost predicate Made(env: Env, s: Bytes, refs: seq<Bytes>, c: CommitMsg, tree: Bytes) {
    var made := env.mls.createCommit(s, refs);
    made.Some? && made.value.data == c.commitData && made.value.treeHash == tree == c.newTreeHash
      && made.value.state != []
  }

  /** The tree hash and the commit hash are those of the last commit, or unchanged. */
  ghost predicate Follows(env: Env, n: Node, applied: seq<Envelope>, r: Node) {
    if applied == [] then r.treeHash == n.treeHash && r.lastCommitHash == n.lastCommitHash
    else var last := applied[|applied| - 1]; Gave(env, last, r.treeHash) && r.lastCommitHash == HashOf(env, last)
  }

  lemma ReceivedGave(env: Env, n: Node, e: Envelope)
    requires Receives(env, n, e).Some?
    ensures var p := Receives(env, n, e).value; AppliesTo(env, n, p) && Gave(env, e, p.treeHash)
  {
    hide Receives;
    ReceivesApplies(env, n, e);
    ReceivedAnswers(env, n, e);
  }

  lemma MessageKeepsTree(env: Env, n: Node, e: Envelope)
    requires WellFormed(n) && e.epoch <= n.epoch && Receives(env, n, e).None?
    ensures var r := HandleQueued(env, n, e); r.treeHash == n.treeHash && r.lastCommitHash == n.lastCommitHash
  {
    hide HandleProposal, HandleApplication, HandleCommit, Receives, WellFormed;
    ReceivedIsFinished(env, n, e);
    ApplicationKeepsTree(env, n, e);
  }

  lemma ApplicationKeepsTree(env: Env, n: Node, e: Envelope)
    ensures var r := HandleApplication(env, n, e).0; r.treeHash == n.treeHash && r.lastCommitHash == n.lastCommitHash
  {
    hide ApplicationAction, Merged;
  }

  lemma {:induction false} LateKeepsTree(env: Env, n: Node, queue: seq<Envelope>)
    requires WellFormed(n) && forall m :: m in queue ==> m.epoch < n.epoch
    ensures var r := Drain(env, n, queue); r.treeHash == n.treeHash && r.lastCommitHash == n.lastCommitHash
    decreases |queue|
  {
    hide HandleQueued, WellFormed, Receives;
    if queue != [] {
      LateNotReceived(env, n, queue[0]);
      MessageKeepsTree(env, n, queue[0]);
      LateMessage(env, n, queue[0]);
      LateKeepsTree(env, HandleQueued(env, n, queue[0]), queue[1..]);
    }
  }

  lemma LateNotReceived(env: Env, n: Node, e: Envelope)
    requires e.epoch < n.epoch
    ensures Receives(env, n, e).None?
  {
  }

  lemma {:induction false} DrainFollows(env: Env, n: Node, queue: seq<Envelope>)
    requires WellFormed(n) && forall m :: m in queue ==> m.epoch <= n.epoch
    ensures Follows(env, n, Released(env, n, queue), Drain(env, n, queue))
    decreases Size(n.future) + |queue|
  {
    hide HandleQueued, WellFormed, Receives, Finished, Begun, Size, Queue, Released, Gave, HashOf;
    ReleasedStep(env, n, queue);
    if queue != [] {
      var p := Receives(env, n, queue[0]);
      if p.Some? {
        ReceivedAt(env, n, queue[0]);
        ReceivedGave(env, n, queue[0]);
        FinishedCommits(env, p.value);
        BegunFits(env, p.value);
        DrainFollows(env, Begun(env, p.value), Queue(n.future, n.epoch + 1));
        FinishedFollows(env, n, p.value);
        LateKeepsTree(env, HandleQueued(env, n, queue[0]), queue[1..]);
      } else {
        NotReceived(env, n, queue[0]);
        MessageKeepsTree(env, n, queue[0]);
        DrainFollows(env, HandleQueued(env, n, queue[0]), queue[1..]);
      }
    }
  }

  /** A commit, then what it releases. */
  lemma FinishedFollows(env: Env, n: Node, p: Applying)
    requires WellFormed(p.at) && AppliesTo(env, n, p) && Gave(env, p.envelope, p.treeHash)
    requires WellFormed(Begun(env, p)) && forall m ::
               m in Queue(n.future, n.epoch + 1) ==> m.epoch <= Begun(env, p).epoch
    requires var q := Queue(n.future, n.epoch + 1);
             Follows(env, Begun(env, p), Released(env, Begun(env, p), q), Drain(env, Begun(env, p), q))
    ensures Follows(env, n, [p.envelope] + Released(env, Begun(env, p), Queue(n.future, n.epoch + 1)), Finished(env, p))
  {
    hide Begun, Released, Drain, Gave, HashOf, WellFormed, Queue, WithoutCommitted, Reconcile, Advanced;
    BegunRenewed(env, n, p);
    FinishedIsDrained(env, p);
  }

  lemma FinishedIsDrained(env: Env, p: Applying)
    requires WellFormed(p.at)
    ensures WellFormed(Begun(env, p)) && forall m ::
              m in Queue(p.at.future, p.at.epoch + 1) ==> m.epoch <= Begun(env, p).epoch
    ensures SameCore(Drain(env, Begun(env, p), Queue(p.at.future, p.at.epoch + 1)), Finished(env, p))
  {
    hide Drain, WithoutCommitted, Reconcile, Advanced, WellFormed;
  }

  lemma FirstGave(env: Env, n: Node, ev: Event)
    requires FirstCommit(env, n, ev).Some?
    ensures var p := FirstCommit(env, n, ev).value; Gave(env, p.envelope, p.treeHash)
  {
    hide FirstCommit, Receives, Prepares, NextBatch;
    FirstCommitBy(env, n, ev);
    if ev.Deliver? || ev.Resync? {
      FirstCommitReceived(env, n, if ev.Deliver? then ev.from else n.local, ev.envelope);
      ReceivedAnswers(env, n, ev.envelope);
    } else if ev.CommitTimer? {
      FirstCommitOnTimer(env, n, ev.graceOver);
      PreparedGave(env, n, NextBatch(n.writer.proposals, env.cap));
    } else {
      AtOnceGave(env, n, ev.kind, ev.data, ev.meta, ev.graceOver);
    }
  }

  lemma PreparedGave(env: Env, n: Node, batch: seq<BufferedProposal>)
    requires Prepares(env, n, batch).Some?
    ensures var p := Prepares(env, n, batch).value; Gave(env, p.envelope, p.treeHash)
  {
    hide Prepares;
    PreparedAnswers(env, n, batch);
    var p := Prepares(env, n, batch).value;
    assert Made(env, n.groupState, References(batch), p.commit, p.treeHash);
  }

  lemma AtOnceGave(env: Env, n: Node, kind: ProposalType, data: Bytes, meta: BufferedProposal, graceOver: bool)
    requires FirstCommit(env, n, CommitAtOnce(kind, data, meta, graceOver)).Some?
    ensures var p := FirstCommit(env, n, CommitAtOnce(kind, data, meta, graceOver)).value;
            Gave(env, p.envelope, p.treeHash)
  {
    hide Prepares, IsTokenHolder, ViewReady, CreateLocal, WithProposal, Gave;
    var made := CreateLocal(env, n, kind, data, meta).value;
    PreparedGave(env, WithProposal(env, made.0, made.1), [made.1]);
  }

  /** One event, crashes aside: the tree hash is the one MLS gave for the last commit it applied. */
  lemma EventFollows(env: Env, n: Node, ev: Event)
    requires WellFormed(n) && !ev.Crash?
    ensures Follows(env, n, AppliedBy(env, n, ev), Handle(env, n, ev))
  {
    hide Handle, FirstCommit, Finished, Begun, Released, WellFormed, Gave, HashOf, Queue;
    if FirstCommit(env, n, ev).Some? {
      var p := FirstCommit(env, n, ev).value;
      FirstCommitWellFormed(env, n, ev);
      FirstGave(env, n, ev);
      HandledByCommit(env, n, ev);
      BegunFits(env, p);
      DrainFollows(env, Begun(env, p), Queue(n.future, n.epoch + 1));
      FinishedFollows(env, n, p);
    } else {
      OtherKeepsTree(env, n, ev);
    }
  }

  lemma OtherKeepsTree(env: Env, n: Node, ev: Event)
    requires WellFormed(n) && FirstCommit(env, n, ev).None? && !ev.Crash?
    ensures var r := Handle(env, n, ev); r.treeHash == n.treeHash && r.lastCommitHash == n.lastCommitHash
  {
    hide HandleProposal, HandleApplication, HandleCommit, CommitBatch, CommitOne, Prepares, Receives, Finished;
    hide WellFormed, IsTokenHolder, NextBatch, ViewReady, Propose, InitialHistory, Logged, Submitted, Ticked;
    match ev
    case Deliver(_, e) =>
      ApplicationKeepsTree(env, n, e);
      ReceivedIsFinished(env, n, e);
    case Resync(e) =>
      ApplicationKeepsTree(env, n, e);
      ReceivedIsFinished(env, n, e);
    case CommitTimer(_) => PreparedIsFinished(env, n, NextBatch(n.writer.proposals, env.cap));
    case CommitAtOnce(kind, data, meta, graceOver) => AtOnceKeepsTree(env, n, kind, data, meta, graceOver);
    case _ =>
  }

  lemma AtOnceKeepsTree(env: Env, n: Node, kind: ProposalType, data: Bytes, meta: BufferedProposal, graceOver: bool)
    requires WellFormed(n) && FirstCommit(env, n, CommitAtOnce(kind, data, meta, graceOver)).None?
    ensures var r := CommitOne(env, n, kind, data, meta, graceOver);
            r.treeHash == n.treeHash && r.lastCommitHash == n.lastCommitHash
  {
    hide FirstCommit, CommitOne, Prepares, CommitBatch, WellFormed, Finished, CreateLocal, WithProposal;
    var made := CreateLocal(env, n, kind, data, meta);
    CommitOneCases(env, n, kind, data, meta, graceOver);
    if made.Some? {
      ProposedLocally(env, n, kind, data, meta);
      PreparedIsFinished(env, WithProposal(env, made.value.0, made.value.1), [made.value.1]);
    }
  }

  // ----- every run -----

  lemma CrashGave(env: Env, n: Node, ev: Event)
    requires WellFormed(n) && ev.Crash?
    ensures var applied, r := AppliedBy(env, n, ev), Handle(env, n, ev);
            if applied == [] then r.treeHash == n.treeHash else Gave(env, applied[|applied| - 1], r.treeHash)
  {
    hide Handle, FirstCommit, WellFormed, NextHistory, InitialHistory, Logged, Gave;
    FirstCommitWellFormed(env, n, ev.during);
    CrashStops(env, n, ev);
    if FirstCommit(env, n, ev.during).Some? {
      FirstGave(env, n, ev.during);
    }
  }

  /**
    * Over every run, crashes and restarts included: the tree hash is the one MLS gave for the last commit of the log.
    */
  lemma {:induction false} TreeOfTheLog(env: Env, n: Node, events: seq<Event>)
    requires WellFormed(n)
    ensures var r := Run(env, n, events);
            if |r.commits| == |n.commits| then r.treeHash == n.treeHash
            else |r.commits| > |n.commits| && Gave(env, r.commits[|r.commits| - 1], r.treeHash)
  {
    hide Handle, WellFormed, Gave, AppliedBy, HashOf;
    if events != [] {
      var init, last := events[..|events| - 1], events[|events| - 1];
      var at := Run(env, n, init);
      TreeOfTheLog(env, n, init);
      AppliedGrows(env, at, last);
      if last.Crash? {
        CrashGave(env, at, last);
      } else {
        EventFollows(env, at, last);
      }
    }
  }

  // ----- a chain of commits delivered in order -----

  /** In-order delivery to an idle node: each state and tree hash is MLS's answer to the state before. */
  lemma InOrderStates(env: Env, n: Node, cs: seq<Envelope>, k: nat)
    requires WellFormed(n) && Confluence.Idle(n) && Confluence.ValidChain(env, n, cs) && k < |cs|
    ensures var before, after := Confluence.InOrder(env, n, cs, k), Confluence.InOrder(env, n, cs, k + 1);
            && Answers(env, before.groupState, cs[k], after.groupState, after.treeHash) && after.groupState != []
            && Renewed(env, before, cs[k], after.groupState, after.treeHash, after)
  {
    hide HandleCommit, WellFormed, Examine, Confluence.ValidChain, SameSite, HashOf;
    var before := Confluence.InOrder(env, n, cs, k);
    Confluence.InOrderSteps(env, n, cs, k);
    ChainReceives(env, before, cs[k]);
  }

  lemma ChainReceives(env: Env, n: Node, e: Envelope)
    requires WellFormed(n) && e.body.CommitBody? && e.body.commit.Some?
    requires Examine(env, n, e, e.body.commit.value).Accept?
    ensures var r := Confluence.Moved(env, n, e);
            && Answers(env, n.groupState, e, r.groupState, r.treeHash) && r.groupState != []
            && Renewed(env, n, e, r.groupState, r.treeHash, r)
  {
    hide PassesMetadata, NextHistory, InitialHistory;
    DatasAre(e.body.commit.value.included);
  }
}
