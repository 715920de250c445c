/** Bounded rebasing carried over to whole runs of a coordinator. */
module NodeOperations {
  import opened Bytes
  import opened Types
  import opened EpochTracker
  import opened Operations
  import opened Reconciliation
  import opened Coordinator
  import NodeRuns
  import R = OperationRuns

  /** The second value is the first one after some sequence of commits and of epoch changes up to `top`. */
  ghost predicate Evolves(a: Operation, b: Operation, maxRetries: nat, top: nat) {
    HasTarget(a) && exists es :: R.Within(es, top) && R.Run(a, es, maxRetries) == b
  }

  ghost predicate AllEvolve(a: seq<Operation>, b: seq<Operation>, maxRetries: nat, top: nat) {
    |a| <= |b| && forall i :: 0 <= i < |a| ==> Evolves(a[i], b[i], maxRetries, top)
  }

  lemma {:induction false} RunAppend(op: Operation, es: seq<R.Event>, fs: seq<R.Event>, maxRetries: nat)
    requires HasTarget(op)
    ensures R.Run(op, es + fs, maxRetries) == R.Run(R.Run(op, es, maxRetries), fs, maxRetries)
    decreases |es|
  {
    if es == [] {
      assert es + fs == fs;
    } else {
      assert (es + fs)[1..] == es[1..] + fs;
      RunAppend(R.Step(op, es[0], maxRetries), es[1..], fs, maxRetries);
    }
  }

  lemma EvolvesTransitive(a: Operation, b: Operation, c: Operation, maxRetries: nat, mid: nat, top: nat)
    requires Evolves(a, b, maxRetries, mid) && Evolves(b, c, maxRetries, top) && mid <= top
    ensures Evolves(a, c, maxRetries, top)
  {
    var es :| R.Within(es, mid) && R.Run(a, es, maxRetries) == b;
    var fs :| R.Within(fs, top) && R.Run(b, fs, maxRetries) == c;
    RunAppend(a, es, fs, maxRetries);
    assert R.Within(es + fs, top);
  }

  lemma EvolvesStep(a: Operation, e: R.Event, maxRetries: nat, top: nat)
    requires HasTarget(a) && (e.Rebase? ==> e.epoch <= top)
    ensures Evolves(a, R.Step(a, e, maxRetries), maxRetries, top)
  {
    assert [e][1..] == [];
    assert R.Within([e], top) && R.Run(a, [e], maxRetries) == R.Step(a, e, maxRetries);
  }

  lemma EvolvesSame(a: Operation, maxRetries: nat, top: nat)
    requires HasTarget(a)
    ensures Evolves(a, a, maxRetries, top)
  {
    assert R.Within([], top) && R.Run(a, [], maxRetries) == a;
  }

  lemma AllSame(n: Node, maxRetries: nat, top: nat)
    requires WellFormed(n)
    ensures AllEvolve(n.ops, n.ops, maxRetries, top)
  {
    forall i | 0 <= i < |n.ops|
      ensures Evolves(n.ops[i], n.ops[i], maxRetries, top)
    {
      EvolvesSame(n.ops[i], maxRetries, top);
    }
  }

  lemma AllTransitive(a: seq<Operation>, b: seq<Operation>, c: seq<Operation>, maxRetries: nat, mid: nat, top: nat)
    requires AllEvolve(a, b, maxRetries, mid) && AllEvolve(b, c, maxRetries, top) && mid <= top
    ensures AllEvolve(a, c, maxRetries, top)
  {
    hide Evolves;
    forall i | 0 <= i < |a|
      ensures Evolves(a[i], c[i], maxRetries, top)
    {
      EvolvesTransitive(a[i], b[i], c[i], maxRetries, mid, top);
    }
  }

  // ----- the handlers -----

  /** What the coordinator's own rebasing does to an operation is one event of the operation's run. */
  lemma RebaseOneIsStep(env: Env, n: Node, i: nat)
    requires i < |n.ops| && HasTarget(n.ops[i])
    ensures exists outcome ::
              RebaseOne(env, n, i).ops ==
              n.ops[i := Rebased(n.ops[i], n.epoch, n.now / 1000, env.maxRetries, Gone(env, n, n.ops[i]), outcome)]
  {
    hide Decide, Gone, Reproposed, SavedAfter;
    var op := n.ops[i];
    var gone := Gone(env, n, op);
    var decision := Decide(op, n.epoch, n.now / 1000, env.maxRetries, gone);
    var outcome: Option<Bytes> := None;
    if decision.Repropose? {
      if op.kind.OtherOperation? {
        OtherSaved(op, decision.op);
      } else {
        outcome := ReproposedIsSaved(env, n, i, decision.op);
      }
    }
    assert n.ops == n.ops[i := op];
    assert RebaseOne(env, n, i).ops == n.ops[i := Rebased(op, n.epoch, n.now / 1000, env.maxRetries, gone, outcome)];
  }

  lemma OtherSaved(op: Operation, moved: Operation)
    requires op.kind.OtherOperation? && SameIntent(op, moved)
    ensures SavedAfter(op, moved, None) == op
  {
  }

  lemma ReproposedIsSaved(env: Env, n: Node, i: nat, moved: Operation) returns (outcome: Option<Bytes>)
    requires i < |n.ops| && n.ops[i].target.Some? && SameIntent(n.ops[i], moved)
    ensures Reproposed(env, n, i, moved).ops == n.ops[i := SavedAfter(n.ops[i], moved, outcome)]
  {
    hide SavedAfter, SameIntents;
    var op := n.ops[i];
    var kind := if op.kind.AddMember? then Add else Remove;
    var meta := BufferedProposal(kind, [], [], op.id, op.target.value, "", "", "",
                                 if op.kind.AddMember? then op.operationHash else []);
    var made := CreateLocal(env, n, kind, op.payload, meta);
    outcome := if made.Some? then Some(env.group.sha256(made.value.1.data)) else None;
  }

  lemma RebaseOneEvolves(env: Env, n: Node, i: nat)
    requires WellFormed(n) && i < |n.ops|
    ensures AllEvolve(n.ops, RebaseOne(env, n, i).ops, env.maxRetries, n.epoch)
  {
    hide RebaseOne, Evolves, Rebased;
    RebaseOneIsStep(env, n, i);
    var gone := Gone(env, n, n.ops[i]);
    var outcome :|
      RebaseOne(env, n, i).ops == n.ops[i := Rebased(n.ops[i], n.epoch, n.now / 1000, env.maxRetries, gone, outcome)];
    var e := R.Rebase(n.epoch, n.now / 1000, gone, outcome);
    AllSame(n, env.maxRetries, n.epoch);
    EvolvesStep(n.ops[i], e, env.maxRetries, n.epoch);
  }

  lemma {:induction false} RebaseFromEvolves(env: Env, n: Node, i: nat)
    requires WellFormed(n) && i <= |n.ops|
    ensures AllEvolve(n.ops, RebaseFrom(env, n, i).ops, env.maxRetries, n.epoch)
    decreases |n.ops| - i
  {
    hide RebaseOne, AllEvolve;
    if i == |n.ops| {
      AllSame(n, env.maxRetries, n.epoch);
    } else {
      RebaseOneEvolves(env, n, i);
      RebaseFromEvolves(env, RebaseOne(env, n, i), i + 1);
      AllTransitive(n.ops, RebaseOne(env, n, i).ops, RebaseFrom(env, n, i).ops, env.maxRetries, n.epoch, n.epoch);
    }
  }

  lemma ObservedAllEvolves(ops: seq<Operation>, c: CommitMsg, maxRetries: nat, top: nat)
    requires forall i :: 0 <= i < |ops| ==> HasTarget(ops[i])
    ensures AllEvolve(ops, ObservedAll(ops, c), maxRetries, top)
  {
    hide Evolves;
    forall i | 0 <= i < |ops|
      ensures Evolves(ops[i], ObservedAll(ops, c)[i], maxRetries, top)
    {
      EvolvesStep(ops[i], R.Commit(c), maxRetries, top);
    }
  }

  lemma ReconcileEvolves(env: Env, n: Node, c: CommitMsg)
    requires WellFormed(n)
    ensures AllEvolve(n.ops, Reconcile(env, n, c).ops, env.maxRetries, n.epoch)
  {
    hide AllEvolve, RebaseFrom;
    var n1 := n.(ops := ObservedAll(n.ops, c));
    ObservedAllEvolves(n.ops, c, env.maxRetries, n.epoch);
    RebaseFromEvolves(env, n1, 0);
    AllTransitive(n.ops, n1.ops, Reconcile(env, n, c).ops, env.maxRetries, n.epoch, n.epoch);
  }

  lemma {:induction false} CommitEvolves(env: Env, n: Node, e: Envelope)
    requires WellFormed(n)
    ensures AllEvolve(n.ops, HandleCommit(env, n, e).0.ops, env.maxRetries, HandleCommit(env, n, e).0.epoch)
    decreases Size(n.future), 2
  {
    hide AllEvolve, Reconcile, Examine, AdvanceAndDrain, WithoutCommitted, WellFormed;
    AllSame(n, env.maxRetries, n.epoch);
    if Validate(e.epoch, n.epoch).Process? && e.body.CommitBody? && e.body.commit.Some? {
      var c := e.body.commit.value;
      var verdict := Examine(env, n, e, c);
      if verdict.Accept? {
        DrainedEvolves(env, n, e, c.commitData, verdict.state, verdict.treeHash, c);
      }
    }
  }

  /** Advancing, draining and then reconciling. */
  lemma {:induction false} DrainedEvolves(env: Env, n: Node, e: Envelope, data: Bytes, state: Bytes, treeHash: Bytes,
                                          c: CommitMsg)
    requires WellFormed(n)
    ensures var drained := AdvanceAndDrain(env, n, e, data, state, treeHash);
            && AllEvolve(n.ops, drained.ops, env.maxRetries, drained.epoch)
            && AllEvolve(n.ops, Reconcile(env, drained, c).ops, env.maxRetries, drained.epoch)
            && AllEvolve(n.ops, Reconcile(env, WithoutCommitted(drained, c), c).ops, env.maxRetries, drained.epoch)
    decreases Size(n.future), 1
  {
    hide AllEvolve, Reconcile, WithoutCommitted, WellFormed, Drain;
    AdvancedWellFormed(env, n, e, data, state, treeHash);
    var next := Advanced(env, n, e, data, state, treeHash);
    var drained := AdvanceAndDrain(env, n, e, data, state, treeHash);
    DrainEvolves(env, next, Queue(n.future, n.epoch + 1));
    assert next.ops == n.ops;
    ReconcileEvolves(env, drained, c);
    AllTransitive(n.ops, drained.ops, Reconcile(env, drained, c).ops, env.maxRetries, drained.epoch, drained.epoch);
    var less := WithoutCommitted(drained, c);
    ReconcileEvolves(env, less, c);
    AllTransitive(n.ops, drained.ops, Reconcile(env, less, c).ops, env.maxRetries, drained.epoch, drained.epoch);
  }

  lemma {:induction false} DrainEvolves(env: Env, n: Node, queue: seq<Envelope>)
    requires WellFormed(n) && (forall m :: m in queue ==> m.epoch <= n.epoch)
    ensures AllEvolve(n.ops, Drain(env, n, queue).ops, env.maxRetries, Drain(env, n, queue).epoch)
    decreases Size(n.future) + |queue|, 0
  {
    hide AllEvolve, HandleQueued, WellFormed;
    if queue == [] {
      AllSame(n, env.maxRetries, n.epoch);
    } else {
      var n1 := HandleQueued(env, n, queue[0]);
      QueuedEvolves(env, n, queue[0]);
      DrainEvolves(env, n1, queue[1..]);
      AllTransitive(n.ops, n1.ops, Drain(env, n, queue).ops, env.maxRetries, n1.epoch, Drain(env, n, queue).epoch);
    }
  }

  lemma {:induction false} QueuedEvolves(env: Env, n: Node, e: Envelope)
    requires WellFormed(n) && e.epoch <= n.epoch
    ensures AllEvolve(n.ops, HandleQueued(env, n, e).ops, env.maxRetries, HandleQueued(env, n, e).epoch)
    decreases Size(n.future), 3
  {
    hide AllEvolve, HandleCommit, HandleProposal, HandleApplication, WellFormed;
    AllSame(n, env.maxRetries, n.epoch);
    CommitEvolves(env, n, e);
  }

  // ----- a raised epoch costs a retry -----

  /** From position `i` on, one pass of rebasing is exactly one event per operation. */
  lemma {:induction false} RebaseFromIsStep(env: Env, n: Node, i: nat, j: nat)
    returns (gone: bool, outcome: Option<Bytes>)
    requires WellFormed(n) && i <= |n.ops| && j < |n.ops|
    ensures var after := RebaseFrom(env, n, i).ops[j];
            if j < i then after == n.ops[j]
            else after == Rebased(n.ops[j], n.epoch, n.now / 1000, env.maxRetries, gone, outcome)
    decreases |n.ops| - i
  {
    hide RebaseOne, Rebased;
    gone, outcome := false, None;
    if i < |n.ops| {
      var g, o := RebaseFromIsStep(env, RebaseOne(env, n, i), i + 1, j);
      RebaseOneIsStep(env, n, i);
      gone := Gone(env, n, n.ops[i]);
      outcome :|
        RebaseOne(env, n, i).ops == n.ops[i := Rebased(n.ops[i], n.epoch, n.now / 1000, env.maxRetries, gone, outcome)];
      if j > i {
        gone, outcome := g, o;
      }
    }
  }

  lemma ReconcileCosts(env: Env, n: Node, c: CommitMsg, i: nat)
    requires WellFormed(n) && i < |n.ops| && n.ops[i].preconditionEpoch.Some? && !n.ops[i].kind.OtherOperation?
    ensures var before, after := n.ops[i], Reconcile(env, n, c).ops[i];
            && before.retryCount <= after.retryCount
            && (Active(after.status) && before.preconditionEpoch.value < n.epoch ==>
                  after.retryCount == before.retryCount + 1)
  {
    hide RebaseFrom, Rebased, AfterCommit, ObservedAll, Active;
    var n1 := n.(ops := ObservedAll(n.ops, c));
    var gone, outcome := RebaseFromIsStep(env, n1, 0, i);
    assert n1.ops[i] == AfterCommit(n.ops[i], c);
    RebaseCosts(n.ops[i], c, n.epoch, n.now / 1000, env.maxRetries, gone, outcome);
  }

  lemma RebaseCosts(op: Operation, c: CommitMsg, epoch: nat, now: int, maxRetries: nat, gone: bool,
                    outcome: Option<Bytes>)
    requires HasTarget(op) && op.preconditionEpoch.Some? && !op.kind.OtherOperation?
    ensures var r := Rebased(AfterCommit(op, c), epoch, now, maxRetries, gone, outcome);
            && op.retryCount <= r.retryCount
            && (Active(r.status) && op.preconditionEpoch.value < epoch ==> r.retryCount == op.retryCount + 1)
  {
  }

  predicate CostsRetry(before: seq<Operation>, after: seq<Operation>, i: nat) {
    i < |before| && i < |after| && (Active(after[i].status) ==> after[i].retryCount > before[i].retryCount)
  }

  /** Advancing, draining and reconciling costs every operation that stays open a retry. */
  lemma DrainedCosts(env: Env, n: Node, e: Envelope, data: Bytes, state: Bytes, treeHash: Bytes, c: CommitMsg, i: nat)
    requires WellFormed(n) && i < |n.ops| && !n.ops[i].kind.OtherOperation?
    requires n.ops[i].preconditionEpoch.Some? && n.ops[i].preconditionEpoch.value <= n.epoch
    ensures var drained := AdvanceAndDrain(env, n, e, data, state, treeHash);
            && CostsRetry(n.ops, Reconcile(env, drained, c).ops, i)
            && CostsRetry(n.ops, Reconcile(env, WithoutCommitted(drained, c), c).ops, i)
  {
    hide Reconcile, AdvanceAndDrain, WithoutCommitted, WellFormed;
    var drained := AdvanceAndDrain(env, n, e, data, state, treeHash);
    DrainedEvolves(env, n, e, data, state, treeHash, c);
    var before, mid := n.ops[i], drained.ops[i];
    assert Evolves(before, mid, env.maxRetries, drained.epoch);
    var es :| R.Within(es, drained.epoch) && R.Run(before, es, env.maxRetries) == mid;
    R.RetryDatesOperation(before, es, env.maxRetries, drained.epoch);
    R.BoundedProposals(before, es, env.maxRetries);
    ReconcileCosts(env, drained, c, i);
    ReconcileCosts(env, WithoutCommitted(drained, c), c, i);
  }

  // ----- whole runs -----

  /** The event is a submission that replaces row `i`. */
  predicate Overwritten(n: Node, ev: NodeRuns.Event, i: nat) {
    ev.Request? && HasTarget(ev.op) && Overwrites(n.ops, ev.op, i)
  }

  /** What an event makes of one operation that it does not overwrite. */
  lemma HandleEvolves(env: Env, n: Node, ev: NodeRuns.Event, i: nat)
    requires WellFormed(n) && i < |n.ops|
    ensures var r := NodeRuns.Handle(env, n, ev);
            && r.epoch >= n.epoch && i < |r.ops|
            && (if Overwritten(n, ev, i) then r.ops[i] == ev.op
                else Evolves(n.ops[i], r.ops[i], env.maxRetries, r.epoch))
  {
    hide NodeRuns.Handle, Evolves, NodeRuns.FirstCommit, NodeRuns.Finished;
    hide NodeRuns.Minor, Advanced, Submitted, Overwrites, WellFormed;
    OperationHasTarget(n, i);
    NodeRuns.FirstCommitBy(env, n, ev);
    if NodeRuns.FirstCommit(env, n, ev).Some? {
      NodeRuns.HandledByCommit(env, n, ev);
      NodeRuns.FirstCommitWellFormed(env, n, ev);
      FinishedEvolves(env, NodeRuns.FirstCommit(env, n, ev).value, i);
    } else {
      OperationsStay(env, n, ev);
      EvolvesSame(n.ops[i], env.maxRetries, NodeRuns.Handle(env, n, ev).epoch);
    }
  }

  lemma OperationHasTarget(n: Node, i: nat)
    requires WellFormed(n) && i < |n.ops|
    ensures HasTarget(n.ops[i])
  {
  }

  /** Without a commit, and in a crash after one, only submissions change the stored operations. */
  lemma OperationsStay(env: Env, n: Node, ev: NodeRuns.Event)
    requires WellFormed(n) && NodeRuns.FirstCommit(env, n, ev).None?
    ensures var r := NodeRuns.Handle(env, n, ev);
            && r.epoch >= n.epoch
            && r.ops == if ev.Request? && HasTarget(ev.op) then Submitted(n.ops, ev.op) else n.ops
  {
    hide NodeRuns.Handle, NodeRuns.FirstCommit, CommitHash, NextHistory, InitialHistory, Submitted;
    if ev.Crash? {
      NodeRuns.CrashStops(env, n, ev);
      NodeRuns.FirstCommitWellFormed(env, n, ev.during);
    } else if ev.Restart? || ev.Request? {
      NodeRuns.Stored(env, n, ev);
    } else {
      NodeRuns.HandledWithoutCommit(env, n, ev);
    }
  }

  lemma FinishedEvolves(env: Env, p: NodeRuns.Applying, i: nat)
    requires WellFormed(p.at) && i < |p.at.ops|
    ensures var r := NodeRuns.Finished(env, p);
            r.epoch > p.at.epoch && i < |r.ops| && Evolves(p.at.ops[i], r.ops[i], env.maxRetries, r.epoch)
  {
    hide Evolves, AdvanceAndDrain, WithoutCommitted, Reconcile, WellFormed;
    DrainedEvolves(env, p.at, p.envelope, p.commit.commitData, p.state, p.treeHash, p.commit);
  }

  /** No event of the run overwrites row `i`. */
  ghost predicate NotOverwritten(env: Env, n: Node, events: seq<NodeRuns.Event>, i: nat)
    requires WellFormed(n)
  {
    forall k :: 0 <= k < |events| ==> !Overwritten(NodeRuns.Run(env, n, events[..k]), events[k], i)
  }

  lemma NotOverwrittenInit(env: Env, n: Node, events: seq<NodeRuns.Event>, i: nat)
    requires WellFormed(n) && NotOverwritten(env, n, events, i) && events != []
    ensures var init := events[..|events| - 1];
            NotOverwritten(env, n, init, i) && !Overwritten(NodeRuns.Run(env, n, init), events[|events| - 1], i)
  {
    hide NodeRuns.Run, Overwritten;
    var init := events[..|events| - 1];
    assert forall k :: 0 <= k < |init| ==> init[k] == events[k] && init[..k] == events[..k];
  }

  lemma {:induction false} RunEvolves(env: Env, n: Node, events: seq<NodeRuns.Event>, i: nat)
    requires WellFormed(n) && i < |n.ops| && NotOverwritten(env, n, events, i)
    ensures var r := NodeRuns.Run(env, n, events);
            r.epoch >= n.epoch && i < |r.ops| && Evolves(n.ops[i], r.ops[i], env.maxRetries, r.epoch)
    decreases |events|
  {
    hide Evolves, NodeRuns.Handle, Overwritten, NotOverwritten;
    if events == [] {
      EvolvesSame(n.ops[i], env.maxRetries, n.epoch);
    } else {
      var init, last := events[..|events| - 1], events[|events| - 1];
      var mid, end := NodeRuns.Run(env, n, init), NodeRuns.Run(env, n, events);
      NotOverwrittenInit(env, n, events, i);
      RunEvolves(env, n, init, i);
      HandleEvolves(env, mid, last, i);
      EvolvesTransitive(n.ops[i], mid.ops[i], end.ops[i], env.maxRetries, mid.epoch, end.epoch);
    }
  }

  /**
    * In every run of a coordinator that does not submit an operation's ID again, a final operation stays final,
    * keeps its intent and is never retried past the budget.
    */
  lemma OperationsStayBounded(env: Env, n: Node, events: seq<NodeRuns.Event>, i: nat)
    requires WellFormed(n) && i < |n.ops| && NotOverwritten(env, n, events, i)
    ensures i < |NodeRuns.Run(env, n, events).ops|
    ensures var before, after := n.ops[i], NodeRuns.Run(env, n, events).ops[i];
            && SameIntent(before, after)
            && (!Active(before.status) ==> !Active(after.status))
            && before.retryCount <= after.retryCount
            && after.retryCount <= if before.retryCount <= env.maxRetries then env.maxRetries else before.retryCount
  {
    hide NodeRuns.Run, NotOverwritten;
    RunEvolves(env, n, events, i);
    var end := NodeRuns.Run(env, n, events);
    var before, after := n.ops[i], end.ops[i];
    assert Evolves(before, after, env.maxRetries, end.epoch);
    var es :| R.Within(es, end.epoch) && R.Run(before, es, env.maxRetries) == after;
    R.BoundedProposals(before, es, env.maxRetries);
    if !Active(before.status) {
      R.FinalStaysFinal(before, es, env.maxRetries);
    }
  }

  /**
    * An event reopens a final operation if and only if it submits the same ID again and the row does not answer for it.
    */
  lemma ReopensExactly(env: Env, n: Node, ev: NodeRuns.Event, i: nat)
    requires WellFormed(n) && i < |n.ops| && !Active(n.ops[i].status)
    ensures i < |NodeRuns.Handle(env, n, ev).ops|
    ensures Active(NodeRuns.Handle(env, n, ev).ops[i].status) <==> Overwritten(n, ev, i) && Active(ev.op.status)
  {
    hide NodeRuns.Handle, Overwritten;
    HandleEvolves(env, n, ev, i);
    if !Overwritten(n, ev, i) {
      var r := NodeRuns.Handle(env, n, ev);
      assert Evolves(n.ops[i], r.ops[i], env.maxRetries, r.epoch);
      var es :| R.Within(es, r.epoch) && R.Run(n.ops[i], es, env.maxRetries) == r.ops[i];
      R.FinalStaysFinal(n.ops[i], es, env.maxRetries);
    }
  }

  /** Over a run, a final operation stays final at every point if and only if no event reopens it so. */
  lemma {:induction false} FinalForeverExactly(env: Env, n: Node, events: seq<NodeRuns.Event>, i: nat)
    requires WellFormed(n) && i < |n.ops| && !Active(n.ops[i].status)
    ensures FinalThroughout(env, n, events, i) <==> !ReopenedBy(env, n, events, i)
    decreases |events|
  {
    hide NodeRuns.Handle, Overwritten, FinalThroughout, ReopenedBy;
    if events == [] {
      NothingYet(env, n, i);
    } else {
      var init, last := events[..|events| - 1], events[|events| - 1];
      FinalForeverExactly(env, n, init, i);
      FinalStep(env, n, events, i);
      ReopenedStep(env, n, events, i);
      if FinalThroughout(env, n, init, i) {
        FinalAtEnd(env, n, init, i);
        ReopensExactly(env, NodeRuns.Run(env, n, init), last, i);
      }
    }
  }

  lemma NothingYet(env: Env, n: Node, i: nat)
    requires WellFormed(n) && i < |n.ops| && !Active(n.ops[i].status)
    ensures FinalThroughout(env, n, [], i) && !ReopenedBy(env, n, [], i)
  {
    assert forall events: seq<NodeRuns.Event> :: |events| == 0 ==> events == [];
  }

  lemma FinalAtEnd(env: Env, n: Node, events: seq<NodeRuns.Event>, i: nat)
    requires WellFormed(n) && FinalThroughout(env, n, events, i)
    ensures FinalAfter(env, n, events, i)
  {
    hide FinalAfter, WellFormed;
    assert events[..|events|] == events;
  }

  lemma FinalStep(env: Env, n: Node, events: seq<NodeRuns.Event>, i: nat)
    requires WellFormed(n) && events != []
    ensures FinalThroughout(env, n, events, i) <==>
            FinalThroughout(env, n, events[..|events| - 1], i) && FinalAfter(env, n, events, i)
  {
    hide FinalAfter, WellFormed;
    var init := events[..|events| - 1];
    assert forall k :: 0 <= k <= |init| ==> init[..k] == events[..k];
    assert events[..|events|] == events;
  }

  lemma ReopenedStep(env: Env, n: Node, events: seq<NodeRuns.Event>, i: nat)
    requires WellFormed(n) && events != []
    ensures var init, last := events[..|events| - 1], events[|events| - 1];
            ReopenedBy(env, n, events, i) <==>
            ReopenedBy(env, n, init, i) || (Overwritten(NodeRuns.Run(env, n, init), last, i) && Active(last.op.status))
  {
    hide NodeRuns.Run;
    var init := events[..|events| - 1];
    assert forall k :: 0 <= k <= |init| ==> init[..k] == events[..k];
    assert forall k :: 0 <= k < |init| ==> init[k] == events[k];
  }

  ghost predicate FinalThroughout(env: Env, n: Node, events: seq<NodeRuns.Event>, i: nat)
    requires WellFormed(n)
  {
    forall k :: 0 <= k <= |events| ==> FinalAfter(env, n, events[..k], i)
  }

  ghost predicate FinalAfter(env: Env, n: Node, events: seq<NodeRuns.Event>, i: nat)
    requires WellFormed(n)
  {
    var r := NodeRuns.Run(env, n, events);
    i < |r.ops| && !Active(r.ops[i].status)
  }

  ghost predicate ReopenedBy(env: Env, n: Node, events: seq<NodeRuns.Event>, i: nat)
    requires WellFormed(n)
  {
    exists k ::
      0 <= k < |events| && Overwritten(NodeRuns.Run(env, n, events[..k]), events[k], i) && Active(events[k].op.status)
  }

  /** The failing family: the only row for a key has failed or was superseded, and its ID is submitted again. */
  lemma ResubmissionReopens(env: Env, n: Node, op: Operation)
    requires WellFormed(n) && n.ops == [op] && !Active(op.status) && !Settled(op.status)
    ensures var again := NodeRuns.Request(op.(status := Pending, retryCount := 0));
            NodeRuns.Handle(env, n, again).ops == [op.(status := Pending, retryCount := 0)]
  {
    hide NodeRuns.Handle;
    OperationHasTarget(n, 0);
    NodeRuns.Stored(env, n, NodeRuns.Request(op.(status := Pending, retryCount := 0)));
  }

  // ----- epochs that rise -----

  /** Every event that finishes a commit costs an operation that stays open a retry. */
  lemma HandleCosts(env: Env, n: Node, ev: NodeRuns.Event, i: nat)
    requires WellFormed(n) && i < |n.ops| && !n.ops[i].kind.OtherOperation?
    requires n.ops[i].preconditionEpoch.Some? && n.ops[i].preconditionEpoch.value <= n.epoch
    requires NodeRuns.FirstCommit(env, n, ev).Some?
    ensures CostsRetry(n.ops, NodeRuns.Handle(env, n, ev).ops, i)
  {
    hide NodeRuns.FirstCommit, NodeRuns.Handle, AdvanceAndDrain, WithoutCommitted, Reconcile;
    NodeRuns.HandledByCommit(env, n, ev);
    NodeRuns.FirstCommitWellFormed(env, n, ev);
    var p := NodeRuns.FirstCommit(env, n, ev).value;
    DrainedCosts(env, p.at, p.envelope, p.commit.commitData, p.state, p.treeHash, p.commit, i);
  }

  /** How many events of a run finished a commit, and so raised the epoch and reconciled. */
  function Raises(env: Env, n: Node, events: seq<NodeRuns.Event>): nat
    requires WellFormed(n)
  {
    if events == [] then 0
    else
      var init := events[..|events| - 1];
      Raises(env, n, init) +
        (if NodeRuns.FirstCommit(env, NodeRuns.Run(env, n, init), events[|events| - 1]).Some? then 1 else 0)
  }

  /** Each such event costs an operation that stays open a retry. */
  lemma {:induction false} RaisesCostRetries(env: Env, n: Node, events: seq<NodeRuns.Event>, i: nat)
    requires WellFormed(n) && i < |n.ops| && !n.ops[i].kind.OtherOperation? && NotOverwritten(env, n, events, i)
    requires n.ops[i].preconditionEpoch.Some? && n.ops[i].preconditionEpoch.value <= n.epoch
    ensures var r := NodeRuns.Run(env, n, events);
            i < |r.ops|
              && (Active(r.ops[i].status) ==> r.ops[i].retryCount >= n.ops[i].retryCount + Raises(env, n, events))
    decreases |events|
  {
    hide NodeRuns.Handle, NodeRuns.FirstCommit, WellFormed, NotOverwritten, Overwritten;
    if events != [] {
      var init, last := events[..|events| - 1], events[|events| - 1];
      var mid, end := NodeRuns.Run(env, n, init), NodeRuns.Run(env, n, events);
      NotOverwrittenInit(env, n, events, i);
      RaisesCostRetries(env, n, init, i);
      RunDates(env, n, init, i);
      StepBounded(env, mid, last, i);
      if NodeRuns.FirstCommit(env, mid, last).Some? {
        HandleCosts(env, mid, last, i);
      }
    }
  }

  lemma StepBounded(env: Env, n: Node, ev: NodeRuns.Event, i: nat)
    requires WellFormed(n) && i < |n.ops| && !Overwritten(n, ev, i)
    ensures var r := NodeRuns.Handle(env, n, ev);
            && i < |r.ops| && n.ops[i].retryCount <= r.ops[i].retryCount
            && (Active(r.ops[i].status) ==> Active(n.ops[i].status))
  {
    hide NodeRuns.Handle, Overwritten;
    HandleEvolves(env, n, ev, i);
    var r := NodeRuns.Handle(env, n, ev);
    assert Evolves(n.ops[i], r.ops[i], env.maxRetries, r.epoch);
    var es :| R.Within(es, r.epoch) && R.Run(n.ops[i], es, env.maxRetries) == r.ops[i];
    R.BoundedProposals(n.ops[i], es, env.maxRetries);
    if !Active(n.ops[i].status) {
      R.FinalStaysFinal(n.ops[i], es, env.maxRetries);
    }
  }

  /** No run dates an operation later than the coordinator's own epoch. */
  lemma RunDates(env: Env, n: Node, events: seq<NodeRuns.Event>, i: nat)
    requires WellFormed(n) && i < |n.ops| && n.ops[i].preconditionEpoch.Some?
    requires n.ops[i].preconditionEpoch.value <= n.epoch
    requires NotOverwritten(env, n, events, i)
    ensures var r := NodeRuns.Run(env, n, events);
            && i < |r.ops| && SameIntent(n.ops[i], r.ops[i])
            && r.ops[i].preconditionEpoch.Some? && r.ops[i].preconditionEpoch.value <= r.epoch
  {
    hide NodeRuns.Run, NotOverwritten;
    RunEvolves(env, n, events, i);
    var end := NodeRuns.Run(env, n, events);
    assert Evolves(n.ops[i], end.ops[i], env.maxRetries, end.epoch);
    var es :| R.Within(es, end.epoch) && R.Run(n.ops[i], es, env.maxRetries) == end.ops[i];
    R.RetryDatesOperation(n.ops[i], es, env.maxRetries, end.epoch);
  }

  /**
    * Bounded rebasing over coordinator runs: an add or remove operation that is not submitted again is final once more
    * commits have been finished than it has retries left.
    */
  lemma FinalOnceEpochsRise(env: Env, n: Node, events: seq<NodeRuns.Event>, i: nat)
    requires WellFormed(n) && i < |n.ops| && !n.ops[i].kind.OtherOperation? && NotOverwritten(env, n, events, i)
    requires n.ops[i].preconditionEpoch.Some? && n.ops[i].preconditionEpoch.value <= n.epoch
    requires Raises(env, n, events) >= 1 && Raises(env, n, events) > env.maxRetries - n.ops[i].retryCount
    ensures i < |NodeRuns.Run(env, n, events).ops| && !Active(NodeRuns.Run(env, n, events).ops[i].status)
  {
    hide NodeRuns.Run, Raises, NotOverwritten;
    RaisesCostRetries(env, n, events, i);
    OperationsStayBounded(env, n, events, i);
  }
}
