/**
  * Idempotency keys over coordinator runs: exactly when a settled
  * operation outlives the committed change that undid it.
  */
module StaleKeys {
  import opened Bytes
  import opened Types
  import opened SingleWriter
  import opened EpochTracker
  import opened HybridClock
  import opened Operations
  import opened Reconciliation
  import opened Coordinator
  import opened ReleasedChain
  import opened Unwinding
  import Agreement
  import NodeOperations
  import NodeRuns
  import Ledger
  import CursorSafety
  import Transitions
  import R = OperationRuns

  /** The last direction in which the commits a node has applied moved a target. */
  function Direction(n: Node, t: string): R.Direction {
    LastMove(R.Untouched, n.commits, t)
  }

  /** No settled operation for `t` opposes the last committed change of `t`. */
  ghost predicate NoStale(n: Node, t: string) {
    forall i :: 0 <= i < |n.ops| && R.For(n.ops[i], t) ==> !R.Stale(n.ops[i], Direction(n, t))
  }

  // ----- what MLS answers about membership -----

  /** The identity a removal asks MLS about; no other operation asks. */
  function Who(op: Operation): Option<Bytes> {
    if op.kind.RemoveMember? then Some(op.payload) else None
  }

  predicate GoneFrom(env: Env, state: Bytes, who: Option<Bytes>) {
    who.Some? && env.mls.hasMember(state, who.value) == Some(false)
  }

  /** Proposals and messages remove nobody. */
  ghost predicate Steady(env: Env, who: Option<Bytes>) {
    && (forall s, k, d ::
          env.mls.createProposal(s, k, d).Some? && GoneFrom(env, env.mls.createProposal(s, k, d).value.state, who) ==>
            GoneFrom(env, s, who))
    && (forall s, d ::
          env.mls.processProposal(s, d).Some? && GoneFrom(env, env.mls.processProposal(s, d).value.1, who) ==>
            GoneFrom(env, s, who))
    && (forall s, d ::
          env.mls.decrypt(s, d).Some? && GoneFrom(env, env.mls.decrypt(s, d).value.1, who) ==> GoneFrom(env, s, who))
    && (forall s, d ::
          env.mls.encrypt(s, d).Some? && GoneFrom(env, env.mls.encrypt(s, d).value.1, who) ==> GoneFrom(env, s, who))
  }

  /**
    * From `s` to `s'` the member goes only if the commit says it
    * removes `t`, and is there if the commit says it adds `t`.
    */
  predicate Effect(env: Env, c: CommitMsg, t: string, who: Option<Bytes>, s: Bytes, s': Bytes) {
    && (AddsTarget(c, t) ==> !GoneFrom(env, s', who))
    && (!RemovesTarget(c, t) && GoneFrom(env, s', who) ==> GoneFrom(env, s, who))
  }

  /** A commit's routing metadata tell the truth about `t`, whose identity in the group is `who`. */
  ghost predicate Honest(env: Env, e: Envelope, t: string, who: Option<Bytes>) {
    var c := CommitOf(e);
    && (forall s ::
          var o := env.mls.processCommit(s, c.commitData, ProposalDatas(c.included));
          o.Some? ==> Effect(env, c, t, who, s, o.value.0))
    && (forall s, refs ::
          var o := env.mls.createCommit(s, refs);
          o.Some? && o.value.data == c.commitData ==> Effect(env, c, t, who, s, o.value.state))
  }

  ghost predicate AllHonest(env: Env, es: seq<Envelope>, t: string, who: Option<Bytes>) {
    forall k :: 0 <= k < |es| ==> Honest(env, es[k], t, who)
  }

  /** A member whose last committed change was an addition is not reported gone. */
  ghost predicate Inside(env: Env, n: Node, t: string, who: Option<Bytes>) {
    Direction(n, t).Added? ==> !GoneFrom(env, n.groupState, who)
  }

  lemma SameInside(env: Env, n: Node, r: Node, t: string, who: Option<Bytes>)
    requires Inside(env, n, t, who) && r.commits == n.commits
    requires GoneFrom(env, r.groupState, who) ==> GoneFrom(env, n.groupState, who)
    ensures Inside(env, r, t, who)
  {
  }

  lemma CreateLocalInside(env: Env, n: Node, kind: ProposalType, data: Bytes, meta: BufferedProposal, t: string,
                          who: Option<Bytes>)
    requires Steady(env, who) && Inside(env, n, t, who) && CreateLocal(env, n, kind, data, meta).Some?
    ensures Inside(env, CreateLocal(env, n, kind, data, meta).value.0, t, who)
  {
    SameInside(env, n, CreateLocal(env, n, kind, data, meta).value.0, t, who);
  }

  lemma CreateAndBufferInside(env: Env, n: Node, kind: ProposalType, data: Bytes, meta: BufferedProposal, t: string,
                              who: Option<Bytes>)
    requires Steady(env, who) && Inside(env, n, t, who)
    ensures Inside(env, CreateAndBuffer(env, n, kind, data, meta), t, who)
  {
    hide Steady, Inside, CreateLocal;
    var made := CreateLocal(env, n, kind, data, meta);
    if made.Some? {
      CreateLocalInside(env, n, kind, data, meta, t, who);
      SameInside(env, made.value.0, CreateAndBuffer(env, n, kind, data, meta), t, who);
    }
  }

  lemma ProposalInside(env: Env, n: Node, e: Envelope, t: string, who: Option<Bytes>)
    requires Steady(env, who) && Inside(env, n, t, who)
    ensures Inside(env, HandleProposal(env, n, e), t, who)
  {
    hide Inside, CreateAndBuffer;
    var r := HandleProposal(env, n, e);
    if e.body.ProposalBody? && e.body.proposal.Some? && e.body.proposal.value.kind.Join? {
      var m := e.body.proposal.value;
      var leaf := if m.targetIdentity == [] then env.textBytes(m.target) else m.targetIdentity;
      var removal := BufferedProposal(Remove, [], [], "", m.target, "", "", "", []);
      CreateAndBufferInside(env, n, Remove, leaf, removal, t, who);
      CreateAndBufferInside(env, n, Add, m.data, Agreement.FromMsg(m), t, who);
      CreateAndBufferInside(env, CreateAndBuffer(env, n, Remove, leaf, removal), Add, m.data, Agreement.FromMsg(m), t,
                            who);
    } else {
      SameInside(env, n, r, t, who);
    }
  }

  lemma ApplicationInside(env: Env, n: Node, e: Envelope, t: string, who: Option<Bytes>)
    requires Steady(env, who) && Inside(env, n, t, who)
    ensures Inside(env, HandleApplication(env, n, e).0, t, who)
  {
    hide Inside, ApplicationAction, Merged, Logged;
    SameInside(env, n, HandleApplication(env, n, e).0, t, who);
  }

  /** An epoch change by an honest commit. */
  lemma AdvancedInside(env: Env, n: Node, e: Envelope, data: Bytes, state: Bytes, treeHash: Bytes, t: string,
                       who: Option<Bytes>)
    requires Inside(env, n, t, who) && Effect(env, CommitOf(e), t, who, n.groupState, state)
    ensures Inside(env, Advanced(env, n, e, data, state, treeHash), t, who)
  {
    hide AddsTarget, RemovesTarget, CommitHash, NextHistory, GoneFrom;
    assert (n.commits + [e])[..|n.commits|] == n.commits;
  }

  // ----- one pass of reconciliation -----

  lemma RebaseOneInside(env: Env, n: Node, i: nat, t: string, who: Option<Bytes>)
    requires Steady(env, who) && Inside(env, n, t, who) && i < |n.ops| && HasTarget(n.ops[i])
    ensures Inside(env, RebaseOne(env, n, i), t, who)
  {
    hide Inside;
    SameInside(env, n, RebaseOne(env, n, i), t, who);
  }

  /** One pass gives operation `j` one answer; MLS calls its target gone only if the last committed change allows it. */
  lemma {:induction false} RebaseAnswers(env: Env, n: Node, i: nat, j: nat, t: string) returns (a: Answer)
    requires WellFormed(n) && i <= |n.ops| && j < |n.ops| && Steady(env, Who(n.ops[j]))
    requires Inside(env, n, t, Who(n.ops[j]))
    ensures var r := RebaseFrom(env, n, i);
            && Inside(env, r, t, Who(n.ops[j]))
            && r.ops[j] == (if j < i then n.ops[j]
                            else Rebased(n.ops[j], n.epoch, n.now / 1000, env.maxRetries, a.gone, a.outcome))
            && (n.ops[j].kind.RemoveMember? && a.gone ==> !Direction(n, t).Added?)
    decreases |n.ops| - i
  {
    hide RebaseOne, Rebased, Steady, Direction;
    a := Answer(false, None);
    if i < |n.ops| {
      var n1 := RebaseOne(env, n, i);
      RebaseOneInside(env, n, i, t, Who(n.ops[j]));
      NodeOperations.RebaseOneIsStep(env, n, i);
      var outcome :| n1.ops ==
                       n.ops[i :=
                               Rebased(n.ops[i], n.epoch, n.now / 1000, env.maxRetries, Gone(env, n, n.ops[i]),
                                       outcome)];
      SameDirection(n, n1, t);
      assert SameIntent(n.ops[j], n1.ops[j]);
      a := RebaseAnswers(env, n1, i + 1, j, t);
      if j == i {
        a := Answer(Gone(env, n, n.ops[i]), outcome);
      }
    }
  }

  lemma SameDirection(n: Node, r: Node, t: string)
    requires r.commits == n.commits
    ensures Direction(r, t) == Direction(n, t)
  {
  }

  lemma ReconcileAnswers(env: Env, n: Node, c: CommitMsg, j: nat, t: string) returns (a: Answer)
    requires WellFormed(n) && j < |n.ops| && Steady(env, Who(n.ops[j])) && Inside(env, n, t, Who(n.ops[j]))
    ensures var r := Reconcile(env, n, c);
            && |r.ops| == |n.ops| && Inside(env, r, t, Who(n.ops[j]))
            && r.ops[j] == Rebased(AfterCommit(n.ops[j], c), n.epoch, n.now / 1000, env.maxRetries, a.gone, a.outcome)
            && (n.ops[j].kind.RemoveMember? && a.gone ==> !Direction(n, t).Added?)
  {
    hide RebaseFrom, Rebased, Steady, AfterCommit;
    var n1 := n.(ops := ObservedAll(n.ops, c));
    assert SameIntent(n.ops[j], n1.ops[j]);
    a := RebaseAnswers(env, n1, 0, j, t);
  }

  // ----- one call -----

  /** What one call makes of operation `i`: the commits it adds to the log are reconciled last to first. */
  ghost predicate Unwinds(env: Env, n: Node, r: Node, i: nat, t: string, answers: seq<Answer>) {
    && n.commits <= r.commits && |answers| == |r.commits| - |n.commits| && r.epoch == n.epoch + |answers|
    && r.now == n.now
    && i < |n.ops| && |r.ops| == |n.ops| && HasTarget(n.ops[i])
    && r.ops[i] == Unwound(n.ops[i], r.commits[|n.commits|..], r.epoch, n.now / 1000, env.maxRetries, answers)
    && (n.ops[i].kind.RemoveMember? ==> forall k :: 0 <= k < |answers| && answers[k].gone ==> !Direction(r, t).Added?)
    && Inside(env, r, t, Who(n.ops[i]))
  }

  /** A handler that applies no commit and leaves the operations alone. */
  lemma StillUnwinds(env: Env, n: Node, r: Node, i: nat, t: string)
    requires WellFormed(n) && i < |n.ops| && r.commits == n.commits && r.epoch == n.epoch && r.now == n.now
    requires r.ops == n.ops
    requires Inside(env, r, t, Who(n.ops[i]))
    ensures Unwinds(env, n, r, i, t, [])
  {
    assert r.commits[|n.commits|..] == [];
  }

  ghost predicate Ready(env: Env, n: Node, i: nat, t: string) {
    WellFormed(n) && i < |n.ops| && Steady(env, Who(n.ops[i])) && Inside(env, n, t, Who(n.ops[i]))
  }

  /** The commits that lead from `n` to `r` are honest about operation `i`'s target. */
  ghost predicate HonestBetween(env: Env, n: Node, r: Node, i: nat, t: string) {
    i < |n.ops| && |n.commits| <= |r.commits| && AllHonest(env, r.commits[|n.commits|..], t, Who(n.ops[i]))
  }

  lemma MessageUnwinds(env: Env, n: Node, e: Envelope, i: nat, t: string)
    requires Ready(env, n, i, t)
    ensures Unwinds(env, n, HandleProposal(env, n, e), i, t, [])
    ensures Unwinds(env, n, HandleApplication(env, n, e).0, i, t, [])
  {
    hide HandleProposal, HandleApplication, Unwinds, Inside, Steady, WellFormed;
    NodeRuns.MessagesMinor(env, n, e);
    ProposalInside(env, n, e, t, Who(n.ops[i]));
    ApplicationInside(env, n, e, t, Who(n.ops[i]));
    StillUnwinds(env, n, HandleProposal(env, n, e), i, t);
    StillUnwinds(env, n, HandleApplication(env, n, e).0, i, t);
  }

  /** A commit already behind the node's epoch, or any other waiting message. */
  lemma LateUnwinds(env: Env, n: Node, e: Envelope, i: nat, t: string)
    requires Ready(env, n, i, t) && e.epoch < n.epoch
    ensures Unwinds(env, n, HandleQueued(env, n, e), i, t, [])
  {
    hide HandleProposal, HandleApplication, Unwinds, Inside, Steady, WellFormed;
    MessageUnwinds(env, n, e, i, t);
    StillUnwinds(env, n, n, i, t);
  }

  lemma UnwindsReady(env: Env, n: Node, r: Node, i: nat, t: string, answers: seq<Answer>)
    requires Ready(env, n, i, t) && Unwinds(env, n, r, i, t, answers) && WellFormed(r)
    ensures Ready(env, r, i, t)
  {
    hide Steady, Unwound, WellFormed, Inside;
  }

  /** Two calls of which the second applies no commit. */
  lemma UnwindsThenStill(env: Env, n: Node, m: Node, r: Node, i: nat, t: string, answers: seq<Answer>)
    requires Unwinds(env, n, m, i, t, answers) && Unwinds(env, m, r, i, t, [])
    ensures Unwinds(env, n, r, i, t, answers)
  {
    hide Inside, Direction;
    assert r.commits == m.commits;
    assert m.commits[|m.commits|..] == [];
    SameDirection(m, r, t);
  }

  /** And of which the first applies none. */
  lemma StillThenUnwinds(env: Env, n: Node, m: Node, r: Node, i: nat, t: string, answers: seq<Answer>)
    requires Unwinds(env, n, m, i, t, []) && Unwinds(env, m, r, i, t, answers)
    ensures Unwinds(env, n, r, i, t, answers)
  {
    hide Inside, Direction;
    assert m.commits == n.commits;
    assert m.commits[|n.commits|..] == [];
  }

  lemma {:induction false} LateDrainUnwinds(env: Env, n: Node, queue: seq<Envelope>, i: nat, t: string)
    requires Ready(env, n, i, t) && (forall m :: m in queue ==> m.epoch < n.epoch)
    ensures Unwinds(env, n, Drain(env, n, queue), i, t, [])
    decreases |queue|
  {
    hide Unwinds, Ready, HandleQueued;
    ReadyMeans(env, n, i, t);
    if queue == [] {
      StillUnwinds(env, n, n, i, t);
    } else {
      var n1 := HandleQueued(env, n, queue[0]);
      LateUnwinds(env, n, queue[0], i, t);
      UnwindsReady(env, n, n1, i, t, []);
      UnwindsEpoch(env, n, n1, i, t, []);
      LateDrainUnwinds(env, n1, queue[1..], i, t);
      StillThenUnwinds(env, n, n1, Drain(env, n, queue), i, t, []);
    }
  }

  lemma ReadyMeans(env: Env, n: Node, i: nat, t: string)
    requires Ready(env, n, i, t)
    ensures WellFormed(n) && i < |n.ops| && Inside(env, n, t, Who(n.ops[i])) && Steady(env, Who(n.ops[i]))
  {
  }

  lemma UnwindsEpoch(env: Env, n: Node, r: Node, i: nat, t: string, answers: seq<Answer>)
    requires Unwinds(env, n, r, i, t, answers)
    ensures r.epoch == n.epoch + |answers| && |r.commits| == |n.commits| + |answers| && n.commits <= r.commits
    ensures i < |n.ops| == |r.ops| && Who(n.ops[i]) == Who(r.ops[i])
  {
  }

  // ----- the recursion -----

  lemma {:induction false} CommitUnwinds(env: Env, n: Node, e: Envelope, i: nat, t: string)
    returns (answers: seq<Answer>)
    requires Ready(env, n, i, t) && HonestBetween(env, n, HandleCommit(env, n, e).0, i, t)
    ensures Unwinds(env, n, HandleCommit(env, n, e).0, i, t, answers)
    decreases Size(n.future), 2
  {
    hide Ready, Unwinds, HonestBetween, Examine, NodeRuns.Finished;
    ReadyMeans(env, n, i, t);
    NodeRuns.ReceivedIsFinished(env, n, e);
    var p := NodeRuns.Receives(env, n, e);
    if p.Some? {
      ReceivedEffect(env, n, e, i, t);
      answers := FinishedUnwinds(env, p.value, i, t);
    } else {
      answers := [];
      NotReceivedStill(env, n, e, i, t);
    }
  }

  lemma NotReceivedStill(env: Env, n: Node, e: Envelope, i: nat, t: string)
    requires Ready(env, n, i, t) && NodeRuns.Receives(env, n, e).None?
    ensures Unwinds(env, n, HandleCommit(env, n, e).0, i, t, [])
  {
    hide HandleCommit, NodeRuns.Receives, Unwinds;
    NodeRuns.ReceivedIsFinished(env, n, e);
    StillUnwinds(env, n, HandleCommit(env, n, e).0, i, t);
  }

  /** Where the state of a commit about to be applied comes from. */
  ghost predicate TrueEffect(env: Env, p: NodeRuns.Applying, i: nat, t: string) {
    i < |p.at.ops| && CommitOf(p.envelope) == p.commit
      && Effect(env, p.commit, t, Who(p.at.ops[i]), p.at.groupState, p.state)
  }

  lemma ReceivedEffect(env: Env, n: Node, e: Envelope, i: nat, t: string)
    requires WellFormed(n) && NodeRuns.Receives(env, n, e).Some?
    requires HonestBetween(env, n, HandleCommit(env, n, e).0, i, t)
    ensures var p := NodeRuns.Receives(env, n, e).value;
            && TrueEffect(env, p, i, t) && p.at == n && HandleCommit(env, n, e).0 == NodeRuns.Finished(env, p)
  {
    hide HandleCommit, Effect, GoneFrom, NodeRuns.Finished;
    NodeRuns.ReceivedIsFinished(env, n, e);
    var p := NodeRuns.Receives(env, n, e).value;
    FinishedGrows(env, p);
    var r := NodeRuns.Finished(env, p);
    assert r.commits[|n.commits|..][0] == e;
    assert Honest(env, r.commits[|n.commits|..][0], t, Who(n.ops[i]));
  }

  /** The log after the call starts with the commit that began it. */
  lemma FinishedGrows(env: Env, p: NodeRuns.Applying)
    requires WellFormed(p.at)
    ensures p.at.commits + [p.envelope] <= NodeRuns.Finished(env, p).commits
  {
    hide NodeRuns.Finished, Transitions.Leads, CommitHash, NextHistory;
    var pool, path := Ledger.TailPath(env, p);
    CursorSafety.PathProgress(env, pool, path, Ledger.Moved(env, p), NodeRuns.Finished(env, p));
    assert CursorSafety.Progress(env, Ledger.Moved(env, p), NodeRuns.Finished(env, p));
  }

  lemma DrainGrows(env: Env, n: Node, queue: seq<Envelope>)
    requires WellFormed(n) && forall m :: m in queue ==> m.epoch <= n.epoch
    ensures n.commits <= Drain(env, n, queue).commits
  {
    hide Drain, Transitions.Leads, Transitions.Sound, Transitions.PoolSpares;
    var pool := Held(n) + set m | m in queue;
    Ledger.TriviallySound(n, pool);
    var path := Transitions.DrainPath(env, {}, pool, n, queue);
    CursorSafety.PathProgress(env, pool, path, n, Drain(env, n, queue));
    assert CursorSafety.Progress(env, n, Drain(env, n, queue));
  }

  lemma {:induction false} QueuedUnwinds(env: Env, n: Node, e: Envelope, i: nat, t: string)
    returns (answers: seq<Answer>)
    requires Ready(env, n, i, t) && e.epoch <= n.epoch && HonestBetween(env, n, HandleQueued(env, n, e), i, t)
    ensures Unwinds(env, n, HandleQueued(env, n, e), i, t, answers)
    decreases Size(n.future), 3
  {
    hide Ready, Unwinds, HonestBetween, HandleCommit, HandleProposal, HandleApplication;
    ReadyMeans(env, n, i, t);
    if e.body.CommitBody? {
      answers := CommitUnwinds(env, n, e, i, t);
    } else {
      answers := [];
      MessageUnwinds(env, n, e, i, t);
      StillUnwinds(env, n, n, i, t);
    }
  }

  lemma HonestPart(env: Env, n: Node, m: Node, r: Node, i: nat, t: string)
    requires HonestBetween(env, n, r, i, t) && n.commits <= m.commits <= r.commits
    ensures HonestBetween(env, n, m, i, t)
    ensures i < |m.ops| && Who(m.ops[i]) == Who(n.ops[i]) ==> HonestBetween(env, m, r, i, t)
  {
    hide Honest;
    var news := r.commits[|n.commits|..];
    assert forall k :: 0 <= k < |m.commits| - |n.commits| ==> m.commits[|n.commits|..][k] == news[k];
    assert forall k ::
             0 <= k < |r.commits| - |m.commits| ==> r.commits[|m.commits|..][k] == news[k + |m.commits| - |n.commits|];
  }

  /** The drain: at most one of the waiting messages is a commit that is applied; the others are then behind. */
  lemma {:induction false} DrainUnwinds(env: Env, n: Node, queue: seq<Envelope>, i: nat, t: string)
    returns (answers: seq<Answer>)
    requires Ready(env, n, i, t) && WellFormed(n) && (forall m :: m in queue ==> m.epoch <= n.epoch)
    requires HonestBetween(env, n, Drain(env, n, queue), i, t)
    ensures Unwinds(env, n, Drain(env, n, queue), i, t, answers)
    decreases Size(n.future) + |queue|, 0
  {
    hide Ready, Unwinds, HonestBetween, HandleQueued, WellFormed;
    ReadyMeans(env, n, i, t);
    if queue == [] {
      answers := [];
      StillUnwinds(env, n, n, i, t);
    } else {
      var n1, r, rest := HandleQueued(env, n, queue[0]), Drain(env, n, queue), queue[1..];
      QueuedGrows(env, n, queue[0]);
      DrainGrows(env, n1, rest);
      HonestPart(env, n, n1, r, i, t);
      answers := QueuedUnwinds(env, n, queue[0], i, t);
      UnwindsReady(env, n, n1, i, t, answers);
      UnwindsEpoch(env, n, n1, i, t, answers);
      if answers == [] {
        answers := DrainUnwinds(env, n1, rest, i, t);
        StillThenUnwinds(env, n, n1, r, i, t, answers);
      } else {
        LateDrainUnwinds(env, n1, rest, i, t);
        UnwindsThenStill(env, n, n1, r, i, t, answers);
      }
    }
  }

  lemma QueuedGrows(env: Env, n: Node, e: Envelope)
    requires WellFormed(n) && e.epoch <= n.epoch
    ensures n.commits <= HandleQueued(env, n, e).commits
  {
    hide HandleQueued;
    DrainGrows(env, n, [e]);
    assert Drain(env, n, [e]) == HandleQueued(env, n, e);
  }

  lemma {:induction false} FinishedUnwinds(env: Env, p: NodeRuns.Applying, i: nat, t: string)
    returns (answers: seq<Answer>)
    requires WellFormed(p.at) && Ready(env, p.at, i, t) && TrueEffect(env, p, i, t)
    requires HonestBetween(env, p.at, NodeRuns.Finished(env, p), i, t)
    ensures Unwinds(env, p.at, NodeRuns.Finished(env, p), i, t, answers)
    decreases Size(p.at.future), 1
  {
    hide Ready, Unwinds, HonestBetween, WellFormed, Drain, WithoutCommitted;
    hide Reconcile, Inside, TrueEffect, CommitHash, NextHistory;
    var n, r := p.at, NodeRuns.Finished(env, p);
    ReadyMeans(env, n, i, t);
    var n1 := Advanced(env, n, p.envelope, p.commit.commitData, p.state, p.treeHash);
    var queue := Queue(n.future, n.epoch + 1);
    AdvancedWellFormed(env, n, p.envelope, p.commit.commitData, p.state, p.treeHash);
    AdvancedReady(env, p, i, t);
    var drained := Drain(env, n1, queue);
    DrainGrows(env, n1, queue);
    HonestPart(env, n, n1, r, i, t);
    HonestPart(env, n1, drained, r, i, t);
    var later := DrainUnwinds(env, n1, queue, i, t);
    UnwindsReady(env, n1, drained, i, t, later);
    UnwindsEpoch(env, n1, drained, i, t, later);
    var base := if p.received then WithoutCommitted(drained, p.commit) else drained;
    BaseInside(env, drained, base, i, t);
    var a := ReconcileAnswers(env, base, p.commit, i, t);
    answers := [a] + later;
    Outermost(env, p, n1, drained, base, r, i, t, a, later);
  }

  lemma AdvancedReady(env: Env, p: NodeRuns.Applying, i: nat, t: string)
    requires Ready(env, p.at, i, t) && TrueEffect(env, p, i, t)
    ensures var n1 := Advanced(env, p.at, p.envelope, p.commit.commitData, p.state, p.treeHash);
            Ready(env, n1, i, t) && n1.ops == p.at.ops
    ensures CommitOf(p.envelope) == p.commit
  {
    hide Inside, Steady, Effect, CommitHash, NextHistory;
    AdvancedWellFormed(env, p.at, p.envelope, p.commit.commitData, p.state, p.treeHash);
    AdvancedInside(env, p.at, p.envelope, p.commit.commitData, p.state, p.treeHash, t, Who(p.at.ops[i]));
  }

  lemma BaseInside(env: Env, drained: Node, base: Node, i: nat, t: string)
    requires Ready(env, drained, i, t) && WellFormed(base) && base.commits == drained.commits && base.ops == drained.ops
    requires base.groupState == drained.groupState
    ensures Inside(env, base, t, Who(base.ops[i])) && Steady(env, Who(base.ops[i]))
  {
    hide Steady, WellFormed;
    SameInside(env, drained, base, t, Who(drained.ops[i]));
  }

  /** The commit that began the call is reconciled on top of everything it released. */
  lemma Outermost(env: Env, p: NodeRuns.Applying, n1: Node, drained: Node, base: Node, r: Node, i: nat, t: string,
                  a: Answer, later: seq<Answer>)
    requires n1.commits == p.at.commits + [p.envelope] && n1.ops == p.at.ops && n1.epoch == p.at.epoch + 1
    requires n1.now == p.at.now
    requires CommitOf(p.envelope) == p.commit && Unwinds(env, n1, drained, i, t, later)
    requires base.commits == drained.commits == r.commits && base.ops == drained.ops
    requires base.epoch == drained.epoch == r.epoch
    requires base.now == drained.now == r.now && |r.ops| == |base.ops|
    requires r.ops[i] ==
               Rebased(AfterCommit(base.ops[i], p.commit), base.epoch, base.now / 1000, env.maxRetries, a.gone,
                       a.outcome)
    requires (base.ops[i].kind.RemoveMember? && a.gone ==> !Direction(base, t).Added?)
    requires Inside(env, r, t, Who(base.ops[i]))
    ensures Unwinds(env, p.at, r, i, t, [a] + later)
  {
    hide Inside, Direction, Rebased, AfterCommit, CommitOf;
    var chain := r.commits[|p.at.commits|..];
    assert chain[0] == p.envelope;
    assert chain[1..] == r.commits[|n1.commits|..];
    assert ([a] + later)[1..] == later;
    SameDirection(base, r, t);
    SameDirection(drained, r, t);
  }

  // ----- every event -----

  /**
    * The event leaves this operation stale. A crash after ApplyCommit does so to a settled operation that the commit
    * opposes. Otherwise a chain of commits does so to an open one: it first serves the operation, then takes that back,
    * and the operation is still open when the earlier commit is reconciled last.
    */
  ghost predicate Overtaken(env: Env, n: Node, ev: NodeRuns.Event, op: Operation, t: string)
    requires WellFormed(n)
  {
    var chain := AppliedBy(env, n, ev);
    if ev.Crash? then Settled(op.status) && SomeOpposes(op.kind, chain, t)
    else Active(op.status) && StaysOpen(op, n.epoch + |chain|, n.now / 1000, env.maxRetries)
           && Crossed(op.kind, chain, t)
  }

  ghost predicate Overtakes(env: Env, n: Node, ev: NodeRuns.Event, t: string)
    requires WellFormed(n)
  {
    exists i :: 0 <= i < |n.ops| && R.For(n.ops[i], t) && Overtaken(env, n, ev, n.ops[i], t)
  }

  /** Removals of `t` in the table get true answers from MLS. */
  ghost predicate Answered(env: Env, n: Node, t: string) {
    forall i ::
      0 <= i < |n.ops| && R.For(n.ops[i], t) ==> Inside(env, n, t, Who(n.ops[i])) && Steady(env, Who(n.ops[i]))
  }

  /** The commits of the event name operations rightly and move `t` as they say; a new operation starts unsettled. */
  ghost predicate Sincere(env: Env, n: Node, ev: NodeRuns.Event, t: string)
    requires WellFormed(n)
  {
    && (forall k :: 0 <= k < |AppliedBy(env, n, ev)| ==> R.Consistent(CommitOf(AppliedBy(env, n, ev)[k]), n.ops))
    && (forall i :: 0 <= i < |n.ops| && R.For(n.ops[i], t) ==> AllHonest(env, AppliedBy(env, n, ev), t, Who(n.ops[i])))
    && (ev.Request? && HasTarget(ev.op) ==>
          !Settled(ev.op.status) && (R.For(ev.op, t) ==> Inside(env, n, t, Who(ev.op)) && Steady(env, Who(ev.op))))
  }

  lemma NamedRightly(c: Envelope, ops: seq<Operation>, i: nat)
    requires i < |ops| && R.Consistent(CommitOf(c), ops)
    ensures NamesRightly(c, ops[i])
  {
    assert [ops[i]][0] == ops[i];
  }

  /** An event that finishes a commit, for one operation. */
  lemma CommitExact(env: Env, n: Node, ev: NodeRuns.Event, i: nat, t: string)
    requires WellFormed(n) && t != "" && NodeRuns.FirstCommit(env, n, ev).Some? && !ev.Crash?
    requires i < |n.ops| && R.For(n.ops[i], t) && !R.Stale(n.ops[i], Direction(n, t))
    requires Answered(env, n, t) && Sincere(env, n, ev, t)
    ensures var r := NodeRuns.Handle(env, n, ev);
            && |r.ops| == |n.ops| && SameIntent(n.ops[i], r.ops[i]) && Inside(env, r, t, Who(r.ops[i]))
            && (R.Stale(r.ops[i], Direction(r, t)) <==> Overtaken(env, n, ev, n.ops[i], t))
  {
    hide NodeRuns.Handle, NodeRuns.FirstCommit, Inside, Steady, R.Consistent;
    hide Overtaken, Direction, Unwound, WellFormed, AllHonest, R.Stale, AppliedBy;
    var r := NodeRuns.Handle(env, n, ev);
    var answers := EventUnwinds(env, n, ev, i, t);
    var chain := AppliedBy(env, n, ev);
    AppliedGrows(env, n, ev);
    LastMoveAppend(R.Untouched, n.commits, chain, t);
    DirectionMeans(n, t);
    DirectionMeans(r, t);
    OverdueExact(env, n, ev, r, i, t, answers);
  }

  lemma DirectionMeans(n: Node, t: string)
    ensures Direction(n, t) == LastMove(R.Untouched, n.commits, t)
  {
  }

  /** The per-operation result, read off the unwinding. */
  lemma OverdueExact(env: Env, n: Node, ev: NodeRuns.Event, r: Node, i: nat, t: string, answers: seq<Answer>)
    requires WellFormed(n) && t != "" && r == NodeRuns.Handle(env, n, ev) && Unwinds(env, n, r, i, t, answers)
    requires !ev.Crash?
    requires R.For(n.ops[i], t) && !R.Stale(n.ops[i], Direction(n, t)) && Sincere(env, n, ev, t)
    requires Direction(r, t) == LastMove(Direction(n, t), AppliedBy(env, n, ev), t)
    ensures R.Stale(r.ops[i], Direction(r, t)) <==> Overtaken(env, n, ev, n.ops[i], t)
  {
    hide NodeRuns.Handle, Inside, Steady, R.Consistent, Direction, Unwound;
    hide StaysOpen, Crossed, WellFormed, AllHonest, R.Stale, AppliedBy;
    var op, chain := n.ops[i], AppliedBy(env, n, ev);
    AppliedGrows(env, n, ev);
    assert r.commits[|n.commits|..] == chain;
    forall k | 0 <= k < |chain|
      ensures NamesRightly(chain[k], op)
    {
      NamedRightly(chain[k], n.ops, i);
    }
    StaleIsAgainst(r.ops[i], Direction(r, t));
    if op.kind.OtherOperation? {
      OtherNeverCrossed(op, chain, t);
    } else if op.kind.RemoveMember? && !Direction(r, t).Added? {
      RemovalNotAgainst(op, r.ops[i], Direction(n, t), chain, t);
    } else {
      assert Applies(op, chain, answers, t);
      UnwoundStaleExactly(op, Direction(n, t), chain, r.epoch, n.now / 1000, env.maxRetries, answers, t);
    }
  }

  lemma OtherNeverCrossed(op: Operation, chain: seq<Envelope>, t: string)
    requires op.kind.OtherOperation?
    ensures !Crossed(op.kind, chain, t) && forall d :: !Against(op.kind, d)
  {
  }

  /** A removal whose target was not last added is neither stale nor crossed. */
  lemma RemovalNotAgainst(op: Operation, after: Operation, before: R.Direction, chain: seq<Envelope>, t: string)
    requires op.kind.RemoveMember? && after.kind == op.kind && !LastMove(before, chain, t).Added?
    requires forall k :: 0 <= k < |chain| ==> NamesRightly(chain[k], op)
    ensures !Against(after.kind, LastMove(before, chain, t)) && !Crossed(op.kind, chain, t)
  {
    hide LastMove, Crossed, NamesRightly;
    if Crossed(op.kind, chain, t) {
      forall k | 0 <= k < |chain|
        ensures !(Adds(chain[k], t) && Removes(chain[k], t))
      {
        NamesOneWay(chain[k], op, t);
      }
      CrossedEndsAgainst(op, before, chain, t);
    }
  }

  lemma NamesOneWay(e: Envelope, op: Operation, t: string)
    requires NamesRightly(e, op)
    ensures !(Adds(e, t) && Removes(e, t))
  {
    R.OneWay([op], CommitOf(e), t);
  }

  /** The unwinding of an event that finishes a commit. */
  lemma EventUnwinds(env: Env, n: Node, ev: NodeRuns.Event, i: nat, t: string) returns (answers: seq<Answer>)
    requires WellFormed(n) && NodeRuns.FirstCommit(env, n, ev).Some?
    requires i < |n.ops| && R.For(n.ops[i], t) && Answered(env, n, t) && Sincere(env, n, ev, t)
    ensures Unwinds(env, n, NodeRuns.Handle(env, n, ev), i, t, answers)
    ensures |n.commits| <= |NodeRuns.Handle(env, n, ev).commits|
  {
    hide NodeRuns.Handle, NodeRuns.FirstCommit, NodeRuns.Finished;
    hide Inside, Steady, R.Consistent, WellFormed, AllHonest, AppliedBy;
    AppliedGrows(env, n, ev);
    assert NodeRuns.Handle(env, n, ev).commits[|n.commits|..] == AppliedBy(env, n, ev);
    NodeRuns.FirstCommitWellFormed(env, n, ev);
    NodeRuns.HandledByCommit(env, n, ev);
    var p := NodeRuns.FirstCommit(env, n, ev).value;
    FinishedGrows(env, p);
    assert NodeRuns.Finished(env, p).commits[|n.commits|..][0] == p.envelope;
    HonestFirst(env, NodeRuns.Finished(env, p).commits[|n.commits|..], t, Who(n.ops[i]));
    FirstCommitTrue(env, n, ev, i, t);
    answers := FinishedUnwinds(env, p, i, t);
    SameStart(env, n, p.at, NodeRuns.Handle(env, n, ev), i, t, answers);
  }

  lemma HonestFirst(env: Env, es: seq<Envelope>, t: string, who: Option<Bytes>)
    requires es != [] && AllHonest(env, es, t, who)
    ensures Honest(env, es[0], t, who)
  {
  }

  lemma SameStart(env: Env, n: Node, n1: Node, r: Node, i: nat, t: string, answers: seq<Answer>)
    requires Unwinds(env, n1, r, i, t, answers) && n1.commits == n.commits && n1.ops == n.ops && n1.epoch == n.epoch
    requires n1.now == n.now
    ensures Unwinds(env, n, r, i, t, answers)
  {
  }

  /** The state a commit is about to install comes from MLS, so an honest commit has its true effect. */
  lemma FirstCommitTrue(env: Env, n: Node, ev: NodeRuns.Event, i: nat, t: string)
    requires WellFormed(n) && NodeRuns.FirstCommit(env, n, ev).Some? && i < |n.ops|
    requires Inside(env, n, t, Who(n.ops[i])) && Steady(env, Who(n.ops[i]))
    requires Honest(env, NodeRuns.FirstCommit(env, n, ev).value.envelope, t, Who(n.ops[i]))
    ensures var p := NodeRuns.FirstCommit(env, n, ev).value;
            WellFormed(p.at) && TrueEffect(env, p, i, t) && Inside(env, p.at, t, Who(n.ops[i]))
  {
    hide Inside, Steady, Honest, Effect, IsTokenHolder, ViewReady;
    hide NextBatch, NodeRuns.Receives, NodeRuns.Prepares, GoneFrom;
    NodeRuns.FirstCommitWellFormed(env, n, ev);
    match ev
    case Deliver(_, e) => ReceivedTrue(env, n, e, t, Who(n.ops[i]));
    case Resync(e) => ReceivedTrue(env, n, e, t, Who(n.ops[i]));
    case CommitTimer(_) => PreparedTrue(env, n, NextBatch(n.writer.proposals, env.cap), t, Who(n.ops[i]));
    case CommitAtOnce(kind, data, meta, _) =>
      var made := CreateLocal(env, n, kind, data, meta).value;
      CreateLocalInside(env, n, kind, data, meta, t, Who(n.ops[i]));
      var n1 := WithProposal(env, made.0, made.1);
      SameInside(env, made.0, n1, t, Who(n.ops[i]));
      PreparedTrue(env, n1, [made.1], t, Who(n.ops[i]));
  }

  lemma ReceivedTrue(env: Env, n: Node, e: Envelope, t: string, who: Option<Bytes>)
    requires NodeRuns.Receives(env, n, e).Some? && Honest(env, NodeRuns.Receives(env, n, e).value.envelope, t, who)
    ensures var p := NodeRuns.Receives(env, n, e).value;
            p.at == n && p.envelope == e && CommitOf(e) == p.commit
              && Effect(env, p.commit, t, who, n.groupState, p.state)
  {
    hide Effect;
  }

  lemma PreparedTrue(env: Env, n: Node, batch: seq<BufferedProposal>, t: string, who: Option<Bytes>)
    requires NodeRuns.Prepares(env, n, batch).Some? && Inside(env, n, t, who)
    requires Honest(env, NodeRuns.Prepares(env, n, batch).value.envelope, t, who)
    ensures var p := NodeRuns.Prepares(env, n, batch).value;
            && p.at.groupState == n.groupState && CommitOf(p.envelope) == p.commit
            && Effect(env, p.commit, t, who, n.groupState, p.state)
            && Inside(env, p.at, t, who)
  {
    hide Effect, Inside, GoneFrom;
    var p := NodeRuns.Prepares(env, n, batch).value;
    var made := env.mls.createCommit(n.groupState, Refs(batch)).value;
    assert made.data == p.commit.commitData && made.state == p.state;
    SameInside(env, n, p.at, t, who);
  }

  /** A crash after ApplyCommit: the log has moved on, the operations have not. */
  lemma CrashExact(env: Env, n: Node, ev: NodeRuns.Event, i: nat, t: string)
    requires WellFormed(n) && t != "" && ev.Crash?
    requires i < |n.ops| && R.For(n.ops[i], t) && !R.Stale(n.ops[i], Direction(n, t))
    requires Answered(env, n, t) && Sincere(env, n, ev, t)
    ensures var r := NodeRuns.Handle(env, n, ev);
            && r.ops == n.ops && Inside(env, r, t, Who(n.ops[i]))
            && (R.Stale(r.ops[i], Direction(r, t)) <==> Overtaken(env, n, ev, n.ops[i], t))
  {
    hide NodeRuns.Handle, NodeRuns.FirstCommit, Inside, Steady, R.Consistent, Direction;
    hide WellFormed, AllHonest, R.Stale, CommitHash, NextHistory, InitialHistory;
    NodeRuns.CrashStops(env, n, ev);
    AppliedGrows(env, n, ev);
    var r, op, chain := NodeRuns.Handle(env, n, ev), n.ops[i], AppliedBy(env, n, ev);
    NodeRuns.FirstCommitWellFormed(env, n, ev.during);
    var p := NodeRuns.FirstCommit(env, n, ev.during);
    if p.Some? {
      assert chain == [p.value.envelope];
      HonestFirst(env, chain, t, Who(op));
      FirstCommitTrue(env, n, ev.during, i, t);
      CrashInside(env, p.value, r, t, Who(op));
    } else {
      assert chain == [];
      SameInside(env, n, r, t, Who(op));
    }
    LastMoveAppend(R.Untouched, n.commits, chain, t);
    DirectionMeans(n, t);
    DirectionMeans(r, t);
    forall k | 0 <= k < |chain|
      ensures NamesRightly(chain[k], op)
    {
      NamedRightly(chain[k], n.ops, i);
    }
    UnreconciledExact(op, Direction(n, t), chain, t);
  }

  lemma CrashInside(env: Env, p: NodeRuns.Applying, r: Node, t: string, who: Option<Bytes>)
    requires Inside(env, p.at, t, who) && Effect(env, CommitOf(p.envelope), t, who, p.at.groupState, p.state)
    requires r.commits == p.at.commits + [p.envelope] && r.groupState == p.state
    ensures Inside(env, r, t, who)
  {
    hide Inside, Effect;
    AdvancedInside(env, p.at, p.envelope, p.commit.commitData, p.state, p.treeHash, t, who);
    SameInside(env, Advanced(env, p.at, p.envelope, p.commit.commitData, p.state, p.treeHash), r, t, who);
  }

  /** At most one more commit in the log, and the operation as it was. */
  lemma UnreconciledExact(op: Operation, before: R.Direction, chain: seq<Envelope>, t: string)
    requires |chain| <= 1 && !R.Stale(op, before) && (forall k :: 0 <= k < |chain| ==> NamesRightly(chain[k], op))
    ensures R.Stale(op, LastMove(before, chain, t)) <==> Settled(op.status) && SomeOpposes(op.kind, chain, t)
  {
    hide NamesRightly, Adds, Removes;
    if chain != [] {
      NamesOneWay(chain[0], op, t);
      assert chain[..0] == [];
    }
  }

  // ----- events without a commit -----

  lemma OtherInside(env: Env, n: Node, ev: NodeRuns.Event, t: string, who: Option<Bytes>)
    requires WellFormed(n) && NodeRuns.FirstCommit(env, n, ev).None? && !ev.Crash? && Inside(env, n, t, who)
    requires Steady(env, who)
    ensures Inside(env, NodeRuns.Handle(env, n, ev), t, who)
  {
    hide Inside, NodeRuns.Receives, NodeRuns.Prepares, IsTokenHolder, ViewReady;
    hide NextBatch, HandleCommit, HandleProposal, HandleApplication, CommitOne, TryCommit;
    hide Propose, Send, WellFormed, CreateLocal, InitialHistory, Steady, Submitted;
    match ev
    case Deliver(_, e) => ReceivedInside(env, n, e, t, who);
    case Resync(e) => ReceivedInside(env, n, e, t, who);
    case SendMessage(plaintext) => SendInside(env, n, plaintext, t, who);
    case MakeProposal(kind, data, meta) => ProposeInside(env, n, kind, data, meta, t, who);
    case CommitTimer(graceOver) => TimerInside(env, n, graceOver, t, who);
    case CommitAtOnce(kind, data, meta, graceOver) => CommitOneInside(env, n, kind, data, meta, graceOver, t, who);
    case Crash(_, _) =>
    case _ => SameInside(env, n, NodeRuns.Handle(env, n, ev), t, who);
  }

  lemma ProposeInside(env: Env, n: Node, kind: ProposalType, data: Bytes, meta: BufferedProposal, t: string,
                      who: Option<Bytes>)
    requires Inside(env, n, t, who) && Steady(env, who)
    ensures Inside(env, Propose(env, n, kind, data, meta), t, who)
  {
    hide Inside, CreateLocal, Steady;
    if CreateLocal(env, n, kind, data, meta).Some? {
      CreateLocalInside(env, n, kind, data, meta, t, who);
      SameInside(env, CreateLocal(env, n, kind, data, meta).value.0, Propose(env, n, kind, data, meta), t, who);
    }
  }

  lemma TimerInside(env: Env, n: Node, graceOver: bool, t: string, who: Option<Bytes>)
    requires WellFormed(n) && NodeRuns.FirstCommit(env, n, NodeRuns.CommitTimer(graceOver)).None?
    requires Inside(env, n, t, who)
    ensures Inside(env, TryCommit(env, n, graceOver), t, who)
  {
    hide Inside, NodeRuns.Prepares, NodeRuns.Finished, IsTokenHolder, ViewReady, NextBatch, CommitBatch, WellFormed;
    NodeRuns.PreparedIsFinished(env, n, NextBatch(n.writer.proposals, env.cap));
    SameInside(env, n, TryCommit(env, n, graceOver), t, who);
  }

  lemma SendInside(env: Env, n: Node, plaintext: Bytes, t: string, who: Option<Bytes>)
    requires Inside(env, n, t, who) && Steady(env, who)
    ensures Inside(env, Send(env, n, plaintext), t, who)
  {
    hide Inside, Logged;
    SameInside(env, n, Send(env, n, plaintext), t, who);
  }

  /** What a received envelope can do without applying a commit. */
  lemma ReceivedInside(env: Env, n: Node, e: Envelope, t: string, who: Option<Bytes>)
    requires WellFormed(n) && Inside(env, n, t, who) && Steady(env, who)
    ensures Inside(env, HandleProposal(env, n, e), t, who) && Inside(env, HandleApplication(env, n, e).0, t, who)
    ensures NodeRuns.Receives(env, n, e).None? ==> Inside(env, HandleCommit(env, n, e).0, t, who)
    ensures Inside(env, n.(firstSeen := Logged(n, env.envelopeHash(e))), t, who)
    ensures NodeRuns.Receives(env, n, e).None? ==>
              forall f :: Inside(env, n.(future := f), t, who)
  {
    hide Inside, HandleProposal, HandleApplication, HandleCommit, NodeRuns.Receives, Steady;
    ProposalInside(env, n, e, t, who);
    ApplicationInside(env, n, e, t, who);
    NodeRuns.ReceivedIsFinished(env, n, e);
    if NodeRuns.Receives(env, n, e).None? {
      SameInside(env, n, HandleCommit(env, n, e).0, t, who);
    }
    SameInside(env, n, n.(firstSeen := Logged(n, env.envelopeHash(e))), t, who);
    forall f
      ensures Inside(env, n.(future := f), t, who)
    {
      SameInside(env, n, n.(future := f), t, who);
    }
  }

  lemma CommitOneInside(env: Env, n: Node, kind: ProposalType, data: Bytes, meta: BufferedProposal, graceOver: bool,
                        t: string, who: Option<Bytes>)
    requires WellFormed(n) && Inside(env, n, t, who) && Steady(env, who)
    requires NodeRuns.FirstCommit(env, n, NodeRuns.CommitAtOnce(kind, data, meta, graceOver)).None?
    ensures Inside(env, CommitOne(env, n, kind, data, meta, graceOver), t, who)
  {
    hide Inside, NodeRuns.FirstCommit, NodeRuns.Prepares, NodeRuns.Finished;
    hide CommitOne, CommitBatch, CreateLocal, WellFormed, Steady;
    var made := CreateLocal(env, n, kind, data, meta);
    NodeRuns.CommitOneCases(env, n, kind, data, meta, graceOver);
    if made.Some? {
      CreateLocalInside(env, n, kind, data, meta, t, who);
      var n1 := WithProposal(env, made.value.0, made.value.1);
      NodeRuns.PreparedIsFinished(env, n1, [made.value.1]);
      SameInside(env, made.value.0, CommitOne(env, n, kind, data, meta, graceOver), t, who);
    }
  }

  lemma OtherExact(env: Env, n: Node, ev: NodeRuns.Event, t: string)
    requires WellFormed(n) && NodeRuns.FirstCommit(env, n, ev).None? && !ev.Crash?
    requires NoStale(n, t) && Answered(env, n, t) && Sincere(env, n, ev, t)
    ensures NoStale(NodeRuns.Handle(env, n, ev), t) && Answered(env, NodeRuns.Handle(env, n, ev), t)
    ensures !Overtakes(env, n, ev, t)
  {
    hide NodeRuns.Handle, NodeRuns.FirstCommit, Inside, Steady;
    hide R.Consistent, WellFormed, AllHonest, R.Stale, Submitted, StaysOpen;
    var r := NodeRuns.Handle(env, n, ev);
    OtherCommits(env, n, ev);
    SameDirection(n, r, t);
    AppliedGrows(env, n, ev);
    assert AppliedBy(env, n, ev) == [];
    forall i | 0 <= i < |n.ops|
      ensures !Overtaken(env, n, ev, n.ops[i], t)
    {
      NoPattern(n.ops[i].kind, t);
    }
    NodeOperations.OperationsStay(env, n, ev);
    forall i | 0 <= i < |r.ops| && R.For(r.ops[i], t)
      ensures !R.Stale(r.ops[i], Direction(r, t)) && Inside(env, r, t, Who(r.ops[i])) && Steady(env, Who(r.ops[i]))
    {
      if i < |n.ops| && r.ops[i] == n.ops[i] {
        OtherInside(env, n, ev, t, Who(n.ops[i]));
      } else {
        assert ev.Request? && HasTarget(ev.op) && r.ops[i] == ev.op;
        StaleIsAgainst(ev.op, Direction(r, t));
        OtherInside(env, n, ev, t, Who(ev.op));
      }
    }
  }

  /** One event: it leaves a stale key if and only if it overtakes an operation. */
  lemma EventExact(env: Env, n: Node, ev: NodeRuns.Event, t: string)
    requires WellFormed(n) && t != "" && NoStale(n, t) && Answered(env, n, t) && Sincere(env, n, ev, t)
    ensures NoStale(NodeRuns.Handle(env, n, ev), t) <==> !Overtakes(env, n, ev, t)
    ensures Answered(env, NodeRuns.Handle(env, n, ev), t)
  {
    hide NodeRuns.Handle, NodeRuns.FirstCommit, NodeRuns.Finished, Inside;
    hide Steady, R.Consistent, WellFormed, Overtaken, Sincere, R.Stale, Direction;
    var r := NodeRuns.Handle(env, n, ev);
    if ev.Crash? {
      CrashOps(env, n, ev);
      forall i | 0 <= i < |n.ops| && R.For(n.ops[i], t)
        ensures R.Stale(r.ops[i], Direction(r, t)) <==> Overtaken(env, n, ev, n.ops[i], t)
        ensures Inside(env, r, t, Who(r.ops[i]))
      {
        CrashExact(env, n, ev, i, t);
      }
    } else if NodeRuns.FirstCommit(env, n, ev).Some? {
      NodeRuns.FirstCommitWellFormed(env, n, ev);
      NodeRuns.HandledByCommit(env, n, ev);
      forall i | 0 <= i < |n.ops|
        ensures SameIntent(n.ops[i], r.ops[i])
      {
        CommitIntent(env, n, ev, i);
      }
      forall i | 0 <= i < |n.ops| && R.For(n.ops[i], t)
        ensures R.Stale(r.ops[i], Direction(r, t)) <==> Overtaken(env, n, ev, n.ops[i], t)
        ensures Inside(env, r, t, Who(r.ops[i])) && Who(r.ops[i]) == Who(n.ops[i])
      {
        CommitExact(env, n, ev, i, t);
      }
    } else {
      OtherExact(env, n, ev, t);
    }
  }

  lemma CrashOps(env: Env, n: Node, ev: NodeRuns.Event)
    requires WellFormed(n) && ev.Crash?
    ensures NodeRuns.Handle(env, n, ev).ops == n.ops
  {
    hide NodeRuns.FirstCommit, CommitHash, NextHistory, InitialHistory;
    NodeRuns.FirstCommitWellFormed(env, n, ev.during);
  }

  lemma CommitIntent(env: Env, n: Node, ev: NodeRuns.Event, i: nat)
    requires WellFormed(n) && NodeRuns.FirstCommit(env, n, ev).Some? && !ev.Crash? && i < |n.ops|
    ensures i < |NodeRuns.Handle(env, n, ev).ops| && SameIntent(n.ops[i], NodeRuns.Handle(env, n, ev).ops[i])
  {
    hide NodeRuns.Handle;
    NodeOperations.HandleEvolves(env, n, ev, i);
    assert !NodeOperations.Overwritten(n, ev, i);
    var r := NodeRuns.Handle(env, n, ev);
    assert NodeOperations.Evolves(n.ops[i], r.ops[i], env.maxRetries, r.epoch);
  }

  // ----- a condition on the buffer alone -----

  /** An event that is no crash overtakes an operation only if a commit in the future buffer opposes it. */
  lemma OpponentWaited(env: Env, n: Node, ev: NodeRuns.Event, i: nat, t: string) returns (m: Envelope)
    requires WellFormed(n) && !ev.Crash? && Sincere(env, n, ev, t)
    requires i < |n.ops| && R.For(n.ops[i], t) && Overtaken(env, n, ev, n.ops[i], t)
    ensures m in Held(n) && Opposes(n.ops[i].kind, m, t)
    ensures exists s :: s in AppliedBy(env, n, ev) && s != m && Serves(n.ops[i].kind, s, t)
  {
    hide NodeRuns.Handle, NodeRuns.FirstCommit, R.Consistent, WellFormed;
    hide Inside, Steady, AllHonest, StaysOpen, AppliedBy, Serves, Opposes, Held;
    var chain, op := AppliedBy(env, n, ev), n.ops[i];
    var j :| 0 <= j < |chain| && Opposes(op.kind, chain[j], t);
    var k :| 0 <= k < |chain| && Serves(op.kind, chain[k], t);
    NamedRightly(chain[j], n.ops, i);
    NamesExclusive(chain[j], op, t);
    assert k < j;
    AppliedWaited(env, n, ev, j);
    m := chain[j];
  }

  lemma NamesExclusive(e: Envelope, op: Operation, t: string)
    requires NamesRightly(e, op)
    ensures !(Serves(op.kind, e, t) && Opposes(op.kind, e, t))
  {
    hide NamesRightly, Adds, Removes;
    NamesOneWay(e, op, t);
  }

  /** While no commit in the future buffer opposes an operation for `t`, no event but a crash overtakes anything. */
  lemma NothingWaiting(env: Env, n: Node, ev: NodeRuns.Event, t: string)
    requires WellFormed(n) && !ev.Crash? && Sincere(env, n, ev, t)
    requires forall i, m :: 0 <= i < |n.ops| && R.For(n.ops[i], t) && m in Held(n) ==> !Opposes(n.ops[i].kind, m, t)
    ensures !Overtakes(env, n, ev, t)
  {
    hide Overtaken, Sincere, WellFormed, Opposes, Held;
    if Overtakes(env, n, ev, t) {
      var i :| 0 <= i < |n.ops| && R.For(n.ops[i], t) && Overtaken(env, n, ev, n.ops[i], t);
      var m := OpponentWaited(env, n, ev, i, t);
    }
  }

  // ----- every run -----

  ghost predicate FreshAfter(env: Env, n: Node, events: seq<NodeRuns.Event>, t: string)
    requires WellFormed(n)
  {
    NoStale(NodeRuns.Run(env, n, events), t)
  }

  ghost predicate FreshThroughout(env: Env, n: Node, events: seq<NodeRuns.Event>, t: string)
    requires WellFormed(n)
  {
    forall k :: 0 <= k <= |events| ==> FreshAfter(env, n, events[..k], t)
  }

  ghost predicate OvertakesAfter(env: Env, n: Node, events: seq<NodeRuns.Event>, ev: NodeRuns.Event, t: string)
    requires WellFormed(n)
  {
    Overtakes(env, NodeRuns.Run(env, n, events), ev, t)
  }

  ghost predicate NeverOvertakes(env: Env, n: Node, events: seq<NodeRuns.Event>, t: string)
    requires WellFormed(n)
  {
    forall k :: 0 <= k < |events| ==> !OvertakesAfter(env, n, events[..k], events[k], t)
  }

  ghost predicate SincereAfter(env: Env, n: Node, events: seq<NodeRuns.Event>, ev: NodeRuns.Event, t: string)
    requires WellFormed(n)
  {
    Sincere(env, NodeRuns.Run(env, n, events), ev, t)
  }

  ghost predicate SincereRun(env: Env, n: Node, events: seq<NodeRuns.Event>, t: string)
    requires WellFormed(n)
  {
    forall k :: 0 <= k < |events| ==> SincereAfter(env, n, events[..k], events[k], t)
  }

  lemma RunStep(env: Env, n: Node, events: seq<NodeRuns.Event>, t: string)
    requires WellFormed(n) && events != []
    ensures var init, last := events[..|events| - 1], events[|events| - 1];
            && (FreshThroughout(env, n, events, t) <==>
                  FreshThroughout(env, n, init, t) && FreshAfter(env, n, events, t))
            && (NeverOvertakes(env, n, events, t) <==>
                  NeverOvertakes(env, n, init, t) && !OvertakesAfter(env, n, init, last, t))
            && (SincereRun(env, n, events, t) <==> SincereRun(env, n, init, t) && SincereAfter(env, n, init, last, t))
  {
    hide FreshAfter, OvertakesAfter, SincereAfter, WellFormed;
    var init := events[..|events| - 1];
    assert forall k :: 0 <= k <= |init| ==> init[..k] == events[..k];
    assert forall k :: 0 <= k < |init| ==> init[k] == events[k];
    assert events[..|events|] == events;
  }

  /**
    * Idempotency keys over coordinator runs. At every point of a run no settled operation opposes the last committed
    * change of its target, if and only if no event of the run overtakes an operation.
    */
  lemma {:induction false} FreshExactly(env: Env, n: Node, events: seq<NodeRuns.Event>, t: string)
    requires WellFormed(n) && t != "" && NoStale(n, t) && Answered(env, n, t) && SincereRun(env, n, events, t)
    ensures FreshThroughout(env, n, events, t) <==> NeverOvertakes(env, n, events, t)
    ensures FreshThroughout(env, n, events, t) ==>
              Answered(env, NodeRuns.Run(env, n, events), t) && NoStale(NodeRuns.Run(env, n, events), t)
    decreases |events|
  {
    hide NodeRuns.Handle, NoStale, Answered, Sincere, Overtakes;
    hide FreshThroughout, NeverOvertakes, SincereRun, WellFormed;
    if events == [] {
      AtStart(env, n, t);
    } else {
      var init, last := events[..|events| - 1], events[|events| - 1];
      RunStep(env, n, events, t);
      FreshExactly(env, n, init, t);
      if FreshThroughout(env, n, init, t) {
        EventExact(env, NodeRuns.Run(env, n, init), last, t);
      }
    }
  }

  lemma AtStart(env: Env, n: Node, t: string)
    requires WellFormed(n) && NoStale(n, t)
    ensures FreshThroughout(env, n, [], t) && NeverOvertakes(env, n, [], t)
  {
    hide NoStale, WellFormed;
    assert forall es: seq<NodeRuns.Event> :: |es| == 0 ==> es == [];
    assert NodeRuns.Run(env, n, []) == n;
  }

  /** After the last committed removal of a peer no settled add for it holds a key, and the other way round. */
  lemma KeysReleased(env: Env, n: Node, events: seq<NodeRuns.Event>, t: string, i: nat)
    requires WellFormed(n) && t != "" && NoStale(n, t) && Answered(env, n, t) && SincereRun(env, n, events, t)
    requires NeverOvertakes(env, n, events, t)
    requires var r := NodeRuns.Run(env, n, events);
             i < |r.ops| && R.For(r.ops[i], t) && Settled(r.ops[i].status) && r.ops[i].idempotencyKey.Some?
    ensures var r := NodeRuns.Run(env, n, events);
            && (Direction(r, t).Removed? ==> !r.ops[i].kind.AddMember?)
            && (Direction(r, t).Added? ==> !r.ops[i].kind.RemoveMember?)
  {
    hide NodeRuns.Run, Answered, SincereRun, NeverOvertakes, FreshThroughout;
    FreshExactly(env, n, events, t);
  }
}
