/** Every handler of a coordinator is a sequence of elementary changes; invariants are proved on those. */
module Transitions {
  import opened Bytes
  import opened Types
  import opened EpochTracker
  import opened Agreement
  import opened Operations
  import opened Coordinator

  /** The proposal neither removes nor re-joins any of the named peers. */
  predicate Spares(texts: set<string>, kind: ProposalType, target: string) {
    kind.Remove? || kind.Join? ==> target !in texts
  }

  predicate BodySpares(texts: set<string>, b: Body) {
    b.ProposalBody? && b.proposal.Some? ==> Spares(texts, b.proposal.value.kind, b.proposal.value.target)
  }

  /** No buffered proposal and no pending removal aims at the named peers. */
  ghost predicate Gentle(texts: set<string>, n: Node) {
    && (forall p :: p in n.writer.proposals ==> Spares(texts, p.kind, p.target))
    && (forall i ::
          0 <= i < |n.ops| && n.ops[i].kind.RemoveMember? && n.ops[i].target.Some? ==> n.ops[i].target.value !in texts)
  }

  /** What a run keeps about one node; `pool` is what may ever reach it. */
  ghost predicate Sound(texts: set<string>, pool: set<Envelope>, n: Node) {
    WellFormed(n) && Gentle(texts, n) && Held(n) <= pool
  }

  /** Only proposals, operations, the group state's pending part and the clock change; only sparing proposals go out. */
  ghost predicate Quiet(texts: set<string>, n: Node, n': Node) {
    && SameCore(n, n') && n'.future == n.future
    && n.outbox <= n'.outbox
    && forall i ::
         |n.outbox| <= i < |n'.outbox| ==> n'.outbox[i].body.ProposalBody? && BodySpares(texts, n'.outbox[i].body)
  }

  ghost predicate Buffers(n: Node, n': Node, e: Envelope) {
    e.epoch > n.epoch && n' == n.(future := Enqueued(n.future, n.epoch, e.epoch, e))
  }

  ghost predicate Rejects(n: Node, n': Node) {
    n' == n.(invalid := n'.invalid)
  }

  /** An application message: applied once by hash, or nothing but the clock moves. */
  ghost predicate Delivers(env: Env, n: Node, n': Node, e: Envelope) {
    && n' ==
         n.(hlc := n'.hlc, groupState := n'.groupState, applied := n'.applied, delivered := n'.delivered,
            firstSeen := n'.firstSeen)
    && if n'.delivered == n.delivered then n' == n.(hlc := n'.hlc)
       else && env.envelopeHash(e) !in n.applied
            && n'.applied == n.applied + {env.envelopeHash(e)} && n'.delivered == n.delivered + [e]
            && n'.firstSeen == Logged(n, env.envelopeHash(e))
            && e.body.ApplicationBody? && ApplicationAction(env, n, e).Process?
  }

  ghost predicate Applies(env: Env, n: Node, n': Node, e: Envelope) {
    && e.epoch == n.epoch && e.body.CommitBody? && e.body.commit.Some?
    && var verdict := Examine(env, n, e, e.body.commit.value);
       verdict.Accept? && n' == Advanced(env, n, e, e.body.commit.value.commitData, verdict.state, verdict.treeHash)
  }

  ghost predicate Elementary(env: Env, texts: set<string>, pool: set<Envelope>, n: Node, n': Node) {
    || Quiet(texts, n, n')
    || Rejects(n, n')
    || exists e :: e in pool && (Buffers(n, n', e) || Delivers(env, n, n', e) || Applies(env, n, n', e))
  }

  ghost predicate Path(env: Env, texts: set<string>, pool: set<Envelope>, path: seq<Node>) {
    && path != []
    && (forall i :: 0 <= i < |path| ==> Sound(texts, pool, path[i]))
    && (forall i :: 0 <= i < |path| - 1 ==> Elementary(env, texts, pool, path[i], path[i + 1]))
  }

  ghost predicate Leads(env: Env, texts: set<string>, pool: set<Envelope>, path: seq<Node>, n: Node, n': Node) {
    Path(env, texts, pool, path) && path[0] == n && path[|path| - 1] == n'
  }

  lemma Concatenate(env: Env, texts: set<string>, pool: set<Envelope>, a: seq<Node>, b: seq<Node>, n: Node, m: Node,
                    n': Node) returns (path: seq<Node>)
    requires Leads(env, texts, pool, a, n, m) && Leads(env, texts, pool, b, m, n')
    ensures Leads(env, texts, pool, path, n, n')
  {
    hide Elementary, Sound;
    path := a + b[1..];
    forall i | 0 <= i < |path| - 1
      ensures Elementary(env, texts, pool, path[i], path[i + 1])
    {
      if i >= |a| - 1 {
        assert path[i] == b[i - (|a| - 1)] && path[i + 1] == b[i + 1 - (|a| - 1)];
      }
    }
  }

  ghost predicate PoolSpares(texts: set<string>, pool: set<Envelope>) {
    forall e :: e in pool ==> BodySpares(texts, e.body)
  }

  // ----- the quiet parts -----

  lemma WithProposalGentle(texts: set<string>, env: Env, n: Node, p: BufferedProposal)
    requires Gentle(texts, n) && Spares(texts, p.kind, p.target)
    ensures Gentle(texts, WithProposal(env, n, p))
  {
  }

  lemma CreateAndBufferQuiet(env: Env, texts: set<string>, n: Node, kind: ProposalType, data: Bytes,
                             meta: BufferedProposal)
    requires Gentle(texts, n) && Spares(texts, kind, meta.target)
    ensures Gentle(texts, CreateAndBuffer(env, n, kind, data, meta))
    ensures Quiet(texts, n, CreateAndBuffer(env, n, kind, data, meta))
  {
  }

  lemma JoinQuiet(env: Env, texts: set<string>, n: Node, e: Envelope, m: ProposalMsg)
    requires Gentle(texts, n) && m.kind.Join? && Spares(texts, Join, m.target)
    ensures Gentle(texts, HandleJoin(env, n, e, m)) && Quiet(texts, n, HandleJoin(env, n, e, m))
  {
    hide CreateAndBuffer;
    var identity := if m.targetIdentity == [] then env.textBytes(m.target) else m.targetIdentity;
    var removal := BufferedProposal(Remove, [], [], "", m.target, "", "", "", []);
    CreateAndBufferQuiet(env, texts, n, Remove, identity, removal);
    CreateAndBufferQuiet(env, texts, n, Add, m.data, FromMsg(m));
    var n1 := CreateAndBuffer(env, n, Remove, identity, removal);
    CreateAndBufferQuiet(env, texts, n1, Add, m.data, FromMsg(m));
  }

  lemma ProposalQuiet(env: Env, texts: set<string>, n: Node, e: Envelope)
    requires Gentle(texts, n) && BodySpares(texts, e.body)
    ensures var n' := HandleProposal(env, n, e);
            Gentle(texts, n') && (Quiet(texts, n, n') || Buffers(n, n', e))
  {
    hide HandleJoin;
    if e.body.ProposalBody? && e.body.proposal.Some? && e.body.proposal.value.kind.Join? {
      JoinQuiet(env, texts, n, e, e.body.proposal.value);
    }
  }

  lemma ProposeQuiet(env: Env, texts: set<string>, n: Node, kind: ProposalType, data: Bytes, meta: BufferedProposal)
    requires Gentle(texts, n) && Spares(texts, kind, meta.target)
    ensures Gentle(texts, Propose(env, n, kind, data, meta)) && Quiet(texts, n, Propose(env, n, kind, data, meta))
  {
  }

  lemma ReproposedQuiet(env: Env, texts: set<string>, n: Node, i: nat, moved: Operation)
    requires Gentle(texts, n) && i < |n.ops| && n.ops[i].target.Some? && SameIntent(n.ops[i], moved)
    requires !n.ops[i].kind.OtherOperation?
    ensures Gentle(texts, Reproposed(env, n, i, moved)) && Quiet(texts, n, Reproposed(env, n, i, moved))
  {
    hide SameIntents, SavedAfter;
    IntentsGentle(texts, n.ops, Reproposed(env, n, i, moved).ops);
    ReproposedSpares(env, texts, n, i, moved);
  }

  lemma ReproposedSpares(env: Env, texts: set<string>, n: Node, i: nat, moved: Operation)
    requires Gentle(texts, n) && i < |n.ops| && n.ops[i].target.Some? && SameIntent(n.ops[i], moved)
    requires !n.ops[i].kind.OtherOperation?
    ensures forall p :: p in Reproposed(env, n, i, moved).writer.proposals ==> Spares(texts, p.kind, p.target)
  {
    hide SameIntents, SavedAfter;
  }

  lemma IntentsGentle(texts: set<string>, a: seq<Operation>, b: seq<Operation>)
    requires SameIntents(a, b)
    requires forall i :: 0 <= i < |a| && a[i].kind.RemoveMember? && a[i].target.Some? ==> a[i].target.value !in texts
    ensures forall i :: 0 <= i < |b| && b[i].kind.RemoveMember? && b[i].target.Some? ==> b[i].target.value !in texts
  {
    forall i | 0 <= i < |b| && b[i].kind.RemoveMember? && b[i].target.Some?
      ensures b[i].target.value !in texts
    {
      assert SameIntent(a[i], b[i]);
    }
  }

  lemma RebaseOneQuiet(env: Env, texts: set<string>, n: Node, i: nat)
    requires WellFormed(n) && Gentle(texts, n) && i < |n.ops|
    ensures Gentle(texts, RebaseOne(env, n, i)) && Quiet(texts, n, RebaseOne(env, n, i))
  {
    var decision := Decide(n.ops[i], n.epoch, n.now / 1000, env.maxRetries, Gone(env, n, n.ops[i]));
    if decision.Repropose? && !n.ops[i].kind.OtherOperation? {
      ReproposedQuiet(env, texts, n, i, decision.op);
    } else {
      IntentsGentle(texts, n.ops, RebaseOne(env, n, i).ops);
    }
  }

  lemma QuietTrans(texts: set<string>, a: Node, b: Node, c: Node)
    requires Quiet(texts, a, b) && Quiet(texts, b, c)
    ensures Quiet(texts, a, c)
  {
  }

  lemma {:induction false} RebaseQuiet(env: Env, texts: set<string>, n: Node, i: nat)
    requires WellFormed(n) && Gentle(texts, n) && i <= |n.ops|
    ensures Gentle(texts, RebaseFrom(env, n, i)) && Quiet(texts, n, RebaseFrom(env, n, i))
    decreases |n.ops| - i
  {
    hide Quiet, Gentle, RebaseOne;
    if i == |n.ops| {
      QuietRefl(texts, n);
    } else {
      var n1 := RebaseOne(env, n, i);
      RebaseOneQuiet(env, texts, n, i);
      RebaseQuiet(env, texts, n1, i + 1);
      QuietTrans(texts, n, n1, RebaseFrom(env, n, i));
    }
  }

  lemma QuietRefl(texts: set<string>, n: Node)
    ensures Quiet(texts, n, n)
  {
  }

  lemma ReconcileQuiet(env: Env, texts: set<string>, n: Node, c: CommitMsg)
    requires WellFormed(n) && Gentle(texts, n)
    ensures Gentle(texts, Reconcile(env, n, c)) && Quiet(texts, n, Reconcile(env, n, c))
  {
    var n1 := n.(ops := ObservedAll(n.ops, c));
    IntentsGentle(texts, n.ops, n1.ops);
    RebaseQuiet(env, texts, n1, 0);
    assert Quiet(texts, n, n1);
    QuietTrans(texts, n, n1, Reconcile(env, n, c));
  }

  // ----- every handler is a path -----

  /** Two sound states, one elementary change apart. */
  lemma OneStep(env: Env, texts: set<string>, pool: set<Envelope>, n: Node, n': Node) returns (path: seq<Node>)
    requires Sound(texts, pool, n) && Sound(texts, pool, n') && Elementary(env, texts, pool, n, n')
    ensures Leads(env, texts, pool, path, n, n')
  {
    path := [n, n'];
  }

  lemma HeldEnqueued(n: Node, e: Envelope)
    ensures Held(n.(future := Enqueued(n.future, n.epoch, e.epoch, e))) <= Held(n) + {e}
  {
  }

  lemma EnqueuedSound(texts: set<string>, pool: set<Envelope>, n: Node, e: Envelope)
    requires Sound(texts, pool, n) && e in pool
    ensures Sound(texts, pool, n.(future := Enqueued(n.future, n.epoch, e.epoch, e)))
  {
    HeldEnqueued(n, e);
  }

  lemma ProposalPath(env: Env, texts: set<string>, pool: set<Envelope>, n: Node, e: Envelope) returns (path: seq<Node>)
    requires Sound(texts, pool, n) && e in pool && PoolSpares(texts, pool)
    ensures Leads(env, texts, pool, path, n, HandleProposal(env, n, e))
  {
    var n' := HandleProposal(env, n, e);
    ProposalQuiet(env, texts, n, e);
    HeldEnqueued(n, e);
    path := OneStep(env, texts, pool, n, n');
  }

  lemma ApplicationPath(env: Env, texts: set<string>, pool: set<Envelope>, n: Node, e: Envelope)
    returns (path: seq<Node>)
    requires Sound(texts, pool, n) && e in pool
    ensures Leads(env, texts, pool, path, n, HandleApplication(env, n, e).0)
  {
    var n' := HandleApplication(env, n, e).0;
    ApplicationElementary(env, n, e);
    HeldEnqueued(n, e);
    hide HandleApplication;
    path := OneStep(env, texts, pool, n, n');
  }

  lemma ApplicationElementary(env: Env, n: Node, e: Envelope)
    ensures Delivers(env, n, HandleApplication(env, n, e).0, e) || Buffers(n, HandleApplication(env, n, e).0, e)
  {
  }

  lemma ReconcilePath(env: Env, texts: set<string>, pool: set<Envelope>, n: Node, c: CommitMsg)
    returns (path: seq<Node>)
    requires Sound(texts, pool, n)
    ensures Leads(env, texts, pool, path, n, Reconcile(env, n, c))
  {
    ReconcileQuiet(env, texts, n, c);
    assert Held(Reconcile(env, n, c)) == Held(n);
    path := OneStep(env, texts, pool, n, Reconcile(env, n, c));
  }

  lemma WithoutCommittedPath(env: Env, texts: set<string>, pool: set<Envelope>, n: Node, c: CommitMsg)
    returns (path: seq<Node>)
    requires Sound(texts, pool, n)
    ensures Leads(env, texts, pool, path, n, WithoutCommitted(n, c))
  {
    var n' := WithoutCommitted(n, c);
    assert Held(n') == Held(n);
    path := OneStep(env, texts, pool, n, n');
  }

  lemma AdvancedSound(env: Env, texts: set<string>, pool: set<Envelope>, n: Node, e: Envelope, data: Bytes,
                      state: Bytes, treeHash: Bytes)
    requires Sound(texts, pool, n)
    ensures Sound(texts, pool, Advanced(env, n, e, data, state, treeHash))
    ensures forall m :: m in Queue(n.future, n.epoch + 1) ==> m in pool
  {
    AdvancedWellFormed(env, n, e, data, state, treeHash);
    var n1 := Advanced(env, n, e, data, state, treeHash);
    forall m | m in Held(n1)
      ensures m in Held(n)
    {
      var k :| k in n1.future && m in n1.future[k];
    }
    forall m | m in Queue(n.future, n.epoch + 1)
      ensures m in Held(n)
    {
    }
  }

  lemma {:induction false} CommitPath(env: Env, texts: set<string>, pool: set<Envelope>, n: Node, e: Envelope)
    returns (path: seq<Node>)
    requires Sound(texts, pool, n) && e in pool && PoolSpares(texts, pool)
    ensures Leads(env, texts, pool, path, n, HandleCommit(env, n, e).0)
    decreases Size(n.future), 2
  {
    hide WellFormed, Gentle, Held, Elementary, Leads, Examine, Advanced;
    var n' := HandleCommit(env, n, e).0;
    if Validate(e.epoch, n.epoch).BufferFuture? {
      EnqueuedSound(texts, pool, n, e);
      path := BufferStep(env, texts, pool, n, n', e);
    } else if Validate(e.epoch, n.epoch).Process? && e.body.CommitBody? && e.body.commit.Some? {
      var c := e.body.commit.value;
      var verdict := Examine(env, n, e, c);
      if verdict.Accept? {
        var n1 := Advanced(env, n, e, c.commitData, verdict.state, verdict.treeHash);
        var first := ApplyStep(env, texts, pool, n, e);
        var second := AfterAdvancePath(env, texts, pool, n, e, c.commitData, verdict.state, verdict.treeHash);
        var n2 := AdvanceAndDrain(env, n, e, c.commitData, verdict.state, verdict.treeHash);
        var upto := Concatenate(env, texts, pool, first, second, n, n1, n2);
        SoundAtEnd(env, texts, pool, upto, n, n2);
        var third := WithoutCommittedPath(env, texts, pool, n2, c);
        var n3 := WithoutCommitted(n2, c);
        upto := Concatenate(env, texts, pool, upto, third, n, n2, n3);
        SoundAtEnd(env, texts, pool, upto, n, n3);
        var fourth := ReconcilePath(env, texts, pool, n3, c);
        path := Concatenate(env, texts, pool, upto, fourth, n, n3, n');
      } else {
        path := RejectStep(env, texts, pool, n, n');
      }
    } else {
      path := RejectStep(env, texts, pool, n, n');
    }
  }

  lemma SoundAtEnd(env: Env, texts: set<string>, pool: set<Envelope>, path: seq<Node>, n: Node, n': Node)
    requires Leads(env, texts, pool, path, n, n')
    ensures Sound(texts, pool, n) && Sound(texts, pool, n')
  {
  }

  lemma BufferStep(env: Env, texts: set<string>, pool: set<Envelope>, n: Node, n': Node, e: Envelope)
    returns (path: seq<Node>)
    requires Sound(texts, pool, n) && Sound(texts, pool, n') && e in pool && Buffers(n, n', e)
    ensures Leads(env, texts, pool, path, n, n')
  {
    path := OneStep(env, texts, pool, n, n');
  }

  lemma RejectStep(env: Env, texts: set<string>, pool: set<Envelope>, n: Node, n': Node) returns (path: seq<Node>)
    requires Sound(texts, pool, n) && Rejects(n, n')
    ensures Leads(env, texts, pool, path, n, n')
  {
    assert Held(n') == Held(n);
    path := OneStep(env, texts, pool, n, n');
  }

  lemma ApplyStep(env: Env, texts: set<string>, pool: set<Envelope>, n: Node, e: Envelope) returns (path: seq<Node>)
    requires Sound(texts, pool, n) && e in pool
    requires e.epoch == n.epoch && e.body.CommitBody? && e.body.commit.Some?
    requires Examine(env, n, e, e.body.commit.value).Accept?
    ensures var verdict := Examine(env, n, e, e.body.commit.value);
            Leads(env, texts, pool, path, n,
                  Advanced(env, n, e, e.body.commit.value.commitData, verdict.state, verdict.treeHash))
  {
    hide Examine;
    var verdict := Examine(env, n, e, e.body.commit.value);
    var n' := Advanced(env, n, e, e.body.commit.value.commitData, verdict.state, verdict.treeHash);
    AdvancedSound(env, texts, pool, n, e, e.body.commit.value.commitData, verdict.state, verdict.treeHash);
    assert Applies(env, n, n', e);
    path := OneStep(env, texts, pool, n, n');
  }

  /** From just after the epoch moved to the end of the drain. */
  lemma {:induction false} AfterAdvancePath(env: Env, texts: set<string>, pool: set<Envelope>, n: Node, e: Envelope,
                                            data: Bytes, state: Bytes, treeHash: Bytes)
    returns (path: seq<Node>)
    requires Sound(texts, pool, n) && PoolSpares(texts, pool)
    ensures Leads(env, texts, pool, path, Advanced(env, n, e, data, state, treeHash),
                  AdvanceAndDrain(env, n, e, data, state, treeHash))
    decreases Size(n.future), 1
  {
    hide Elementary, Leads, WellFormed, Gentle, Held, CommitHash, NextHistory;
    AdvancedWellFormed(env, n, e, data, state, treeHash);
    AdvancedSound(env, texts, pool, n, e, data, state, treeHash);
    path := DrainPath(env, texts, pool, Advanced(env, n, e, data, state, treeHash), Queue(n.future, n.epoch + 1));
  }

  lemma {:induction false} DrainPath(env: Env, texts: set<string>, pool: set<Envelope>, n: Node, queue: seq<Envelope>)
    returns (path: seq<Node>)
    requires Sound(texts, pool, n) && PoolSpares(texts, pool)
    requires forall m :: m in queue ==> m.epoch <= n.epoch && m in pool
    ensures Leads(env, texts, pool, path, n, Drain(env, n, queue))
    decreases Size(n.future) + |queue|, 0
  {
    hide Elementary;
    if queue == [] {
      path := [n];
    } else {
      var e := queue[0];
      assert e in queue;
      var n1 := HandleQueued(env, n, e);
      var first: seq<Node>;
      match e.body {
        case ProposalBody(_) => first := ProposalPath(env, texts, pool, n, e);
        case CommitBody(_) => first := CommitPath(env, texts, pool, n, e);
        case ApplicationBody(_) => first := ApplicationPath(env, texts, pool, n, e);
        case OtherBody => first := [n];
      }
      SoundAtEnd(env, texts, pool, first, n, n1);
      var rest := DrainPath(env, texts, pool, n1, queue[1..]);
      path := Concatenate(env, texts, pool, first, rest, n, n1, Drain(env, n, queue));
    }
  }
}
