/** What a node proposes, and what becomes of proposals: contents on the wire, in the buffer and in issued commits. */
module Proposals {
  import opened Bytes
  import opened Types
  import opened Election
  import opened SingleWriter
  import opened Agreement
  import opened HybridClock
  import opened Operations
  import opened Coordinator
  import opened NodeRuns

  /** MLS makes the proposal, and the state after it is not empty. */
  ghost predicate Creates(env: Env, s: Bytes, kind: ProposalType, payload: Bytes) {
    env.mls.createProposal(s, kind, payload).Some? && env.mls.createProposal(s, kind, payload).value.state != []
  }

  /** An envelope of this node with exactly this proposal in it. */
  ghost predicate Announces(env: Env, n: Node, clock: Clock, e: Envelope, p: BufferedProposal) {
    && e.group == env.group.id && e.epoch == n.epoch && e.from == env.group.peerText(n.local)
    && e.ts == Timestamp(clock.l, clock.c, n.local) && e.body.ProposalBody? && e.body.proposal.Some?
    && var m := e.body.proposal.value;
    && m.kind == p.kind && m.data == p.data && m.ref == p.ref && m.operationId == p.operationId
    && m.target == p.target && m.requestId == p.requestId && m.groupType == p.groupType
    && m.categoryId == p.categoryId && m.keyPackageHash == p.keyPackageHash
  }

  /** The proposal goes out once and into the buffer; the clock and the group state move, and nothing else does. */
  ghost predicate Sends(env: Env, n: Node, r: Node, state: Bytes, p: BufferedProposal) {
    && |r.outbox| == |n.outbox| + 1 && r.outbox[..|n.outbox|] == n.outbox
    && Announces(env, n, r.hlc, r.outbox[|n.outbox|], p)
    && r == n.(groupState := state, hlc := r.hlc, outbox := r.outbox, ops := r.ops,
               writer := n.writer.(proposals := Buffered(n.writer.proposals, p, env.cap)))
  }

  /** What is made of a request for a proposal. */
  function Filled(meta: BufferedProposal, kind: ProposalType, made: CreatedProposal): BufferedProposal {
    BufferedProposal(kind, made.data, made.ref, meta.operationId, meta.target, meta.requestId, meta.groupType,
                     meta.categoryId, meta.keyPackageHash)
  }

  lemma PublishSends(env: Env, n: Node, made: CreatedProposal, p: BufferedProposal)
    ensures Sends(env, n,
                  WithProposal(env, Publish(env, n.(groupState := made.state), ProposalBody(Some(ToMsg(p)))), p),
                  made.state, p)
  {
    hide Ticked, Buffered;
  }

  /** A proposal of one's own: sent and buffered as MLS made it, or nothing happens. */
  lemma ProposeExactly(env: Env, n: Node, kind: ProposalType, data: Bytes, meta: BufferedProposal)
    ensures var r := Propose(env, n, kind, data, meta);
            if Creates(env, n.groupState, kind, data)
            then var made := env.mls.createProposal(n.groupState, kind, data).value;
                 Sends(env, n, r, made.state, Filled(meta, kind, made)) && r.ops == n.ops
            else r == n
  {
    hide Sends, Buffered, Ticked;
    if Creates(env, n.groupState, kind, data) {
      var made := env.mls.createProposal(n.groupState, kind, data).value;
      PublishSends(env, n, made, Filled(meta, kind, made));
    }
  }

  // ----- re-proposals -----

  predicate Expired(op: Operation, now: int) {
    op.expiresAt.Some? && op.expiresAt.value > 0 && now / 1000 > op.expiresAt.value
  }

  /** MLS says that the target of a removal has left. */
  ghost predicate Left(env: Env, n: Node, op: Operation) {
    && op.kind.RemoveMember? && op.target.Some? && op.target.value != "" && op.payload != []
    && env.mls.hasMember(n.groupState, op.payload) == Some(false)
  }

  /** An open add or removal from an earlier epoch that still has a retry. */
  ghost predicate Due(env: Env, n: Node, op: Operation) {
    && Active(op.status) && !Expired(op, n.now) && !Left(env, n, op) && !op.kind.OtherOperation?
    && op.preconditionEpoch.Some? && op.preconditionEpoch.value < n.epoch && op.retryCount < env.maxRetries
  }

  /** The kind of proposal that serves an operation. */
  function Asked(op: Operation): ProposalType {
    if op.kind.AddMember? then Add else Remove
  }

  /** The operation after a try that cost a retry. */
  function Tried(op: Operation, epoch: nat): Operation {
    op.(retryCount := op.retryCount + 1, preconditionEpoch := Some(epoch))
  }

  /** The proposal that serves an operation, once MLS has made it. */
  function Serving(op: Operation, made: CreatedProposal): BufferedProposal {
    BufferedProposal(Asked(op), made.data, made.ref, op.id, if op.target.Some? then op.target.value else "", "", "", "",
                     if op.kind.AddMember? then op.operationHash else [])
  }

  /** The status that rebasing gives to an operation which it does not propose again. */
  ghost function Without(env: Env, n: Node, op: Operation): Status {
    if !Active(op.status) then op.status
    else if Expired(op, n.now) then FailedExpired
    else if Left(env, n, op) then SatisfiedByOther
    else if op.preconditionEpoch.Some? && op.preconditionEpoch.value < n.epoch && op.retryCount >= env.maxRetries
         then FailedRetryExhausted
    else op.status
  }

  /**
    * One round of rebasing. A due operation is proposed again: one envelope with a proposal of its own kind, ID, target
    * and payload goes out, the same proposal is buffered, and the row says PROPOSED with the hash of the proposal. If
    * MLS makes no proposal, nothing goes out and the status stays. Any other operation is settled or left alone.
    */
  lemma RebaseOneExactly(env: Env, n: Node, i: nat)
    requires i < |n.ops| && HasTarget(n.ops[i])
    ensures var op, r := n.ops[i], RebaseOne(env, n, i);
            if !Due(env, n, op) then
              && r == n.(ops := n.ops[i := r.ops[i]]) && r.ops[i].status == Without(env, n, op)
              && r.ops[i] == op.(status := r.ops[i].status, lastError := r.ops[i].lastError)
            else if Creates(env, n.groupState, Asked(op), op.payload) then
              var made := env.mls.createProposal(n.groupState, Asked(op), op.payload).value;
              && Sends(env, n, r, made.state, Serving(op, made))
              && r.ops == n.ops[i := Tried(op, n.epoch).(status := Proposed, lastError := None,
                                                         latestProposalHash := env.group.sha256(made.data))]
            else
              r == n.(ops := n.ops[i := Tried(op, n.epoch).(lastError := Some("re-proposal failed"))])
  {
    hide Sends, Reproposed, Decide, Gone, Due, Without, Creates;
    var op := n.ops[i];
    assert n.ops[i := op] == n.ops;
    DecidedExactly(env, n, op);
    if Due(env, n, op) {
      if Creates(env, n.groupState, Asked(op), op.payload) {
        ReproposeSends(env, n, i, Tried(op, n.epoch));
      } else {
        ReproposeFails(env, n, i, Tried(op, n.epoch));
      }
    }
  }

  lemma DecidedExactly(env: Env, n: Node, op: Operation)
    requires HasTarget(op)
    ensures var d := Decide(op, n.epoch, n.now / 1000, env.maxRetries, Gone(env, n, op));
            if Due(env, n, op)
            then d == Repropose(Tried(op, n.epoch)) && !op.kind.OtherOperation? && op.target.Some?
            else if d.Settle?
            then d.op == op.(status := Without(env, n, op), lastError := d.op.lastError)
            else Without(env, n, op) == op.status && (d.Repropose? ==> op.kind.OtherOperation?)
  {
  }

  lemma ReproposeFails(env: Env, n: Node, i: nat, moved: Operation)
    requires i < |n.ops| && n.ops[i].target.Some? && SameIntent(n.ops[i], moved) && !n.ops[i].kind.OtherOperation?
    requires !Creates(env, n.groupState, Asked(n.ops[i]), n.ops[i].payload)
    ensures Reproposed(env, n, i, moved) == n.(ops := n.ops[i := moved.(lastError := Some("re-proposal failed"))])
  {
  }

  lemma ReproposeSends(env: Env, n: Node, i: nat, moved: Operation)
    requires i < |n.ops| && n.ops[i].target.Some? && SameIntent(n.ops[i], moved) && !n.ops[i].kind.OtherOperation?
    requires Creates(env, n.groupState, Asked(n.ops[i]), n.ops[i].payload)
    ensures var op, r := n.ops[i], Reproposed(env, n, i, moved);
            var made := env.mls.createProposal(n.groupState, Asked(op), op.payload).value;
            && Sends(env, n, r, made.state, Serving(op, made))
            && r.ops == n.ops[i := moved.(status := Proposed, lastError := None,
                                          latestProposalHash := env.group.sha256(made.data))]
  {
    hide Sends, Buffered, Ticked;
    var op := n.ops[i];
    var made := env.mls.createProposal(n.groupState, Asked(op), op.payload).value;
    PublishSends(env, n, made, Serving(op, made));
    SendsWithOps(env, n, WithProposal(env, Publish(env, n.(groupState := made.state),
                                                   ProposalBody(Some(ToMsg(Serving(op, made))))), Serving(op, made)),
                 made.state, Serving(op, made), Reproposed(env, n, i, moved).ops);
  }

  lemma SendsWithOps(env: Env, n: Node, r: Node, state: Bytes, p: BufferedProposal, ops: seq<Operation>)
    requires Sends(env, n, r, state, p)
    ensures Sends(env, n, r.(ops := ops), state, p)
  {
  }

  // ----- a whole pass -----

  /** The row was proposed again in between. */
  predicate Renewed(before: Operation, after: Operation) {
    after.retryCount == before.retryCount + 1 && after.lastError.None?
  }

  /** The envelope asks for what the operation is about, as MLS answers in state `s`, and the row remembers its hash. */
  ghost predicate Asks(env: Env, local: PeerId, epoch: nat, op: Operation, after: Operation, s: Bytes, e: Envelope) {
    && !op.kind.OtherOperation? && op.target.Some? && Creates(env, s, Asked(op), op.payload)
    && var made := env.mls.createProposal(s, Asked(op), op.payload).value;
    && after.status.Proposed? && after.latestProposalHash == env.group.sha256(made.data)
    && e.group == env.group.id && e.epoch == epoch && e.from == env.group.peerText(local)
    && e.body.ProposalBody? && e.body.proposal.Some? && FromMsg(e.body.proposal.value) == Serving(op, made)
  }

  /**
    * The rows from `i` on, before and after a pass, and the envelopes it sent: one for each row that
    * was proposed again, in row order, each made by MLS in the group state that the one before left.
    */
  ghost predicate Pass(env: Env, local: PeerId, epoch: nat, before: seq<Operation>, after: seq<Operation>, i: nat,
                       s: Bytes, s': Bytes, out: seq<Envelope>)
    requires |before| == |after| && i <= |before|
    decreases |before| - i
  {
    if i == |before| then out == [] && s' == s
    else if Renewed(before[i], after[i]) then
      && out != [] && Asks(env, local, epoch, before[i], after[i], s, out[0])
      && var made := env.mls.createProposal(s, Asked(before[i]), before[i].payload).value;
      Pass(env, local, epoch, before, after, i + 1, made.state, s', out[1..])
    else Pass(env, local, epoch, before, after, i + 1, s, s', out)
  }

  lemma {:induction false} PassAlike(env: Env, local: PeerId, epoch: nat, a: seq<Operation>, b: seq<Operation>,
                                     after: seq<Operation>, i: nat, s: Bytes, s': Bytes, out: seq<Envelope>)
    requires |a| == |b| == |after| && i <= |a| && (forall j :: i <= j < |a| ==> a[j] == b[j])
    requires Pass(env, local, epoch, a, after, i, s, s', out)
    ensures Pass(env, local, epoch, b, after, i, s, s', out)
    decreases |a| - i
  {
    hide Asks, Renewed;
    if i < |a| {
      if Renewed(a[i], after[i]) {
        AskMeans(env, local, epoch, a[i], after[i], s, out[0]);
        var made := env.mls.createProposal(s, Asked(a[i]), a[i].payload).value;
        PassAlike(env, local, epoch, a, b, after, i + 1, made.state, s', out[1..]);
      } else {
        PassAlike(env, local, epoch, a, b, after, i + 1, s, s', out);
      }
    }
  }

  lemma AskMeans(env: Env, local: PeerId, epoch: nat, op: Operation, after: Operation, s: Bytes, e: Envelope)
    requires Asks(env, local, epoch, op, after, s, e)
    ensures env.mls.createProposal(s, Asked(op), op.payload).Some?
  {
  }

  predicate AllProposals(es: seq<Envelope>) {
    forall i :: 0 <= i < |es| ==> es[i].body.ProposalBody? && es[i].body.proposal.Some?
  }

  /** The proposals in a list of envelopes. */
  function Contents(es: seq<Envelope>): (r: seq<BufferedProposal>)
    requires AllProposals(es)
    ensures |r| == |es| && forall i :: 0 <= i < |es| ==> r[i] == FromMsg(es[i].body.proposal.value)
  {
    if es == [] then [] else [FromMsg(es[0].body.proposal.value)] + Contents(es[1..])
  }

  /** What a node sent and buffered between two states. */
  ghost predicate Grew(env: Env, n: Node, r: Node, out: seq<Envelope>) {
    && r.outbox == n.outbox + out && AllProposals(out)
    && r.writer.proposals == BufferedAll(n.writer.proposals, Contents(out), env.cap)
  }

  lemma GrewMore(env: Env, n: Node, n1: Node, r: Node, p: BufferedProposal, rest: seq<Envelope>)
    requires |n1.outbox| == |n.outbox| + 1 && n1.outbox[..|n.outbox|] == n.outbox
    requires n1.writer.proposals == Buffered(n.writer.proposals, p, env.cap)
    requires var e := n1.outbox[|n.outbox|];
             e.body.ProposalBody? && e.body.proposal.Some? && FromMsg(e.body.proposal.value) == p
    requires Grew(env, n1, r, rest)
    ensures Grew(env, n, r, [n1.outbox[|n.outbox|]] + rest)
  {
    hide Buffered, BufferedAll, Contents;
    var e := n1.outbox[|n.outbox|];
    assert n1.outbox == n.outbox + [e];
    Regrouped(n.outbox, e, rest);
    BufferedFirst(env, n.writer.proposals, p, e, rest);
  }

  lemma Regrouped<T>(a: seq<T>, x: T, b: seq<T>)
    ensures a + [x] + b == a + ([x] + b)
  {
  }

  lemma BufferedFirst(env: Env, s: seq<BufferedProposal>, p: BufferedProposal, e: Envelope, rest: seq<Envelope>)
    requires e.body.ProposalBody? && e.body.proposal.Some? && FromMsg(e.body.proposal.value) == p && AllProposals(rest)
    ensures AllProposals([e] + rest)
    ensures BufferedAll(s, Contents([e] + rest), env.cap) ==
              BufferedAll(Buffered(s, p, env.cap), Contents(rest), env.cap)
  {
    hide Buffered;
    var out := [e] + rest;
    assert out[1..] == rest;
    assert Contents(out)[1..] == Contents(rest);
  }

  /** A whole pass sends and buffers exactly the proposals of the rows it proposes again. */
  lemma {:induction false} RebaseSends(env: Env, n: Node, i: nat) returns (out: seq<Envelope>)
    requires WellFormed(n) && i <= |n.ops|
    ensures var r := RebaseFrom(env, n, i);
            && (forall j :: 0 <= j < i ==> r.ops[j] == n.ops[j])
            && Pass(env, n.local, n.epoch, n.ops, r.ops, i, n.groupState, r.groupState, out) && Grew(env, n, r, out)
    decreases |n.ops| - i
  {
    hide RebaseOne, WellFormed, Pass, Grew;
    if i == |n.ops| {
      out := [];
      NothingSent(env, n);
    } else {
      OpHasTarget(n, i);
      var n1 := RebaseOne(env, n, i);
      RebaseOneWellFormed(env, n, i);
      RowOnly(env, n, i);
      var rest := RebaseSends(env, n1, i + 1);
      out := RoundFirst(env, n, i, RebaseFrom(env, n1, i + 1), rest);
    }
  }

  lemma OpHasTarget(n: Node, i: nat)
    requires WellFormed(n) && i < |n.ops|
    ensures HasTarget(n.ops[i])
  {
  }

  lemma RebaseOneWellFormed(env: Env, n: Node, i: nat)
    requires WellFormed(n) && i < |n.ops|
    ensures HasTarget(n.ops[i]) && WellFormed(RebaseOne(env, n, i)) && |RebaseOne(env, n, i).ops| == |n.ops|
  {
    hide RebaseOne;
  }

  lemma RowOnly(env: Env, n: Node, i: nat)
    requires i < |n.ops| && HasTarget(n.ops[i])
    ensures var r := RebaseOne(env, n, i);
            |r.ops| == |n.ops| && forall j :: 0 <= j < |n.ops| && j != i ==> r.ops[j] == n.ops[j]
    ensures SameCore(n, RebaseOne(env, n, i))
  {
    hide RebaseOne, Due, Sends;
    RebaseOneExactly(env, n, i);
  }

  lemma NothingSent(env: Env, n: Node)
    ensures Pass(env, n.local, n.epoch, n.ops, n.ops, |n.ops|, n.groupState, n.groupState, []) && Grew(env, n, n, [])
  {
  }

  /** One round, then the rest of the pass. */
  lemma RoundFirst(env: Env, n: Node, i: nat, r: Node, rest: seq<Envelope>) returns (out: seq<Envelope>)
    requires i < |n.ops| == |r.ops| && HasTarget(n.ops[i]) && |RebaseOne(env, n, i).ops| == |n.ops|
    requires var n1 := RebaseOne(env, n, i);
             && r.ops[i] == n1.ops[i] && Grew(env, n1, r, rest)
             && Pass(env, n.local, n.epoch, n1.ops, r.ops, i + 1, n1.groupState, r.groupState, rest)
    ensures Pass(env, n.local, n.epoch, n.ops, r.ops, i, n.groupState, r.groupState, out) && Grew(env, n, r, out)
  {
    hide RebaseOne, Due, Grew, Asks, Pass, Sends;
    var n1, op := RebaseOne(env, n, i), n.ops[i];
    RebaseOneExactly(env, n, i);
    RowOnly(env, n, i);
    PassAlike(env, n.local, n.epoch, n1.ops, n.ops, r.ops, i + 1, n1.groupState, r.groupState, rest);
    if Due(env, n, op) && Creates(env, n.groupState, Asked(op), op.payload) {
      DueIsMember(env, n, op);
      var made := env.mls.createProposal(n.groupState, Asked(op), op.payload).value;
      SendsMeans(env, n, n1, made.state, Serving(op, made));
      GrewMore(env, n, n1, r, Serving(op, made), rest);
      out := [n1.outbox[|n.outbox|]] + rest;
      PassMore(env, n, i, r, made, out, rest);
    } else {
      out := rest;
      PassSame(env, n, i, r, rest);
      GrewSame(env, n, n1, r, rest);
    }
  }

  lemma DueIsMember(env: Env, n: Node, op: Operation)
    requires Due(env, n, op) && HasTarget(op)
    ensures !op.kind.OtherOperation? && op.target.Some?
  {
  }

  lemma SendsMeans(env: Env, n: Node, r: Node, state: Bytes, p: BufferedProposal)
    requires Sends(env, n, r, state, p)
    ensures |r.outbox| == |n.outbox| + 1 && r.outbox[..|n.outbox|] == n.outbox && r.groupState == state
    ensures r.writer.proposals == Buffered(n.writer.proposals, p, env.cap)
    ensures var e := r.outbox[|n.outbox|];
            && e.group == env.group.id && e.epoch == n.epoch && e.from == env.group.peerText(n.local)
            && e.body.ProposalBody? && e.body.proposal.Some? && FromMsg(e.body.proposal.value) == p
  {
    hide Buffered;
  }

  lemma PassMore(env: Env, n: Node, i: nat, r: Node, made: CreatedProposal, out: seq<Envelope>, rest: seq<Envelope>)
    requires i < |n.ops| == |r.ops| && !n.ops[i].kind.OtherOperation? && n.ops[i].target.Some?
    requires Creates(env, n.groupState, Asked(n.ops[i]), n.ops[i].payload)
    requires made == env.mls.createProposal(n.groupState, Asked(n.ops[i]), n.ops[i].payload).value
    requires r.ops[i] == Tried(n.ops[i], n.epoch).(status := Proposed, lastError := None,
                                                   latestProposalHash := env.group.sha256(made.data))
    requires out != [] && out[1..] == rest
    requires var e := out[0];
             && e.group == env.group.id && e.epoch == n.epoch && e.from == env.group.peerText(n.local)
             && e.body.ProposalBody? && e.body.proposal.Some?
             && FromMsg(e.body.proposal.value) == Serving(n.ops[i], made)
    requires Pass(env, n.local, n.epoch, n.ops, r.ops, i + 1, made.state, r.groupState, rest)
    ensures Pass(env, n.local, n.epoch, n.ops, r.ops, i, n.groupState, r.groupState, out)
  {
    hide Serving;
  }

  lemma PassSame(env: Env, n: Node, i: nat, r: Node, rest: seq<Envelope>)
    requires i < |n.ops| == |r.ops| && !Renewed(n.ops[i], r.ops[i])
    requires Pass(env, n.local, n.epoch, n.ops, r.ops, i + 1, n.groupState, r.groupState, rest)
    ensures Pass(env, n.local, n.epoch, n.ops, r.ops, i, n.groupState, r.groupState, rest)
  {
  }

  lemma GrewSame(env: Env, n: Node, n1: Node, r: Node, out: seq<Envelope>)
    requires n1 == n.(ops := n1.ops) && Grew(env, n1, r, out)
    ensures Grew(env, n, r, out)
  {
  }

  /** The end of every commit: the operations are settled by it, and then one pass proposes again what stayed open. */
  lemma ReconcileSends(env: Env, n: Node, c: CommitMsg) returns (out: seq<Envelope>)
    requires WellFormed(n)
    ensures var r := Reconcile(env, n, c);
            && |r.ops| == |ObservedAll(n.ops, c)| && Grew(env, n, r, out)
            && Pass(env, n.local, n.epoch, ObservedAll(n.ops, c), r.ops, 0, n.groupState, r.groupState, out)
  {
    hide Pass, Grew, RebaseFrom, ObservedAll;
    var settled := n.(ops := ObservedAll(n.ops, c));
    SettledWellFormed(n, c);
    out := RebaseSends(env, settled, 0);
    GrewSame(env, n, settled, Reconcile(env, n, c), out);
  }

  lemma SettledWellFormed(n: Node, c: CommitMsg)
    requires WellFormed(n)
    ensures WellFormed(n.(ops := ObservedAll(n.ops, c)))
  {
  }

  // ----- received proposals -----

  /** MLS processes the proposal to a non-empty state, under the announced reference if one is announced. */
  ghost predicate Adoptable(env: Env, n: Node, e: Envelope, m: ProposalMsg) {
    && e.epoch == n.epoch && n.groupState != []
    && var done := env.mls.processProposal(n.groupState, m.data);
    done.Some? && done.value.1 != [] && (m.ref == [] || m.ref == done.value.0)
  }

  /**
    * A proposal that is not ahead joins the buffer under MLS's
    * reference if it can be adopted; otherwise nothing changes.
    */
  lemma AdoptedExactly(env: Env, n: Node, e: Envelope, m: ProposalMsg)
    requires e.body == ProposalBody(Some(m)) && !m.kind.Join? && e.epoch <= n.epoch
    ensures var r := HandleProposal(env, n, e);
            if !Adoptable(env, n, e, m) then r == n
            else
              var done := env.mls.processProposal(n.groupState, m.data).value;
              var p := BufferedProposal(m.kind, m.data, done.0, m.operationId, m.target, m.requestId, m.groupType,
                                        m.categoryId, m.keyPackageHash);
              r == n.(groupState := done.1,
                      writer := n.writer.(proposals := Buffered(n.writer.proposals, p, env.cap)))
  {
    hide Buffered;
  }

  /** The member that a join replaces, by its identity in the group. */
  ghost function Replaced(env: Env, m: ProposalMsg): Bytes {
    if m.targetIdentity == [] then env.textBytes(m.target) else m.targetIdentity
  }

  /** What a join asks MLS for, in turn: a removal of the stale member if there is one, and an add of the fresh one. */
  ghost predicate Evicts(env: Env, n: Node, m: ProposalMsg) {
    && env.mls.hasMember(n.groupState, Replaced(env, m)) == Some(true)
    && Creates(env, n.groupState, Remove, Replaced(env, m))
  }

  ghost function Evicted(env: Env, n: Node, m: ProposalMsg): Bytes {
    if Evicts(env, n, m) then env.mls.createProposal(n.groupState, Remove, Replaced(env, m)).value.state
    else n.groupState
  }

  ghost function JoinProposals(env: Env, n: Node, m: ProposalMsg): seq<BufferedProposal> {
    (if !Evicts(env, n, m) then []
     else
       var made := env.mls.createProposal(n.groupState, Remove, Replaced(env, m)).value;
       [BufferedProposal(Remove, made.data, made.ref, "", m.target, "", "", "", [])]) +
    (if !Creates(env, Evicted(env, n, m), Add, m.data) then []
     else
       var made := env.mls.createProposal(Evicted(env, n, m), Add, m.data).value;
       [BufferedProposal(Add, made.data, made.ref, m.operationId, m.target, m.requestId, m.groupType, m.categoryId,
                         m.keyPackageHash)])
  }

  /** A join within the window of past epochs becomes local proposals that are buffered and not sent. */
  lemma JoinExactly(env: Env, n: Node, e: Envelope, m: ProposalMsg)
    requires e.body == ProposalBody(Some(m)) && m.kind.Join?
    ensures var r, s := HandleProposal(env, n, e), Evicted(env, n, m);
            if e.epoch + env.maxPastEpochs < n.epoch || n.groupState == [] then r == n
            else
              && r == n.(groupState := r.groupState, writer := n.writer.(proposals := r.writer.proposals))
              && r.writer.proposals == BufferedAll(n.writer.proposals, JoinProposals(env, n, m), env.cap)
              && r.groupState == if Creates(env, s, Add, m.data) then env.mls.createProposal(s, Add, m.data).value.state
                 else s
  {
    hide CreateAndBuffer, Buffered;
    if e.epoch + env.maxPastEpochs >= n.epoch && n.groupState != [] {
      var removal := BufferedProposal(Remove, [], [], "", m.target, "", "", "", []);
      CreateAndBufferExactly(env, n, Remove, Replaced(env, m), removal);
      var n1 := if env.mls.hasMember(n.groupState, Replaced(env, m)) == Some(true)
                then CreateAndBuffer(env, n, Remove, Replaced(env, m), removal) else n;
      CreateAndBufferExactly(env, n1, Add, m.data, FromMsg(m));
      JoinBuffers(env, n, m);
    }
  }

  lemma CreateAndBufferExactly(env: Env, n: Node, kind: ProposalType, data: Bytes, meta: BufferedProposal)
    ensures var r := CreateAndBuffer(env, n, kind, data, meta);
            if !Creates(env, n.groupState, kind, data) then r == n
            else
              var made := env.mls.createProposal(n.groupState, kind, data).value;
              r == n.(groupState := made.state, writer := n.writer.(proposals :=
                        Buffered(n.writer.proposals, Filled(meta, kind, made), env.cap)))
  {
    hide Buffered;
  }

  lemma JoinBuffers(env: Env, n: Node, m: ProposalMsg)
    ensures var s, ps := n.writer.proposals, JoinProposals(env, n, m);
            && (|ps| == 0 ==> BufferedAll(s, ps, env.cap) == s)
            && (|ps| == 1 ==> BufferedAll(s, ps, env.cap) == Buffered(s, ps[0], env.cap))
            && (|ps| == 2 ==> BufferedAll(s, ps, env.cap) == Buffered(Buffered(s, ps[0], env.cap), ps[1], env.cap))
  {
    hide Buffered, Evicts, Evicted, Creates, JoinProposals;
    var s, ps := n.writer.proposals, JoinProposals(env, n, m);
    if |ps| == 2 {
      assert ps[1..] == [ps[1]];
      BufferedOnce(Buffered(s, ps[0], env.cap), ps[1], env.cap);
    } else if |ps| == 1 {
      assert ps == [ps[0]];
      BufferedOnce(s, ps[0], env.cap);
    }
  }

  lemma BufferedOnce(s: seq<BufferedProposal>, p: BufferedProposal, cap: nat)
    ensures BufferedAll(s, [p], cap) == Buffered(s, p, cap)
  {
    assert [p][1..] == [];
  }

  // ----- proposals in issued commits -----

  function DeliveryOf(p: BufferedProposal, welcomeHash: Bytes): AddDelivery {
    AddDelivery(p.operationId, p.target, p.requestId, p.groupType, p.categoryId, p.keyPackageHash, welcomeHash)
  }

  /** `pos` lists the adds of the batch in order, and `ds` delivers them one by one. */
  ghost predicate Lists(batch: seq<BufferedProposal>, pos: seq<nat>, ds: seq<AddDelivery>, welcomeHash: Bytes) {
    && |pos| == |ds| && (forall j, k :: 0 <= j < k < |pos| ==> pos[j] < pos[k])
    && (forall k :: 0 <= k < |pos| ==>
          pos[k] < |batch| && batch[pos[k]].kind.Add? && ds[k] == DeliveryOf(batch[pos[k]], welcomeHash))
    && (forall i: nat :: i < |batch| && batch[i].kind.Add? ==> i in pos)
  }

  /**
    * An issued commit delivers each of its adds once, in batch
    * order, with the add's own metadata and the Welcome's hash.
    */
  lemma {:induction false} DeliveriesExactly(batch: seq<BufferedProposal>, welcomeHash: Bytes) returns (pos: seq<nat>)
    ensures Lists(batch, pos, Deliveries(batch, welcomeHash), welcomeHash)
  {
    hide Lists;
    if batch == [] {
      pos := [];
      ListsNone(welcomeHash);
    } else {
      var init, p := batch[..|batch| - 1], batch[|batch| - 1];
      assert batch == init + [p];
      pos := DeliveriesExactly(init, welcomeHash);
      ListsMore(init, p, pos, Deliveries(init, welcomeHash), welcomeHash);
      assert Deliveries(init, welcomeHash) + [] == Deliveries(init, welcomeHash);
      pos := if p.kind.Add? then pos + [|init|] else pos;
    }
  }

  lemma ListsNone(welcomeHash: Bytes)
    ensures Lists([], [], [], welcomeHash)
  {
  }

  lemma ListsMore(init: seq<BufferedProposal>, p: BufferedProposal, pos: seq<nat>, ds: seq<AddDelivery>,
                  welcomeHash: Bytes)
    requires Lists(init, pos, ds, welcomeHash)
    ensures if p.kind.Add? then Lists(init + [p], pos + [|init|], ds + [DeliveryOf(p, welcomeHash)], welcomeHash)
            else Lists(init + [p], pos, ds, welcomeHash)
  {
    hide DeliveryOf;
    var batch := init + [p];
    forall i: nat | i < |batch| && batch[i].kind.Add?
      ensures i in pos + [|init|] && (i < |init| ==> i in pos)
    {
      if i < |init| {
        assert init[i].kind.Add?;
      }
    }
  }

  /**
    * What an issued commit says: the whole batch, its adds as
    * deliveries, and references that MLS gave or the batch has.
    */
  lemma IssuedCarries(env: Env, n: Node, batch: seq<BufferedProposal>)
    requires Prepares(env, n, batch).Some?
    ensures var c, made := Prepares(env, n, batch).value.commit, env.mls.createCommit(n.groupState, Refs(batch)).value;
            && FromMsgs(c.included) == batch && c.commitData == made.data && c.newTreeHash == made.treeHash
            && c.committedRefs == (if made.refs == [] then Refs(batch) else made.refs)
            && (forall t :: AddsTarget(c, t) <==> t != "" && exists p :: p in batch && p.kind.Add? && p.target == t)
            && (forall t ::
                  RemovesTarget(c, t) <==> t != "" && exists p :: p in batch && p.kind.Remove? && p.target == t)
  {
    hide Deliveries, Ticked, AddsTarget, RemovesTarget;
    var made := env.mls.createCommit(n.groupState, Refs(batch)).value;
    var c := CommitMessage(env, batch, made);
    BatchRoundTrip(batch);
    forall t
      ensures AddsTarget(c, t) <==> t != "" && exists p :: p in batch && p.kind.Add? && p.target == t
      ensures RemovesTarget(c, t) <==> t != "" && exists p :: p in batch && p.kind.Remove? && p.target == t
    {
      AddsExactly(batch, c, t);
      RemovesExactly(batch, c, t);
    }
  }

  lemma AddsExactly(batch: seq<BufferedProposal>, c: CommitMsg, t: string)
    requires exists h :: c.deliveries == Deliveries(batch, h)
    ensures AddsTarget(c, t) <==> t != "" && exists p :: p in batch && p.kind.Add? && p.target == t
  {
    hide Deliveries;
    var h :| c.deliveries == Deliveries(batch, h);
    var pos := DeliveriesExactly(batch, h);
    if AddsTarget(c, t) {
      var d :| d in c.deliveries && d.target == t;
      var k :| 0 <= k < |c.deliveries| && c.deliveries[k] == d;
      assert pos[k] in pos && batch[pos[k]] in batch;
    }
    if p :| p in batch && p.kind.Add? && p.target == t {
      var i: nat :| i < |batch| && batch[i] == p;
      assert i in pos;
      var k :| 0 <= k < |pos| && pos[k] == i;
      assert c.deliveries[k] in c.deliveries;
    }
  }

  lemma RemovesExactly(batch: seq<BufferedProposal>, c: CommitMsg, t: string)
    requires c.included == ToMsgs(batch)
    ensures RemovesTarget(c, t) <==> t != "" && exists p :: p in batch && p.kind.Remove? && p.target == t
  {
    if RemovesTarget(c, t) {
      var m :| m in c.included && m.kind.Remove? && m.target == t;
      var k :| 0 <= k < |c.included| && c.included[k] == m;
      assert batch[k] in batch;
    }
    if p :| p in batch && p.kind.Remove? && p.target == t {
      var i :| 0 <= i < |batch| && batch[i] == p;
      assert c.included[i] in c.included;
    }
  }
}
