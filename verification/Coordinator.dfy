/** One node's commit pipeline: validating, applying and issuing commits, with the recursive drain of early messages. */
module Coordinator {
  import opened Bytes
  import opened Types
  import opened Election
  import opened SingleWriter
  import opened EpochTracker
  import opened Agreement
  import opened HybridClock
  import opened Operations

  datatype CreatedProposal = CreatedProposal(data: Bytes, ref: Bytes, state: Bytes)
  datatype CreatedCommit = CreatedCommit(data: Bytes, welcome: Bytes, refs: seq<Bytes>, state: Bytes, treeHash: Bytes)

  /** The MLS engine: arbitrary partial functions on opaque states. */
  datatype Mls = Mls(
    stageCommit: (Bytes, Bytes, seq<Bytes>) -> Option<seq<Bytes>>,
    processCommit: (Bytes, Bytes, seq<Bytes>) -> Option<(Bytes, Bytes)>,
    processProposal: (Bytes, Bytes) -> Option<(Bytes, Bytes)>,
    createProposal: (Bytes, ProposalType, Bytes) -> Option<CreatedProposal>,
    createCommit: (Bytes, seq<Bytes>) -> Option<CreatedCommit>,
    encrypt: (Bytes, Bytes) -> Option<(Bytes, Bytes)>,
    decrypt: (Bytes, Bytes) -> Option<(Bytes, Bytes)>,
    hasMember: (Bytes, Bytes) -> Option<bool>)

  /** What all nodes of a group share: policy, hashing, MLS and configuration. */
  datatype Env = Env(
    group: Group, mls: Mls, envelopeHash: Envelope -> Bytes, decodePeer: string -> PeerId, textBytes: string -> Bytes,
    cap: nat, maxPastEpochs: nat, maxPastAgeSeconds: nat, maxRetries: nat, offlineSync: bool)

  /** Live handling, or one of the two modes in which commits and messages are only logged. */
  datatype Mode = Live | CatchingUp | FrozenForApply

  /**
    * A coordinator's state: memory (`future` to `now`) and storage
    * (`applied` to `ops`); `outbox` is what it has published.
    */
  datatype Node = Node(
    local: PeerId, members: seq<PeerId>, mode: Mode,
    epoch: nat, groupState: Bytes, treeHash: Bytes,
    lastCommitHash: Bytes, historyHash: Option<Bytes>, chain: map<nat, Bytes>,
    future: Future<Envelope>, writer: Writer, invalid: set<Bytes>, hlc: Clock, now: int,
    applied: set<Bytes>, commits: seq<Envelope>, delivered: seq<Envelope>, firstSeen: map<Bytes, int>,
    ops: seq<Operation>,
    outbox: seq<Envelope>)

  /** Structural invariant: buffered messages sit under their own epoch, ahead of the node's. */
  ghost predicate WellFormed(n: Node) {
    && Ahead(n.future, n.epoch)
    && (forall k, m :: k in n.future && m in n.future[k] ==> m.epoch == k)
    && n.writer.epoch == n.epoch
    && (forall i :: 0 <= i < |n.ops| ==> HasTarget(n.ops[i]))
  }

  /** Messages waiting in the future buffer. */
  ghost function Held(n: Node): set<Envelope> {
    set k, m | k in n.future && m in n.future[k] :: m
  }

  // ----- hashes -----

  /** hashCommitData: no hash for an empty commit. */
  function CommitHash(env: Env, data: Bytes): Bytes {
    if data == [] then [] else env.group.sha256(data)
  }

  /** "phoenix/history/v1" followed by the group ID. */
  const HISTORY_LABEL: Bytes := [
    112, 104, 111, 101, 110, 105, 120, 47, 104, 105, 115, 116, 111, 114, 121, 47, 118, 49]

  function InitialHistory(env: Env): Bytes {
    env.group.sha256(HISTORY_LABEL + env.group.id)
  }

  function NextHistory(env: Env, previous: Bytes, commitHash: Bytes): Bytes {
    env.group.sha256(previous + commitHash)
  }

  // ----- local proposals -----

  /** The protocol state that proposals and reconciliation leave alone. */
  predicate SameCore(a: Node, b: Node) {
    && a.local == b.local && a.members == b.members && a.mode == b.mode && a.epoch == b.epoch
    && a.treeHash == b.treeHash
    && a.lastCommitHash == b.lastCommitHash && a.historyHash == b.historyHash && a.chain == b.chain
    && a.writer.epoch == b.writer.epoch && a.writer.suspended == b.writer.suspended && a.now == b.now
    && a.applied == b.applied && a.commits == b.commits && a.delivered == b.delivered && a.firstSeen == b.firstSeen
    && a.invalid == b.invalid
  }

  /** createAndStoreLocalProposalLocked: MLS must accept, and storage refuses an empty state. */
  function CreateLocal(env: Env, n: Node, kind: ProposalType, data: Bytes, meta: BufferedProposal)
    : Option<(Node, BufferedProposal)>
  {
    match env.mls.createProposal(n.groupState, kind, data)
    case None => None
    case Some(made) =>
      if made.state == [] then None
      else Some((n.(groupState := made.state), meta.(kind := kind, data := made.data, ref := made.ref)))
  }

  function WithProposal(env: Env, n: Node, p: BufferedProposal): Node {
    n.(writer := n.writer.(proposals := Buffered(n.writer.proposals, p, env.cap)))
  }

  /** broadcastLocked: stamp with the clock and hand to the transport. */
  function Publish(env: Env, n: Node, body: Body): Node {
    var clock := Ticked(n.hlc, n.now, n.now);
    n.(hlc := clock, outbox := n.outbox + [Wrapped(env, n, clock, body)])
  }

  function Wrapped(env: Env, n: Node, clock: Clock, body: Body): Envelope {
    Envelope(env.group.id, n.epoch, env.group.peerText(n.local), Timestamp(clock.l, clock.c, n.local), body)
  }

  /** proposeLockedWithMetadata. */
  function Propose(env: Env, n: Node, kind: ProposalType, data: Bytes, meta: BufferedProposal): (r: Node)
    ensures SameCore(n, r) && r.future == n.future && r.ops == n.ops
  {
    match CreateLocal(env, n, kind, data, meta)
    case None => n
    case Some(made) => WithProposal(env, Publish(env, made.0, ProposalBody(Some(ToMsg(made.1)))), made.1)
  }

  // ----- received proposals -----

  /** Create a proposal locally and buffer it; if that fails, nothing happens. */
  function CreateAndBuffer(env: Env, n: Node, kind: ProposalType, data: Bytes, meta: BufferedProposal): (r: Node)
    ensures SameCore(n, r) && r.future == n.future && r.ops == n.ops && r.outbox == n.outbox
  {
    match CreateLocal(env, n, kind, data, meta)
    case None => n
    case Some(made) => WithProposal(env, made.0, made.1)
  }

  /** The transmutation of a ProposalJoin into a removal of the stale leaf and an add of the fresh one. */
  function HandleJoin(env: Env, n: Node, e: Envelope, m: ProposalMsg): (r: Node)
    ensures SameCore(n, r) && r.future == n.future && r.ops == n.ops && r.outbox == n.outbox
  {
    if e.epoch + env.maxPastEpochs < n.epoch || n.groupState == [] then n
    else
      var identity := if m.targetIdentity == [] then env.textBytes(m.target) else m.targetIdentity;
      var removal := BufferedProposal(Remove, [], [], "", m.target, "", "", "", []);
      var n1 :=
        if env.mls.hasMember(n.groupState, identity) == Some(true)
           then CreateAndBuffer(env, n, Remove, identity, removal) else n;
      CreateAndBuffer(env, n1, Add, m.data, FromMsg(m))
  }

  /** handleProposalLocked. */
  function HandleProposal(env: Env, n: Node, e: Envelope): (r: Node)
    ensures SameCore(n, r) && r.ops == n.ops && r.outbox == n.outbox
    ensures r.future == n.future || r.future == Enqueued(n.future, n.epoch, e.epoch, e)
  {
    if !e.body.ProposalBody? || e.body.proposal.None? then n
    else
      var m := e.body.proposal.value;
      if m.kind.Join? then HandleJoin(env, n, e, m)
      else if n.groupState == [] then n
      else
        match Validate(e.epoch, n.epoch)
        case RejectStale => n
        case BufferFuture => n.(future := Enqueued(n.future, n.epoch, e.epoch, e))
        case Process => AdoptProposal(env, n, m)
  }

  /** A proposal for the current epoch: MLS processes it and its reference must be the announced one. */
  function AdoptProposal(env: Env, n: Node, m: ProposalMsg): (r: Node)
    ensures SameCore(n, r) && r.future == n.future && r.ops == n.ops && r.outbox == n.outbox
  {
    match env.mls.processProposal(n.groupState, m.data)
    case None => n
    case Some((ref, state)) =>
      if (m.ref != [] && m.ref != ref) || state == [] then n
      else WithProposal(env, n.(groupState := state), FromMsg(m).(ref := ref))
  }

  // ----- received application messages -----

  datatype ReplayState = Applied | Duplicate | FutureEpoch | StaleEpoch | DecryptFailed | PersistFailed | Invalid

  /** The part of ReplayEnvelopeResult that decides whether a sync cursor may move past the envelope. */
  datatype Outcome = Outcome(state: ReplayState, cursorSafe: bool)

  function Done(s: ReplayState): Outcome {
    Outcome(s, s.Applied? || s.Duplicate? || s.StaleEpoch?)
  }

  /** Seconds since this node first saw the envelope; an unknown envelope is seen now. */
  function AgeSeconds(n: Node, hash: Bytes): nat {
    var seen := if hash in n.firstSeen && n.firstSeen[hash] > 0 then n.firstSeen[hash] else n.now;
    if n.now < seen then 0 else (n.now - seen) / 1000
  }

  /** The epoch test for application messages: a recent past epoch is still processed. */
  function ApplicationAction(env: Env, n: Node, e: Envelope): Action {
    var action := Validate(e.epoch, n.epoch);
    if action.RejectStale? && e.epoch + env.maxPastEpochs >= n.epoch
       && !(env.maxPastAgeSeconds > 0 && AgeSeconds(n, env.envelopeHash(e)) > env.maxPastAgeSeconds)
    then Process else action
  }

  /** The record a store keeps when it first logs an envelope. */
  function Logged(n: Node, hash: Bytes): map<Bytes, int> {
    if hash in n.firstSeen then n.firstSeen else n.firstSeen[hash := n.now]
  }

  /** handleApplicationDetailedLocked. */
  function HandleApplication(env: Env, n: Node, e: Envelope): (r: (Node, Outcome))
    ensures r.0.epoch == n.epoch && r.0.writer == n.writer && r.0.ops == n.ops && r.0.outbox == n.outbox
    ensures r.0.future == n.future || r.0.future == Enqueued(n.future, n.epoch, e.epoch, e)
  {
    var hash := env.envelopeHash(e);
    if hash in n.applied then (n, Done(Duplicate))
    else
      match ApplicationAction(env, n, e)
      case RejectStale => (n, Done(StaleEpoch))
      case BufferFuture => (n.(future := Enqueued(n.future, n.epoch, e.epoch, e)), Done(FutureEpoch))
      case Process =>
        match e.body
        case ApplicationBody(Some(ciphertext)) =>
          (match Merged(n.hlc, e.ts.wall, e.ts.counter, n.now, n.now)
           case None => (n, Done(Invalid))
           case Some(clock) =>
             var n1 := n.(hlc := clock);
             match env.mls.decrypt(n.groupState, ciphertext)
             case None => (n1, Done(DecryptFailed))
             case Some((_, state)) =>
               if state == [] then (n1, Done(PersistFailed))
               else
                 (n1.(groupState := state, applied := n.applied + {hash}, delivered := n.delivered + [e],
                      firstSeen := Logged(n, hash)), Done(Applied)))
        case _ => (n, Done(Invalid))
  }

  /** sendMessage: the own message is stored as applied before it is published. */
  function Send(env: Env, n: Node, plaintext: Bytes): (r: Node)
    ensures r.epoch == n.epoch && r.writer == n.writer && r.ops == n.ops && r.future == n.future
  {
    var clock := Ticked(n.hlc, n.now, n.now);
    match env.mls.encrypt(n.groupState, plaintext)
    case None => n.(hlc := clock)
    case Some((ciphertext, state)) =>
      var e := Wrapped(env, n, clock, ApplicationBody(Some(ciphertext)));
      var hash := env.envelopeHash(e);
      if state == [] || hash in n.applied then n.(hlc := clock)
      else
        n.(hlc := clock, groupState := state, applied := n.applied + {hash}, delivered := n.delivered + [e],
           firstSeen := Logged(n, hash), outbox := n.outbox + [e])
  }

  /** The envelope of a message of one's own, once it is encrypted. */
  function Sealed(env: Env, n: Node, ciphertext: Bytes): Envelope {
    Envelope(env.group.id, n.epoch, env.group.peerText(n.local),
             Timestamp(Ticked(n.hlc, n.now, n.now).l, Ticked(n.hlc, n.now, n.now).c, n.local),
             ApplicationBody(Some(ciphertext)))
  }

  /**
    * A message goes out exactly if MLS encrypts it to a non-empty state and its envelope is new; then it is stored,
    * marked applied, logged and published, all at once. In any case the clock ticks, and nothing else changes.
    */
  lemma SentExactly(env: Env, n: Node, plaintext: Bytes)
    ensures var r, clock := Send(env, n, plaintext), Ticked(n.hlc, n.now, n.now);
            var done := env.mls.encrypt(n.groupState, plaintext);
            if done.Some? && done.value.1 != [] && env.envelopeHash(Sealed(env, n, done.value.0)) !in n.applied then
              var e := Sealed(env, n, done.value.0);
              var hash := env.envelopeHash(e);
              r == n.(hlc := clock, groupState := done.value.1, applied := n.applied + {hash},
                      delivered := n.delivered + [e], outbox := n.outbox + [e],
                      firstSeen := if hash in n.firstSeen then n.firstSeen else n.firstSeen[hash := n.now])
            else r == n.(hlc := clock)
  {
    hide Ticked;
  }

  // ----- received commits -----

  datatype Verdict = Accept(state: Bytes, treeHash: Bytes) | Ignore | Refuse

  /** The checks of handleCommitLocked on a commit for the current epoch. */
  function Examine(env: Env, n: Node, e: Envelope, c: CommitMsg): Verdict {
    var batch := FromMsgs(c.included);
    var raw := ProposalDatas(c.included);
    var sender := env.decodePeer(e.from);
    if env.envelopeHash(e) in n.applied then Ignore
    else
      match env.mls.stageCommit(n.groupState, c.commitData, raw)
      case None => Refuse
      case Some(refs) =>
        if c.committedRefs != [] && multiset(refs) != multiset(c.committedRefs) then Refuse
        else if batch != [] && sender != NO_PEER && !PassesMetadata(env.group, n.writer, n.members, c.included, sender)
                then Refuse
        else
          match env.mls.processCommit(n.groupState, c.commitData, raw)
          case None => Refuse
          case Some((state, treeHash)) => if state == [] then Ignore else Accept(state, treeHash)
  }

  function ProposalDatas(msgs: seq<ProposalMsg>): (r: seq<Bytes>)
    ensures |r| == |msgs|
  {
    if msgs == [] then [] else ProposalDatas(msgs[..|msgs| - 1]) + [msgs[|msgs| - 1].data]
  }

  function Marked(env: Env, n: Node, c: CommitMsg): Node {
    var hash := CommitHash(env, c.commitData);
    if hash == [] then n else n.(invalid := n.invalid + {hash})
  }

  /** ApplyCommit, then the field updates of advanceEpochLocked up to the drain loop. */
  function Advanced(env: Env, n: Node, e: Envelope, data: Bytes, state: Bytes, treeHash: Bytes): Node {
    var commitHash := CommitHash(env, data);
    var previous := if n.historyHash.None? then InitialHistory(env) else n.historyHash.value;
    var anchored := if n.historyHash.None? then n.chain[n.epoch := previous] else n.chain;
    var history := NextHistory(env, previous, commitHash);
    var hash := env.envelopeHash(e);
    n.(groupState := state, epoch := n.epoch + 1, treeHash := treeHash,
       future := Beyond(n.future, n.epoch + 1), writer := Fresh(n.epoch + 1),
       lastCommitHash := commitHash, historyHash := Some(history), chain := anchored[n.epoch + 1 := history],
       applied := n.applied + {hash}, commits := n.commits + [e], firstSeen := Logged(n, hash))
  }

  /** ApplyCommit alone: the record, the marker and the log have moved on, the history chain has not. */
  function Recorded(env: Env, n: Node, e: Envelope, data: Bytes, state: Bytes, treeHash: Bytes): Node {
    Advanced(env, n, e, data, state, treeHash).(lastCommitHash := n.lastCommitHash, historyHash := n.historyHash,
                                                chain := n.chain)
  }

  lemma AdvancedWellFormed(env: Env, n: Node, e: Envelope, data: Bytes, state: Bytes, treeHash: Bytes)
    requires WellFormed(n)
    ensures WellFormed(Advanced(env, n, e, data, state, treeHash))
    ensures Size(n.future) == |Queue(n.future, n.epoch + 1)| + Size(Advanced(env, n, e, data, state, treeHash).future)
    ensures forall m :: m in Queue(n.future, n.epoch + 1) ==> m.epoch == n.epoch + 1
  {
    SizeAdvance(n.future, n.epoch);
  }

  // ----- reconciliation after a commit -----

  predicate SameIntents(a: seq<Operation>, b: seq<Operation>) {
    |a| == |b| && forall i :: 0 <= i < |a| ==> SameIntent(a[i], b[i])
  }

  function ObservedAll(ops: seq<Operation>, commit: CommitMsg): (r: seq<Operation>)
    requires forall i :: 0 <= i < |ops| ==> HasTarget(ops[i])
    ensures SameIntents(ops, r)
    ensures forall i :: 0 <= i < |ops| ==> r[i] == AfterCommit(ops[i], commit)
  {
    if ops == [] then [] else ObservedAll(ops[..|ops| - 1], commit) + [AfterCommit(ops[|ops| - 1], commit)]
  }

  /** Did MLS lose the target of a removal? An error counts as no. */
  function Gone(env: Env, n: Node, op: Operation): bool {
    env.mls.hasMember(n.groupState, op.payload) == Some(false)
  }

  /** The re-proposal of one rebased operation. */
  function Reproposed(env: Env, n: Node, i: nat, moved: Operation): (r: Node)
    requires i < |n.ops| && n.ops[i].target.Some? && SameIntent(n.ops[i], moved)
    ensures SameCore(n, r) && r.future == n.future && SameIntents(n.ops, r.ops)
  {
    var op := n.ops[i];
    var kind := if op.kind.AddMember? then Add else Remove;
    var meta := BufferedProposal(kind, [], [], op.id, op.target.value, "", "", "",
                                 if op.kind.AddMember? then op.operationHash else []);
    match CreateLocal(env, n, kind, op.payload, meta)
    case None => n.(ops := n.ops[i := SavedAfter(op, moved, None)])
    case Some(r) =>
      WithProposal(env, Publish(env, r.0, ProposalBody(Some(ToMsg(r.1)))), r.1)
        .(ops := n.ops[i := SavedAfter(op, moved, Some(env.group.sha256(r.1.data)))])
  }

  /** One round of the loop in reconcileAndRebaseOperationsLocked. */
  function RebaseOne(env: Env, n: Node, i: nat): (r: Node)
    requires i < |n.ops| && HasTarget(n.ops[i])
    ensures SameCore(n, r) && r.future == n.future && SameIntents(n.ops, r.ops)
  {
    match Decide(n.ops[i], n.epoch, n.now / 1000, env.maxRetries, Gone(env, n, n.ops[i]))
    case Leave => n
    case Settle(op) => n.(ops := n.ops[i := op])
    case Repropose(moved) => if n.ops[i].kind.OtherOperation? then n else Reproposed(env, n, i, moved)
  }

  function RebaseFrom(env: Env, n: Node, i: nat): (r: Node)
    requires WellFormed(n) && i <= |n.ops|
    ensures WellFormed(r) && SameCore(n, r) && r.future == n.future && SameIntents(n.ops, r.ops)
    decreases |n.ops| - i
  {
    if i == |n.ops| then n else RebaseFrom(env, RebaseOne(env, n, i), i + 1)
  }

  /**
    * What handleCommitLocked drops from the buffer after the drain: the committed proposals, by reference and by data.
    */
  function WithoutCommitted(n: Node, c: CommitMsg): (r: Node)
    ensures SameCore(n, r) && r.future == n.future && r.ops == n.ops && r.outbox == n.outbox
    ensures r.groupState == n.groupState
    ensures WellFormed(n) ==> WellFormed(r)
  {
    var left := DrainedByData(DrainedByRefs(n.writer.proposals, c.committedRefs), NonEmpty(ProposalDatas(c.included)));
    n.(writer := n.writer.(proposals := left))
  }

  /** The end of every commit: settle the operations, then rebase those that stay open. */
  function Reconcile(env: Env, n: Node, c: CommitMsg): (r: Node)
    requires WellFormed(n)
    ensures WellFormed(r) && SameCore(n, r) && r.future == n.future && |r.ops| == |n.ops|
  {
    RebaseFrom(env, n.(ops := ObservedAll(n.ops, c)), 0)
  }

  function NonEmpty(datas: seq<Bytes>): seq<Bytes> {
    if datas == [] then []
    else NonEmpty(datas[..|datas| - 1]) + (if datas[|datas| - 1] == [] then [] else [datas[|datas| - 1]])
  }

  // ----- the recursion -----

  /** handleCommitLocked; the flag says whether the commit was applied. */
  function HandleCommit(env: Env, n: Node, e: Envelope): (r: (Node, bool))
    requires WellFormed(n)
    ensures WellFormed(r.0) && r.0.epoch >= n.epoch && |r.0.ops| == |n.ops|
    ensures e.epoch <= n.epoch ==> Size(r.0.future) <= Size(n.future)
    decreases Size(n.future), 2
  {
    hide Examine, Reconcile, WithoutCommitted;
    match Validate(e.epoch, n.epoch)
    case RejectStale => (n, false)
    case BufferFuture => (n.(future := Enqueued(n.future, n.epoch, e.epoch, e)), false)
    case Process =>
      match e.body
      case CommitBody(Some(c)) =>
        (match Examine(env, n, e, c)
         case Ignore => (n, false)
         case Refuse => (Marked(env, n, c), false)
         case Accept(state, treeHash) =>
           (Reconcile(env, WithoutCommitted(AdvanceAndDrain(env, n, e, c.commitData, state, treeHash), c), c), true))
      case _ => (n, false)
  }

  /** ApplyCommit and advanceEpochLocked: move to the next epoch, then handle what was waiting for it. */
  function AdvanceAndDrain(env: Env, n: Node, e: Envelope, data: Bytes, state: Bytes, treeHash: Bytes): (r: Node)
    requires WellFormed(n)
    ensures WellFormed(r) && r.epoch >= n.epoch + 1 && Size(r.future) <= Size(n.future) && |r.ops| == |n.ops|
    decreases Size(n.future), 1
  {
    AdvancedWellFormed(env, n, e, data, state, treeHash);
    Drain(env, Advanced(env, n, e, data, state, treeHash), Queue(n.future, n.epoch + 1))
  }

  /** The drain loop of advanceEpochLocked. Nothing in the queue is ahead any more, so nothing is buffered again. */
  function Drain(env: Env, n: Node, queue: seq<Envelope>): (r: Node)
    requires WellFormed(n)
    requires forall m :: m in queue ==> m.epoch <= n.epoch
    ensures WellFormed(r) && r.epoch >= n.epoch && Size(r.future) <= Size(n.future) && |r.ops| == |n.ops|
    decreases Size(n.future) + |queue|, 0
  {
    if queue == [] then n
    else
      var n1 := HandleQueued(env, n, queue[0]);
      Drain(env, n1, queue[1..])
  }

  /** The loop's switch on the message type. */
  function HandleQueued(env: Env, n: Node, e: Envelope): (r: Node)
    requires WellFormed(n)
    requires e.epoch <= n.epoch
    ensures WellFormed(r) && r.epoch >= n.epoch && Size(r.future) <= Size(n.future) && |r.ops| == |n.ops|
    decreases Size(n.future), 3
  {
    match e.body
    case ProposalBody(_) => HandleProposal(env, n, e)
    case CommitBody(_) => HandleCommit(env, n, e).0
    case ApplicationBody(_) => HandleApplication(env, n, e).0
    case OtherBody => n
  }

  // ----- issuing commits -----

  /** commitViewReadyLocked, given whether the bootstrap grace has passed. */
  predicate ViewReady(env: Env, n: Node, batch: seq<BufferedProposal>, graceOver: bool) {
    graceOver || |n.members| > 1 || env.group.provider.None? ||
    match env.group.provider.value(n.epoch, batch)
    case None => true
    case Some(authorised) =>
      forall p :: p in authorised && p != NO_PEER && p != n.local ==> env.group.peerText(p) in RemovedBy(batch)
  }

  /** buildAddDeliveriesFromBatch. */
  function Deliveries(batch: seq<BufferedProposal>, welcomeHash: Bytes): seq<AddDelivery> {
    if batch == [] then []
    else
      var p := batch[|batch| - 1];
      Deliveries(batch[..|batch| - 1], welcomeHash) +
      (if p.kind.Add?
       then [AddDelivery(p.operationId, p.target, p.requestId, p.groupType, p.categoryId, p.keyPackageHash,
                         welcomeHash)] else [])
  }

  function Refs(batch: seq<BufferedProposal>): seq<Bytes> {
    if batch == [] then [] else Refs(batch[..|batch| - 1]) + [batch[|batch| - 1].ref]
  }

  function CommitMessage(env: Env, batch: seq<BufferedProposal>, made: CreatedCommit): CommitMsg {
    CommitMsg(made.data, made.treeHash,
              Deliveries(batch, if made.welcome == [] then [] else env.group.sha256(made.welcome)),
              ToMsgs(batch), if made.refs == [] then Refs(batch) else made.refs)
  }

  /** doCommitBatchLocked: create, persist, publish, advance, reconcile. */
  function CommitBatch(env: Env, n: Node, batch: seq<BufferedProposal>): (r: Node)
    requires WellFormed(n)
    ensures WellFormed(r)
  {
    if n.groupState == [] then n
    else
      match env.mls.createCommit(n.groupState, Refs(batch))
      case None => n
      case Some(made) =>
        var c := CommitMessage(env, batch, made);
        var n1 := Publish(env, n, CommitBody(Some(c)));
        var e := n1.outbox[|n.outbox|];
        if made.state == [] || env.envelopeHash(e) in n.applied then n.(hlc := n1.hlc)
        else Reconcile(env, AdvanceAndDrain(env, n1, e, made.data, made.state, made.treeHash), c)
  }

  /** tryCommitLocked. */
  function TryCommit(env: Env, n: Node, graceOver: bool): (r: Node)
    requires WellFormed(n)
    ensures WellFormed(r)
  {
    var batch := NextBatch(n.writer.proposals, env.cap);
    if IsTokenHolder(env.group, n.writer, n.members, env.cap, n.local) && n.groupState != [] && batch != []
       && ViewReady(env, n, batch, graceOver)
    then CommitBatch(env, n, batch) else n
  }

  /** The synchronous paths of AddMember and RemoveMember: a holder commits the one new proposal at once. */
  function CommitOne(env: Env, n: Node, kind: ProposalType, data: Bytes, meta: BufferedProposal,
                     graceOver: bool): (r: Node)
    requires WellFormed(n)
    ensures WellFormed(r)
  {
    match CreateLocal(env, n, kind, data, meta)
    case None => n
    case Some(made) =>
      var n1 := WithProposal(env, made.0, made.1);
      var decider := if kind.Remove? then n else n1;
      if !IsTokenHolder(env.group, decider.writer, n.members, env.cap, n.local)
           || !ViewReady(env, n1, [made.1], graceOver)
      then Publish(env, n1, ProposalBody(Some(ToMsg(made.1))))
      else CommitBatch(env, n1, [made.1])
  }

  // ----- entry points -----

  const MAX_FUTURE_SKEW_MS := 300000

  /** validateSenderTimestamp. */
  predicate FromTheFuture(n: Node, e: Envelope) {
    e.ts.wall > n.now + MAX_FUTURE_SKEW_MS
  }

  /** handleRawMessage for proposals, commits and application messages. */
  function HandleLive(env: Env, n: Node, from: PeerId, e: Envelope): (r: Node)
    requires WellFormed(n)
    ensures WellFormed(r)
  {
    if from == n.local || e.group != env.group.id || e.body.OtherBody? || FromTheFuture(n, e) then n
    else
      match n.mode
      case CatchingUp =>
        if e.body.ProposalBody? || !env.offlineSync then n else n.(firstSeen := Logged(n, env.envelopeHash(e)))
      case FrozenForApply =>
        if e.body.ProposalBody? then n else n.(firstSeen := Logged(n, env.envelopeHash(e)))
      case Live => Dispatch(env, n, e)
  }

  function Dispatch(env: Env, n: Node, e: Envelope): (r: Node)
    requires WellFormed(n)
    ensures WellFormed(r)
  {
    match e.body
    case ProposalBody(_) => HandleProposal(env, n, e)
    case CommitBody(_) => HandleCommit(env, n, e).0
    case ApplicationBody(_) => HandleApplication(env, n, e).0
    case OtherBody => n
  }

  /** handleCommitDetailedLocked. */
  function HandleCommitDetailed(env: Env, n: Node, e: Envelope): (r: (Node, Outcome))
    requires WellFormed(n)
    ensures WellFormed(r.0)
  {
    if env.envelopeHash(e) in n.applied then (n, Done(Duplicate))
    else
      match Validate(e.epoch, n.epoch)
      case RejectStale => (n, Done(StaleEpoch))
      case BufferFuture => (n.(future := Enqueued(n.future, n.epoch, e.epoch, e)), Done(FutureEpoch))
      case Process =>
        var handled := HandleCommit(env, n, e);
        (handled.0, Done(if handled.1 then Applied
                         else if env.envelopeHash(e) in handled.0.applied then Duplicate
                         else Invalid))
  }

  /** One envelope of ReplayEnvelopesDetailed. */
  function Replay(env: Env, n: Node, e: Envelope): (r: (Node, Outcome))
    requires WellFormed(n)
    ensures WellFormed(r.0)
  {
    if e.group != env.group.id || FromTheFuture(n, e) then (n, Done(Invalid))
    else
      match e.body
      case CommitBody(_) => HandleCommitDetailed(env, n, e)
      case ApplicationBody(_) => HandleApplication(env, n, e)
      case _ => (n, Done(Invalid))
  }
}
