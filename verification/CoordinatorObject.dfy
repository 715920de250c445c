/** The coordinator as an object: its handlers update fields and sub-objects in place and agree with the value model. */
module CoordinatorObject {
  import opened Bytes
  import opened Types
  import opened Election
  import opened SingleWriter
  import opened EpochTracker
  import opened Agreement
  import opened HybridClock
  import opened Operations
  import opened Reconciliation
  import C = Coordinator
  import CursorSafety
  import Failover
  import Ledger
  import NodeRuns

  /** A state is well-formed because of its buffer, its epochs and its operations alone. */
  lemma SameShape(n: C.Node, r: C.Node)
    requires C.WellFormed(n) && r.future == n.future && r.epoch == n.epoch && r.writer.epoch == n.writer.epoch
    requires r.ops == n.ops
    ensures C.WellFormed(r)
  {
  }

  lemma EnqueuedShape(n: C.Node, e: Envelope)
    requires C.WellFormed(n)
    ensures C.WellFormed(n.(future := Enqueued(n.future, n.epoch, e.epoch, e)))
  {
  }

  /** What ApplyCommit records about the envelope. */
  function Noted(env: C.Env, n: C.Node, e: Envelope): C.Node {
    var hash := env.envelopeHash(e);
    n.(firstSeen := C.Logged(n, hash), applied := n.applied + {hash}, commits := n.commits + [e])
  }

  /** The history chain after one more commit. */
  function Linked(env: C.Env, n: C.Node, data: Bytes): C.Node {
    var commitHash := C.CommitHash(env, data);
    var previous := if n.historyHash.None? then C.InitialHistory(env) else n.historyHash.value;
    var anchored := if n.historyHash.None? then n.chain[n.epoch := previous] else n.chain;
    var history := C.NextHistory(env, previous, commitHash);
    n.(lastCommitHash := commitHash, historyHash := Some(history), chain := anchored[n.epoch + 1 := history])
  }

  /** A log entry, a link of the chain and the fields that name the new epoch. */
  function Renewed(env: C.Env, n: C.Node, e: Envelope, data: Bytes, state: Bytes, treeHash: Bytes): C.Node {
    var r := Linked(env, Noted(env, n, e), data);
    r.(groupState := state, epoch := r.epoch + 1, treeHash := treeHash)
  }

  /** An epoch change renews the node's own fields and moves the tracker and the writer on. */
  lemma AdvancedParts(env: C.Env, n: C.Node, e: Envelope, data: Bytes, state: Bytes, treeHash: Bytes)
    ensures Renewed(env, n, e, data, state, treeHash).epoch == n.epoch + 1
    ensures C.Advanced(env, n, e, data, state, treeHash) ==
            Renewed(env, n, e, data, state, treeHash).(future := Beyond(n.future, n.epoch + 1),
                                                       writer := Fresh(n.epoch + 1))
  {
  }

  lemma LoggedIgnoresClock(n: C.Node, clock: Clock, hash: Bytes)
    ensures C.Logged(n, hash) == C.Logged(n.(hlc := clock), hash)
  {
  }

  // ----- what a method carries over -----

  /** Nothing is applied twice, and a linked history chain stays linked. */
  ghost predicate LedgerKept(env: C.Env, before: C.Node, after: C.Node) {
    && (Ledger.AppliedOnce(env, before) ==> Ledger.AppliedOnce(env, after) && Ledger.NoneTwice(env, after))
    && (forall first, anchor ::
          Ledger.Chained(env, first, anchor, before) ==> Ledger.Chained(env, first, anchor, after))
  }

  lemma EventKeepsLedger(env: C.Env, n: C.Node, ev: NodeRuns.Event)
    requires C.WellFormed(n) && !ev.Crash?
    ensures LedgerKept(env, n, NodeRuns.Handle(env, n, ev))
  {
    hide NodeRuns.Handle, Ledger.AppliedOnce, Ledger.NoneTwice, Ledger.Chained;
    var r := NodeRuns.Handle(env, n, ev);
    forall first, anchor | Ledger.Chained(env, first, anchor, n)
      ensures Ledger.Chained(env, first, anchor, r)
    {
      Ledger.EventLedger(env, first, anchor, n, ev);
    }
    Ledger.EventLedger(env, 0, [], n, ev);
    if Ledger.AppliedOnce(env, r) {
      Ledger.AppliedOnceMeans(env, r);
    }
  }

  lemma LedgerKeptTrans(env: C.Env, a: C.Node, b: C.Node, c: C.Node)
    requires LedgerKept(env, a, b) && LedgerKept(env, b, c)
    ensures LedgerKept(env, a, c)
  {
    hide Ledger.AppliedOnce, Ledger.NoneTwice, Ledger.Chained;
  }

  lemma LedgerKeptSame(env: C.Env, n: C.Node)
    ensures LedgerKept(env, n, n)
  {
    hide Ledger.NoneTwice, Ledger.Chained;
    if Ledger.AppliedOnce(env, n) {
      Ledger.AppliedOnceMeans(env, n);
    }
  }

  /** The envelope is applied, or can never be applied any more. */
  ghost predicate DealtWith(env: C.Env, n: C.Node, e: Envelope) {
    env.envelopeHash(e) in n.applied || CursorSafety.Buried(env, n, e)
  }

  lemma DealtWithStays(env: C.Env, n: C.Node, r: C.Node, e: Envelope)
    requires CursorSafety.Progress(env, n, r) && DealtWith(env, n, e)
    ensures DealtWith(env, r, e)
  {
    if CursorSafety.Buried(env, n, e) {
      CursorSafety.BuriedStays(env, n, r, e);
    }
  }

  class Coordinator {
    const env: C.Env
    const local: PeerId
    const tracker: EpochTracker<Envelope>
    const writer: SingleWriter
    const hlc: HLC
    const store: OperationStore
    var members: seq<PeerId>
    var mode: C.Mode
    var epoch: nat
    var groupState: Bytes
    var treeHash: Bytes
    var lastCommitHash: Bytes
    var historyHash: Option<Bytes>
    var chain: map<nat, Bytes>
    var invalid: set<Bytes>
    var now: int
    var applied: set<Bytes>
    var commits: seq<Envelope>
    var delivered: seq<Envelope>
    var firstSeen: map<Bytes, int>
    var outbox: seq<Envelope>

    /** The value this object stands for. */
    function State(): C.Node
      reads this, tracker, writer, hlc, store
    {
      C.Node(local, members, mode, epoch, groupState, treeHash, lastCommitHash, historyHash, chain, tracker.future,
             writer.State(), invalid, hlc.State(), now, applied, commits, delivered, firstSeen, store.ops, outbox)
    }

    ghost predicate Valid()
      reads this, tracker, writer, hlc, store
    {
      && writer.Valid() && writer.group == env.group && writer.local == local && writer.cap == env.cap
      && tracker.Valid() && tracker.epoch == epoch && hlc.id == local && store.Valid()
      && C.WellFormed(State())
    }

    constructor (env: C.Env, local: PeerId, epoch: nat, groupState: Bytes, treeHash: Bytes)
      ensures Valid() && this.env == env && this.local == local && fresh(tracker) && fresh(writer) && fresh(hlc)
      ensures fresh(store)
      ensures State() == C.Node(local, [local], C.Live, epoch, groupState, treeHash, [], Some(C.InitialHistory(env)),
                                map[epoch := C.InitialHistory(env)], map[], Fresh(epoch), {}, ZERO, 0, {}, [], [],
                                map[], [], [])
      ensures Ledger.Kept(env, epoch, C.InitialHistory(env), State())
    {
      this.env, this.local := env, local;
      tracker := new EpochTracker<Envelope>(epoch, treeHash);
      writer := new SingleWriter(env.group, local, env.cap, epoch);
      hlc := new HLC(local);
      store := new OperationStore();
      members, mode, this.epoch, this.groupState, this.treeHash := [local], C.Live, epoch, groupState, treeHash;
      var r0 := C.InitialHistory(env);
      lastCommitHash, historyHash, chain, invalid, now := [], Some(r0), map[epoch := r0], {}, 0;
      applied, commits, delivered, firstSeen, outbox := {}, [], [], map[], [];
    }

    // ----- proposals -----

    /** createAndStoreLocalProposalLocked. */
    method CreateLocal(kind: ProposalType, data: Bytes, meta: BufferedProposal) returns (made: Option<BufferedProposal>)
      requires Valid()
      modifies this`groupState
      ensures Valid()
      ensures match C.CreateLocal(env, old(State()), kind, data, meta)
              case None => made.None? && State() == old(State())
              case Some(r) => made == Some(r.1) && State() == r.0
    {
      match env.mls.createProposal(groupState, kind, data)
      case None => made := None;
      case Some(created) =>
        if created.state == [] {
          made := None;
        } else {
          groupState := created.state;
          made := Some(meta.(kind := kind, data := created.data, ref := created.ref));
        }
    }

    method Buffer(p: BufferedProposal)
      requires Valid()
      modifies writer
      ensures Valid() && State() == C.WithProposal(env, old(State()), p)
    {
      writer.BufferProposal(p);
    }

    /** broadcastLocked. */
    method Broadcast(body: Body) returns (e: Envelope)
      requires Valid()
      modifies this`outbox, hlc
      ensures Valid() && State() == C.Publish(env, old(State()), body) && outbox == old(outbox) + [e]
    {
      var ts := hlc.Now(now, now);
      e := Envelope(env.group.id, epoch, env.group.peerText(local), ts, body);
      outbox := outbox + [e];
    }

    method CreateAndBuffer(kind: ProposalType, data: Bytes, meta: BufferedProposal)
      requires Valid()
      modifies this`groupState, writer
      ensures Valid() && State() == C.CreateAndBuffer(env, old(State()), kind, data, meta)
    {
      var made := CreateLocal(kind, data, meta);
      if made.Some? {
        Buffer(made.value);
      }
    }

    method Propose(kind: ProposalType, data: Bytes, meta: BufferedProposal)
      requires Valid()
      modifies this`groupState, this`outbox, writer, hlc
      ensures Valid() && State() == C.Propose(env, old(State()), kind, data, meta)
    {
      var made := CreateLocal(kind, data, meta);
      if made.Some? {
        var e := Broadcast(ProposalBody(Some(ToMsg(made.value))));
        Buffer(made.value);
      }
    }

    method HandleJoin(e: Envelope, m: ProposalMsg)
      requires Valid()
      modifies this`groupState, writer
      ensures Valid() && State() == C.HandleJoin(env, old(State()), e, m)
    {
      hide C.CreateAndBuffer;
      if e.epoch + env.maxPastEpochs < epoch || groupState == [] {
        return;
      }
      var identity := if m.targetIdentity == [] then env.textBytes(m.target) else m.targetIdentity;
      if env.mls.hasMember(groupState, identity) == Some(true) {
        CreateAndBuffer(Remove, identity, BufferedProposal(Remove, [], [], "", m.target, "", "", "", []));
      }
      CreateAndBuffer(Add, m.data, FromMsg(m));
    }

    method AdoptProposal(m: ProposalMsg)
      requires Valid()
      modifies this`groupState, writer
      ensures Valid() && State() == C.AdoptProposal(env, old(State()), m)
    {
      match env.mls.processProposal(groupState, m.data)
      case None =>
      case Some((ref, state)) =>
        if (m.ref != [] && m.ref != ref) || state == [] {
          return;
        }
        groupState := state;
        Buffer(FromMsg(m).(ref := ref));
    }

    method HandleProposal(e: Envelope)
      requires Valid()
      modifies this`groupState, tracker, writer
      ensures Valid() && State() == C.HandleProposal(env, old(State()), e)
    {
      hide C.HandleJoin, C.AdoptProposal;
      if !e.body.ProposalBody? || e.body.proposal.None? {
        return;
      }
      var m := e.body.proposal.value;
      if m.kind.Join? {
        HandleJoin(e, m);
        return;
      }
      if groupState == [] {
        return;
      }
      match Validate(e.epoch, tracker.epoch)
      case RejectStale =>
      case BufferFuture => tracker.BufferFuture(e.epoch, e);
      case Process => AdoptProposal(m);
    }

    // ----- application messages -----

    /** handleApplicationDetailedLocked. */
    method HandleApplication(e: Envelope) returns (outcome: C.Outcome)
      requires Valid()
      modifies this`groupState, this`applied, this`delivered, this`firstSeen, tracker, hlc
      ensures Valid() && (State(), outcome) == C.HandleApplication(env, old(State()), e)
    {
      hide C.WellFormed, C.ApplicationAction, C.Logged, Merged;
      if env.envelopeHash(e) in applied {
        return C.Done(C.Duplicate);
      }
      match C.ApplicationAction(env, State(), e)
      case RejectStale => outcome := C.Done(C.StaleEpoch);
      case BufferFuture =>
        EnqueuedShape(State(), e);
        tracker.BufferFuture(e.epoch, e);
        outcome := C.Done(C.FutureEpoch);
      case Process =>
        if !e.body.ApplicationBody? || e.body.ciphertext.None? {
          return C.Done(C.Invalid);
        }
        outcome := Deliver(e, e.body.ciphertext.value);
    }

    /** Merge the clock, decrypt, and store the message with its marker. */
    method Deliver(e: Envelope, ciphertext: Bytes) returns (outcome: C.Outcome)
      requires Valid() && env.envelopeHash(e) !in applied && C.ApplicationAction(env, State(), e).Process?
      requires e.body == ApplicationBody(Some(ciphertext))
      modifies this`groupState, this`applied, this`delivered, this`firstSeen, hlc
      ensures Valid() && (State(), outcome) == C.HandleApplication(env, old(State()), e)
    {
      hide C.WellFormed, C.ApplicationAction, C.Logged, Merged;
      ghost var before := State();
      var ts := hlc.Update(e.ts, now, now);
      SameShape(before, State());
      if ts.None? {
        return C.Done(C.Invalid);
      }
      match env.mls.decrypt(groupState, ciphertext)
      case None => outcome := C.Done(C.DecryptFailed);
      case Some((_, state)) =>
        if state == [] {
          return C.Done(C.PersistFailed);
        }
        var hash := env.envelopeHash(e);
        LoggedIgnoresClock(before, State().hlc, hash);
        LogArrival(hash);
        Take(e, hash, state);
        outcome := C.Done(C.Applied);
    }

    /** Note when an envelope was first seen. */
    method LogArrival(hash: Bytes)
      requires Valid()
      modifies this`firstSeen
      ensures Valid() && State() == old(State()).(firstSeen := C.Logged(old(State()), hash))
    {
      hide C.WellFormed, C.Logged;
      ghost var before := State();
      firstSeen := C.Logged(State(), hash);
      SameShape(before, State());
    }

    /** Store an application message with its marker and the ratchet state after it. */
    method Take(e: Envelope, hash: Bytes, state: Bytes)
      requires Valid()
      modifies this`groupState, this`applied, this`delivered
      ensures Valid()
      ensures State() ==
                old(State()).(groupState := state, applied := old(applied) + {hash}, delivered := old(delivered) + [e])
    {
      hide C.WellFormed;
      ghost var before := State();
      groupState, applied, delivered := state, applied + {hash}, delivered + [e];
      SameShape(before, State());
    }

    // ----- operations -----

    /** reconcileAndRebaseOperationsLocked: one pass over the operations, re-proposing those that went stale. */
    method Rebase()
      requires Valid()
      modifies this`groupState, this`outbox, writer, hlc, store
      ensures Valid() && State() == C.RebaseFrom(env, old(State()), 0)
    {
      hide C.RebaseOne;
      for i := 0 to |store.ops|
        invariant Valid() && |store.ops| == |old(store.ops)|
        invariant C.RebaseFrom(env, State(), i) == C.RebaseFrom(env, old(State()), 0)
      {
        RebaseOne(i);
      }
    }

    method RebaseOne(i: nat)
      requires Valid() && i < |store.ops|
      modifies this`groupState, this`outbox, writer, hlc, store
      ensures Valid() && State() == C.RebaseOne(env, old(State()), i)
    {
      hide C.Reproposed;
      var op := store.ops[i];
      match Decide(op, epoch, now / 1000, env.maxRetries, C.Gone(env, State(), op))
      case Leave =>
      case Settle(settled) => store.ops := store.ops[i := settled];
      case Repropose(moved) =>
        if !op.kind.OtherOperation? {
          Repropose(i, moved);
        }
    }

    method Repropose(i: nat, moved: Operation)
      requires Valid() && i < |store.ops| && store.ops[i].target.Some? && SameIntent(store.ops[i], moved)
      modifies this`groupState, this`outbox, writer, hlc, store
      ensures Valid() && State() == C.Reproposed(env, old(State()), i, moved)
    {
      hide C.Publish, C.WithProposal, C.CreateLocal, SavedAfter;
      var op := store.ops[i];
      var kind := if op.kind.AddMember? then Add else Remove;
      var meta := BufferedProposal(kind, [], [], op.id, op.target.value, "", "", "",
                                   if op.kind.AddMember? then op.operationHash else []);
      var made := CreateLocal(kind, op.payload, meta);
      if made.Some? {
        var e := Broadcast(ProposalBody(Some(ToMsg(made.value))));
        Buffer(made.value);
        store.ops := store.ops[i := SavedAfter(op, moved, Some(env.group.sha256(made.value.data)))];
      } else {
        store.ops := store.ops[i := SavedAfter(op, moved, None)];
      }
    }

    method Reconcile(c: CommitMsg)
      requires Valid()
      modifies this`groupState, this`outbox, writer, hlc, store
      ensures Valid() && State() == C.Reconcile(env, old(State()), c)
    {
      hide C.RebaseFrom, AfterCommit;
      store.ReconcileAfterCommit(c);
      assert store.ops == C.ObservedAll(old(store.ops), c);
      Rebase();
    }

    // ----- commits -----

    /** markInvalidCommitLocked. */
    method MarkInvalid(c: CommitMsg)
      requires Valid()
      modifies this`invalid
      ensures Valid() && State() == C.Marked(env, old(State()), c)
    {
      var hash := C.CommitHash(env, c.commitData);
      if hash != [] {
        invalid := invalid + {hash};
      }
    }

    /** handleCommitLocked. */
    method HandleCommit(e: Envelope) returns (done: bool)
      requires Valid()
      modifies this, tracker, writer, hlc, store
      ensures Valid() && (State(), done) == C.HandleCommit(env, old(State()), e)
      decreases Size(tracker.future), 2
    {
      hide C.Examine, C.AdvanceAndDrain, C.WithoutCommitted, C.Reconcile, C.Marked;
      match Validate(e.epoch, tracker.epoch)
      case RejectStale => return false;
      case BufferFuture =>
        tracker.BufferFuture(e.epoch, e);
        return false;
      case Process =>
        if !e.body.CommitBody? || e.body.commit.None? {
          return false;
        }
        var c := e.body.commit.value;
        var verdict := Examine(e, c);
        match verdict
        case Ignore => return false;
        case Refuse =>
          MarkInvalid(c);
          return false;
        case Accept(state, newTreeHash) =>
          AdvanceEpoch(e, c.commitData, state, newTreeHash);
          DropCommitted(c);
          Reconcile(c);
          return true;
    }

    method DropCommitted(c: CommitMsg)
      requires Valid()
      modifies writer
      ensures Valid() && State() == C.WithoutCommitted(old(State()), c)
    {
      hide DrainedByRefs, DrainedByData, TakenByRefs, TakenByData, C.NonEmpty, C.ProposalDatas, C.WellFormed;
      ghost var before := State();
      var drained := writer.DrainBatchByRefs(c.committedRefs);
      var rest := writer.DrainBatchByData(C.NonEmpty(C.ProposalDatas(c.included)));
      SameShape(before, State());
    }

    /** ApplyCommit and advanceEpochLocked. */
    method AdvanceEpoch(e: Envelope, data: Bytes, newState: Bytes, newTreeHash: Bytes)
      requires Valid()
      modifies this, tracker, writer, hlc, store
      ensures Valid() && State() == C.AdvanceAndDrain(env, old(State()), e, data, newState, newTreeHash)
      decreases Size(tracker.future), 1
    {
      hide C.Drain, Size, Queue;
      ghost var before := State();
      C.AdvancedWellFormed(env, before, e, data, newState, newTreeHash);
      var buffered := MoveOn(e, data, newState, newTreeHash);
      DrainQueue(buffered);
    }

    /** The field updates of an epoch change; what was waiting for the new epoch is handed out. */
    method MoveOn(e: Envelope, data: Bytes, newState: Bytes, newTreeHash: Bytes) returns (buffered: seq<Envelope>)
      requires Valid()
      modifies this, tracker, writer
      ensures Valid() && State() == C.Advanced(env, old(State()), e, data, newState, newTreeHash)
      ensures buffered == Queue(old(tracker.future), old(epoch) + 1)
    {
      hide C.WellFormed, C.Advanced, Queue, Beyond, Renewed;
      C.AdvancedWellFormed(env, State(), e, data, newState, newTreeHash);
      AdvancedParts(env, State(), e, data, newState, newTreeHash);
      MoveFields(e, data, newState, newTreeHash);
      buffered := tracker.Advance(epoch, newTreeHash);
      writer.AdvanceEpoch(epoch);
    }

    /** The part of the epoch change that touches only the coordinator's own fields. */
    method MoveFields(e: Envelope, data: Bytes, newState: Bytes, newTreeHash: Bytes)
      modifies this
      ensures State() == Renewed(env, old(State()), e, data, newState, newTreeHash)
    {
      hide Noted, Linked;
      LogCommit(e);
      ExtendHistory(data);
      groupState, epoch, treeHash := newState, epoch + 1, newTreeHash;
    }

    /** ApplyCommit's marker and log entry. */
    method LogCommit(e: Envelope)
      modifies this`firstSeen, this`applied, this`commits
      ensures State() == Noted(env, old(State()), e)
    {
      hide C.Logged;
      var hash := env.envelopeHash(e);
      firstSeen := C.Logged(State(), hash);
      applied, commits := applied + {hash}, commits + [e];
    }

    /** One more link of the hash chain, rooted at the group's initial hash if there is none yet. */
    method ExtendHistory(data: Bytes)
      modifies this`lastCommitHash, this`historyHash, this`chain
      ensures State() == Linked(env, old(State()), data)
    {
      hide C.CommitHash, C.InitialHistory, C.NextHistory;
      lastCommitHash := C.CommitHash(env, data);
      if historyHash.None? {
        historyHash := Some(C.InitialHistory(env));
        chain := chain[epoch := historyHash.value];
      }
      historyHash := Some(C.NextHistory(env, historyHash.value, lastCommitHash));
      chain := chain[epoch + 1 := historyHash.value];
    }

    /** The loop over the messages that were waiting for the new epoch. */
    method DrainQueue(queue: seq<Envelope>)
      requires Valid() && forall m :: m in queue ==> m.epoch <= epoch
      modifies this, tracker, writer, hlc, store
      ensures Valid() && State() == C.Drain(env, old(State()), queue)
      decreases Size(tracker.future) + |queue|, 0
    {
      hide C.HandleQueued;
      for i := 0 to |queue|
        invariant Valid() && old(epoch) <= epoch && Size(tracker.future) <= Size(old(tracker.future))
        invariant C.Drain(env, State(), queue[i..]) == C.Drain(env, old(State()), queue)
      {
        assert queue[i] in queue;
        HandleQueued(queue[i]);
        assert queue[i..][1..] == queue[i + 1..];
      }
    }

    method HandleQueued(e: Envelope)
      requires Valid() && e.epoch <= epoch
      modifies this, tracker, writer, hlc, store
      ensures Valid() && State() == C.HandleQueued(env, old(State()), e)
      decreases Size(tracker.future), 3
    {
      hide C.HandleProposal, C.HandleCommit, C.HandleApplication;
      match e.body
      case ProposalBody(_) => HandleProposal(e);
      case CommitBody(_) => var done := HandleCommit(e);
      case ApplicationBody(_) => var outcome := HandleApplication(e);
      case OtherBody =>
    }

    /** The checks of handleCommitLocked. */
    method Examine(e: Envelope, c: CommitMsg) returns (verdict: C.Verdict)
      requires Valid()
      ensures verdict == C.Examine(env, State(), e, c)
    {
      if env.envelopeHash(e) in applied {
        return C.Ignore;
      }
      var raw := C.ProposalDatas(c.included);
      match env.mls.stageCommit(groupState, c.commitData, raw)
      case None => return C.Refuse;
      case Some(refs) =>
        if c.committedRefs != [] {
          var equal := ProposalRefSetsEqual(refs, c.committedRefs);
          if !equal {
            return C.Refuse;
          }
        }
        var sender := env.decodePeer(e.from);
        if c.included != [] && sender != NO_PEER
             && !PassesMetadata(env.group, writer.State(), members, c.included, sender) {
          return C.Refuse;
        }
        match env.mls.processCommit(groupState, c.commitData, raw)
        case None => return C.Refuse;
        case Some((state, newTreeHash)) => return if state == [] then C.Ignore else C.Accept(state, newTreeHash);
    }

    // ----- issuing commits -----

    method IsHolder() returns (holds: bool)
      requires Valid()
      ensures holds == IsTokenHolder(env.group, writer.State(), members, env.cap, local)
    {
      var r := writer.CurrentTokenHolder(members);
      holds := r == Elected(local);
    }

    /** doCommitBatchLocked: create, persist, publish, advance, reconcile. */
    method CommitBatch(batch: seq<BufferedProposal>)
      requires Valid()
      modifies this, tracker, writer, hlc, store
      ensures Valid() && State() == C.CommitBatch(env, old(State()), batch)
    {
      hide C.AdvanceAndDrain, C.Reconcile, C.CommitMessage;
      if groupState == [] {
        return;
      }
      match env.mls.createCommit(groupState, C.Refs(batch))
      case None =>
      case Some(made) =>
        var c := C.CommitMessage(env, batch, made);
        var ts := hlc.Now(now, now);
        var e := Envelope(env.group.id, epoch, env.group.peerText(local), ts, CommitBody(Some(c)));
        if made.state == [] || env.envelopeHash(e) in applied {
          return;
        }
        outbox := outbox + [e];
        assert State() == C.Publish(env, old(State()), CommitBody(Some(c)));
        AdvanceEpoch(e, made.data, made.state, made.treeHash);
        Reconcile(c);
    }

    /** tryCommitLocked; the flag says whether the bootstrap grace has passed. */
    method TryCommit(graceOver: bool)
      requires Valid()
      modifies this, tracker, writer, hlc, store
      ensures Valid() && State() == C.TryCommit(env, old(State()), graceOver)
      ensures LedgerKept(env, old(State()), State())
    {
      hide C.CommitBatch, C.ViewReady, IsTokenHolder, LedgerKept;
      TimerKeeps(env, State(), graceOver);
      var holds := IsHolder();
      if !holds || groupState == [] {
        return;
      }
      var batch := writer.SnapshotNextBatch();
      if batch == [] || !C.ViewReady(env, State(), batch, graceOver) {
        return;
      }
      CommitBatch(batch);
    }

    /** The synchronous paths of AddMember and RemoveMember; a removal decides holdership before it buffers. */
    method CommitOne(kind: ProposalType, data: Bytes, meta: BufferedProposal, graceOver: bool)
      requires Valid()
      modifies this, tracker, writer, hlc, store
      ensures Valid() && State() == C.CommitOne(env, old(State()), kind, data, meta, graceOver)
      ensures LedgerKept(env, old(State()), State())
    {
      hide C.CommitBatch, C.ViewReady, IsTokenHolder, C.Publish, NextBatch, LedgerKept;
      AtOnceKeeps(env, State(), kind, data, meta, graceOver);
      var heldBefore := IsHolder();
      var made := CreateLocal(kind, data, meta);
      if made.None? {
        return;
      }
      Buffer(made.value);
      var heldAfter := IsHolder();
      var holds := if kind.Remove? then heldBefore else heldAfter;
      if !holds || !C.ViewReady(env, State(), [made.value], graceOver) {
        var e := Broadcast(ProposalBody(Some(ToMsg(made.value))));
        return;
      }
      CommitBatch([made.value]);
    }

    // ----- entry points -----

    /** handleRawMessage for proposals, commits and application messages. */
    method HandleRaw(from: PeerId, e: Envelope)
      requires Valid()
      modifies this, tracker, writer, hlc, store
      ensures Valid() && State() == C.HandleLive(env, old(State()), from, e)
      ensures LedgerKept(env, old(State()), State())
    {
      hide C.HandleProposal, C.HandleCommit, C.HandleApplication, C.Logged, LedgerKept;
      LiveKeeps(env, State(), from, e);
      if from == local || e.group != env.group.id || e.body.OtherBody? || C.FromTheFuture(State(), e) {
        return;
      }
      match mode
      case CatchingUp =>
        if !e.body.ProposalBody? && env.offlineSync {
          firstSeen := C.Logged(State(), env.envelopeHash(e));
        }
      case FrozenForApply =>
        if !e.body.ProposalBody? {
          firstSeen := C.Logged(State(), env.envelopeHash(e));
        }
      case Live =>
        match e.body
        case ProposalBody(_) => HandleProposal(e);
        case CommitBody(_) => var done := HandleCommit(e);
        case ApplicationBody(_) => var outcome := HandleApplication(e);
        case OtherBody =>
    }

    /** handleCommitDetailedLocked. */
    method HandleCommitDetailed(e: Envelope) returns (outcome: C.Outcome)
      requires Valid()
      modifies this, tracker, writer, hlc, store
      ensures Valid() && (State(), outcome) == C.HandleCommitDetailed(env, old(State()), e)
    {
      hide C.HandleCommit;
      var hash := env.envelopeHash(e);
      if hash in applied {
        return C.Done(C.Duplicate);
      }
      match Validate(e.epoch, tracker.epoch)
      case RejectStale => outcome := C.Done(C.StaleEpoch);
      case BufferFuture =>
        tracker.BufferFuture(e.epoch, e);
        outcome := C.Done(C.FutureEpoch);
      case Process =>
        var done := HandleCommit(e);
        outcome := C.Done(if done then C.Applied else if hash in applied then C.Duplicate else C.Invalid);
    }

    method ReplayOne(e: Envelope) returns (outcome: C.Outcome)
      requires Valid()
      modifies this, tracker, writer, hlc, store
      ensures Valid() && (State(), outcome) == C.Replay(env, old(State()), e)
      ensures LedgerKept(env, old(State()), State()) && CursorSafety.Progress(env, old(State()), State())
      ensures outcome.cursorSafe ==> DealtWith(env, State(), e)
    {
      hide C.HandleCommitDetailed, C.HandleApplication, LedgerKept, CursorSafety.Progress, DealtWith;
      ReplayKeeps(env, State(), e);
      if e.group != env.group.id || C.FromTheFuture(State(), e) {
        return C.Done(C.Invalid);
      }
      match e.body
      case CommitBody(_) => outcome := HandleCommitDetailed(e);
      case ApplicationBody(_) => outcome := HandleApplication(e);
      case _ => outcome := C.Done(C.Invalid);
    }

    /** ReplayEnvelopesDetailed: the run that re-synchronises the envelopes in order, with one verdict each. */
    method ReplayEnvelopes(es: seq<Envelope>) returns (outcomes: seq<C.Outcome>)
      requires Valid()
      modifies this, tracker, writer, hlc, store
      ensures Valid() && State() == NodeRuns.Run(env, old(State()), Resyncs(es)) && |outcomes| == |es|
      ensures forall i :: 0 <= i < |es| ==>
                outcomes[i] == C.Replay(env, NodeRuns.Run(env, old(State()), Resyncs(es[..i])), es[i]).1
      ensures LedgerKept(env, old(State()), State())
      ensures forall i :: 0 <= i < |es| && outcomes[i].cursorSafe ==> DealtWith(env, State(), es[i])
    {
      hide C.Replay, NodeRuns.Run, Resyncs, LedgerKept, CursorSafety.Progress, DealtWith;
      LedgerKeptSame(env, State());
      assert NodeRuns.Run(env, State(), Resyncs(es[..0])) == State() by { NoResyncs(env, State(), es[..0]); }
      outcomes := [];
      for i := 0 to |es|
        invariant Valid() && |outcomes| == i && State() == NodeRuns.Run(env, old(State()), Resyncs(es[..i]))
        invariant forall j :: 0 <= j < i ==>
                    outcomes[j] == C.Replay(env, NodeRuns.Run(env, old(State()), Resyncs(es[..j])), es[j]).1
        invariant LedgerKept(env, old(State()), State())
        invariant forall j :: 0 <= j < i && outcomes[j].cursorSafe ==> DealtWith(env, State(), es[j])
      {
        ResyncNext(env, old(State()), es, i);
        ghost var here := State();
        var outcome := ReplayOne(es[i]);
        LedgerKeptTrans(env, old(State()), here, State());
        forall j | 0 <= j < i && outcomes[j].cursorSafe
          ensures DealtWith(env, State(), es[j])
        {
          DealtWithStays(env, here, State(), es[j]);
        }
        outcomes := outcomes + [outcome];
      }
      assert es[..|es|] == es;
    }

    /** sendMessage: the own message is marked applied before it is published. */
    method SendMessage(plaintext: Bytes)
      requires Valid()
      modifies this`groupState, this`applied, this`delivered, this`firstSeen, this`outbox, hlc
      ensures Valid() && State() == C.Send(env, old(State()), plaintext)
      ensures LedgerKept(env, old(State()), State())
    {
      hide C.WellFormed, C.Logged, LedgerKept;
      ghost var before := State();
      SendKeeps(env, before, plaintext);
      var ts := hlc.Now(now, now);
      SameShape(before, State());
      match env.mls.encrypt(groupState, plaintext)
      case None =>
      case Some((ciphertext, state)) =>
        var e := Envelope(env.group.id, epoch, env.group.peerText(local), ts, ApplicationBody(Some(ciphertext)));
        var hash := env.envelopeHash(e);
        if state == [] || hash in applied {
          return;
        }
        StoreSent(e, state);
        LoggedIgnoresClock(before, State().hlc, hash);
    }

    /** ApplyApplication for an own message, and its publication. */
    method StoreSent(e: Envelope, state: Bytes)
      requires Valid()
      modifies this`groupState, this`applied, this`delivered, this`firstSeen, this`outbox
      ensures Valid()
      ensures State() == old(State()).(groupState := state, applied := old(applied) + {env.envelopeHash(e)},
                                       delivered := old(delivered) + [e], outbox := old(outbox) + [e],
                                       firstSeen := C.Logged(old(State()), env.envelopeHash(e)))
    {
      hide C.WellFormed, C.Logged;
      var hash := env.envelopeHash(e);
      LogArrival(hash);
      Take(e, hash, state);
      ghost var before := State();
      outbox := outbox + [e];
      SameShape(before, State());
    }

    /**
      * AddMember and RemoveMember up to their proposal: the operation is stored unless an existing one answers for it.
      */
    method Request(op: Operation) returns (stored: bool)
      requires Valid() && HasTarget(op)
      modifies store
      ensures Valid() && State() == old(State()).(ops := Submitted(old(store.ops), op))
      ensures (stored <==> !Refused(old(store.ops), op))
      ensures KeysOnce(old(store.ops)) ==> KeysOnce(store.ops)
    {
      hide Submitted, Refused, KeysOnce;
      stored := store.Submit(op);
    }

    /** The failover timer fires while this node waits for the holder. */
    method HolderTimedOut()
      requires Valid()
      modifies writer
      ensures Valid()
      ensures State() ==
                old(State()).(writer := Failover.Timeout(env.group, old(writer.State()), members, env.cap, local))
      ensures local !in old(writer.suspended) ==> local !in writer.suspended
      ensures LedgerKept(env, old(State()), State())
    {
      hide Failover.Timeout, LedgerKept;
      NeverSelf(env, State());
      TimeoutKeeps(env, State());
      Failover.FailoverTimeout(writer, members);
    }
  }

  lemma LiveKeeps(env: C.Env, n: C.Node, from: PeerId, e: Envelope)
    requires C.WellFormed(n)
    ensures LedgerKept(env, n, C.HandleLive(env, n, from, e))
  {
    hide LedgerKept, C.HandleLive;
    EventKeepsLedger(env, n, NodeRuns.Deliver(from, e));
  }

  lemma TimerKeeps(env: C.Env, n: C.Node, graceOver: bool)
    requires C.WellFormed(n)
    ensures LedgerKept(env, n, C.TryCommit(env, n, graceOver))
  {
    hide LedgerKept, C.TryCommit;
    EventKeepsLedger(env, n, NodeRuns.CommitTimer(graceOver));
  }

  lemma AtOnceKeeps(env: C.Env, n: C.Node, kind: ProposalType, data: Bytes, meta: BufferedProposal, graceOver: bool)
    requires C.WellFormed(n)
    ensures LedgerKept(env, n, C.CommitOne(env, n, kind, data, meta, graceOver))
  {
    hide LedgerKept, C.CommitOne;
    EventKeepsLedger(env, n, NodeRuns.CommitAtOnce(kind, data, meta, graceOver));
  }

  lemma TimeoutKeeps(env: C.Env, n: C.Node)
    requires C.WellFormed(n)
    ensures LedgerKept(env, n, n.(writer := Failover.Timeout(env.group, n.writer, n.members, env.cap, n.local)))
  {
    hide LedgerKept, Failover.Timeout;
    EventKeepsLedger(env, n, NodeRuns.HolderTimeout);
  }

  lemma SendKeeps(env: C.Env, n: C.Node, plaintext: Bytes)
    requires C.WellFormed(n)
    ensures LedgerKept(env, n, C.Send(env, n, plaintext))
  {
    hide LedgerKept, C.Send;
    EventKeepsLedger(env, n, NodeRuns.SendMessage(plaintext));
  }

  /** One replayed envelope, as an event. */
  lemma ReplayKeeps(env: C.Env, n: C.Node, e: Envelope)
    requires C.WellFormed(n)
    ensures var r := C.Replay(env, n, e);
            && LedgerKept(env, n, r.0) && CursorSafety.Progress(env, n, r.0)
            && (r.1.cursorSafe ==> DealtWith(env, r.0, e))
  {
    hide C.Replay, LedgerKept, CursorSafety.Progress, CursorSafety.Buried;
    EventKeepsLedger(env, n, NodeRuns.Resync(e));
    CursorSafety.EventProgress(env, n, NodeRuns.Resync(e));
    if C.Replay(env, n, e).1.cursorSafe {
      CursorSafety.CursorSafeMeans(env, n, e);
    }
  }

  /** A timeout never suspends the local node. */
  lemma NeverSelf(env: C.Env, n: C.Node)
    ensures n.local !in n.writer.suspended ==>
              n.local !in Failover.Timeout(env.group, n.writer, n.members, env.cap, n.local).suspended
  {
  }

  lemma NoResyncs(env: C.Env, n: C.Node, es: seq<Envelope>)
    requires C.WellFormed(n) && es == []
    ensures NodeRuns.Run(env, n, Resyncs(es)) == n
  {
  }

  /** One more envelope is one more event of the run. */
  lemma ResyncNext(env: C.Env, n: C.Node, es: seq<Envelope>, i: nat)
    requires C.WellFormed(n) && i < |es|
    ensures NodeRuns.Run(env, n, Resyncs(es[..i + 1])) == C.Replay(env, NodeRuns.Run(env, n, Resyncs(es[..i])), es[i]).0
  {
    hide C.Replay;
    var events := Resyncs(es[..i + 1]);
    assert events[..|events| - 1] == Resyncs(es[..i]);
    assert events[|events| - 1] == NodeRuns.Resync(es[i]);
  }

  function Resyncs(es: seq<Envelope>): (r: seq<NodeRuns.Event>)
    ensures |r| == |es|
  {
    seq(|es|, i requires 0 <= i < |es| => NodeRuns.Resync(es[i]))
  }
}
