/** Everything that can happen to one coordinator between heals, crashes included, and the runs built from it. */
module NodeRuns {
  import opened Bytes
  import opened Types
  import opened SingleWriter
  import opened HybridClock
  import opened Operations
  import opened Coordinator
  import Failover

  datatype Event =
    | Deliver(from: PeerId, envelope: Envelope)
    | Resync(envelope: Envelope)
    | SendMessage(plaintext: Bytes)
    | MakeProposal(kind: ProposalType, data: Bytes, meta: BufferedProposal)
    | CommitTimer(graceOver: bool)
    | CommitAtOnce(kind: ProposalType, data: Bytes, meta: BufferedProposal, graceOver: bool)
    | HolderTimeout
    | ViewChange(members: seq<PeerId>)
    | Request(op: Operation)
    | SetClock(now: int)
    | SetMode(mode: Mode)
    | Restart
    /**
      * The process dies while handling `during`, after ApplyCommit;
      * `persisted` says whether the history chain was stored too.
      */
    | Crash(during: Event, persisted: bool)

  /**
    * Start: memory is rebuilt from storage; a chain without an entry
    * for the stored epoch is rooted again at the initial hash.
    */
  function Restarted(env: Env, n: Node): (r: Node)
    ensures WellFormed(n) ==> WellFormed(r)
  {
    var chain := if n.epoch in n.chain then n.chain else n.chain[n.epoch := InitialHistory(env)];
    n.(future := map[], writer := Fresh(n.epoch), invalid := {}, hlc := ZERO, mode := Live,
       chain := chain, historyHash := Some(chain[n.epoch]))
  }

  // ----- the first commit an event applies -----

  /** A commit about to be applied to `at`: received, or issued and already published. */
  datatype Applying = Applying(at: Node, envelope: Envelope, commit: CommitMsg, state: Bytes, treeHash: Bytes,
                               received: bool)

  /** handleCommitLocked reaches ApplyCommit. */
  function Receives(env: Env, n: Node, e: Envelope): Option<Applying> {
    if e.epoch != n.epoch || !e.body.CommitBody? || e.body.commit.None? then None
    else
      var verdict := Examine(env, n, e, e.body.commit.value);
      if verdict.Accept? then Some(Applying(n, e, e.body.commit.value, verdict.state, verdict.treeHash, true)) else None
  }

  /**
    * doCommitBatchLocked reaches ApplyCommit. Publication counts as
    * done: to its peers, a commit that a crash kept back is a lost one.
    */
  function Prepares(env: Env, n: Node, batch: seq<BufferedProposal>): Option<Applying> {
    if n.groupState == [] then None
    else
      match env.mls.createCommit(n.groupState, Refs(batch))
      case None => None
      case Some(made) =>
        var c := CommitMessage(env, batch, made);
        var n1 := Publish(env, n, CommitBody(Some(c)));
        var e := n1.outbox[|n.outbox|];
        if made.state == [] || env.envelopeHash(e) in n.applied then None
        else Some(Applying(n1, e, c, made.state, made.treeHash, false))
  }

  /** The first commit that an event applies, if any. */
  function FirstCommit(env: Env, n: Node, ev: Event): Option<Applying> {
    match ev
    case Deliver(from, e) =>
      if from == n.local || e.group != env.group.id || FromTheFuture(n, e) || !n.mode.Live? then None
         else Receives(env, n, e)
    case Resync(e) => if e.group != env.group.id || FromTheFuture(n, e) then None else Receives(env, n, e)
    case CommitTimer(graceOver) =>
      var batch := NextBatch(n.writer.proposals, env.cap);
      if IsTokenHolder(env.group, n.writer, n.members, env.cap, n.local) && n.groupState != [] && batch != []
         && ViewReady(env, n, batch, graceOver)
      then Prepares(env, n, batch) else None
    case CommitAtOnce(kind, data, meta, graceOver) =>
      (match CreateLocal(env, n, kind, data, meta)
       case None => None
       case Some(made) =>
         var n1 := WithProposal(env, made.0, made.1);
         var decider := if kind.Remove? then n else n1;
         if !IsTokenHolder(env.group, decider.writer, n.members, env.cap, n.local)
              || !ViewReady(env, n1, [made.1], graceOver)
         then None else Prepares(env, n1, [made.1]))
    case _ => None
  }

  /** What the event makes of that commit: advance, drain what waited, reconcile. */
  function Finished(env: Env, p: Applying): (r: Node)
    requires WellFormed(p.at)
    ensures WellFormed(r) && |r.ops| == |p.at.ops|
  {
    var drained := AdvanceAndDrain(env, p.at, p.envelope, p.commit.commitData, p.state, p.treeHash);
    Reconcile(env, if p.received then WithoutCommitted(drained, p.commit) else drained, p.commit)
  }

  /** Storage when the process dies after ApplyCommit, and after the history chain was stored as well. */
  function Stopped(env: Env, p: Applying, persisted: bool): (r: Node)
    requires WellFormed(p.at)
    ensures WellFormed(r)
  {
    AdvancedWellFormed(env, p.at, p.envelope, p.commit.commitData, p.state, p.treeHash);
    if persisted then Advanced(env, p.at, p.envelope, p.commit.commitData, p.state, p.treeHash)
    else Recorded(env, p.at, p.envelope, p.commit.commitData, p.state, p.treeHash)
  }

  // ----- events -----

  function Handle(env: Env, n: Node, ev: Event): (r: Node)
    requires WellFormed(n)
    ensures WellFormed(r)
  {
    match ev
    case Deliver(from, e) => HandleLive(env, n, from, e)
    case Resync(e) => Replay(env, n, e).0
    case SendMessage(plaintext) => Send(env, n, plaintext)
    case MakeProposal(kind, data, meta) => Propose(env, n, kind, data, meta)
    case CommitTimer(graceOver) => TryCommit(env, n, graceOver)
    case CommitAtOnce(kind, data, meta, graceOver) => CommitOne(env, n, kind, data, meta, graceOver)
    case HolderTimeout => n.(writer := Failover.Timeout(env.group, n.writer, n.members, env.cap, n.local))
    case ViewChange(members) => n.(members := members)
    case Request(op) => if HasTarget(op) then n.(ops := Submitted(n.ops, op)) else n
    case SetClock(now) => n.(now := now)
    case SetMode(mode) => n.(mode := mode)
    case Restart => Restarted(env, n)
    case Crash(during, persisted) =>
      FirstCommitWellFormed(env, n, during);
      var p := FirstCommit(env, n, during);
      Restarted(env, if p.Some? then Stopped(env, p.value, persisted) else n)
  }

  /** A commit is applied to the node itself, up to a proposal of its own and what it has published. */
  predicate AppliesTo(env: Env, n: Node, p: Applying) {
    && SameCore(n, p.at) && p.at.future == n.future && p.at.ops == n.ops
    && env.envelopeHash(p.envelope) !in n.applied && p.envelope.epoch == n.epoch
    && p.envelope.body == CommitBody(Some(p.commit)) && p.state != []
    && p.at.outbox == if p.received then n.outbox else n.outbox + [p.envelope]
  }

  lemma ReceivesApplies(env: Env, n: Node, e: Envelope)
    ensures Receives(env, n, e).Some? ==> AppliesTo(env, n, Receives(env, n, e).value)
  {
  }

  lemma PreparesApplies(env: Env, n: Node, batch: seq<BufferedProposal>)
    ensures Prepares(env, n, batch).Some? ==> AppliesTo(env, n, Prepares(env, n, batch).value)
  {
    hide CommitMessage;
  }

  /** A proposal of one's own first changes nothing about that. */
  lemma AppliesAfterProposal(env: Env, n: Node, n1: Node, p: Applying)
    requires AppliesTo(env, n1, p) && SameCore(n, n1) && n1.future == n.future && n1.ops == n.ops
    requires n1.outbox == n.outbox
    ensures AppliesTo(env, n, p)
  {
  }

  lemma FirstCommitApplies(env: Env, n: Node, ev: Event)
    ensures FirstCommit(env, n, ev).Some? ==> AppliesTo(env, n, FirstCommit(env, n, ev).value)
  {
    hide IsTokenHolder, ViewReady, NextBatch, Prepares, Receives, AppliesTo;
    match ev
    case Deliver(_, e) => ReceivesApplies(env, n, e);
    case Resync(e) => ReceivesApplies(env, n, e);
    case CommitTimer(_) => PreparesApplies(env, n, NextBatch(n.writer.proposals, env.cap));
    case CommitAtOnce(kind, data, meta, _) =>
      var made := CreateLocal(env, n, kind, data, meta);
      if made.Some? {
        var n1 := WithProposal(env, made.value.0, made.value.1);
        PreparesApplies(env, n1, [made.value.1]);
        var p := Prepares(env, n1, [made.value.1]);
        if p.Some? {
          AppliesAfterProposal(env, n, n1, p.value);
        }
      }
    case _ =>
  }

  lemma FirstCommitBy(env: Env, n: Node, ev: Event)
    ensures FirstCommit(env, n, ev).Some? ==> ev.Deliver? || ev.Resync? || ev.CommitTimer? || ev.CommitAtOnce?
  {
  }

  lemma FirstCommitReceived(env: Env, n: Node, from: PeerId, e: Envelope)
    ensures FirstCommit(env, n, Deliver(from, e)).Some? ==> FirstCommit(env, n, Deliver(from, e)) == Receives(env, n, e)
    ensures FirstCommit(env, n, Resync(e)).Some? ==> FirstCommit(env, n, Resync(e)) == Receives(env, n, e)
  {
    hide Receives;
  }

  lemma FirstCommitOnTimer(env: Env, n: Node, graceOver: bool)
    ensures var p, batch := FirstCommit(env, n, CommitTimer(graceOver)), NextBatch(n.writer.proposals, env.cap);
            p.Some? ==> p == Prepares(env, n, batch) && IsTokenHolder(env.group, n.writer, n.members, env.cap, n.local)
  {
    hide Prepares, NextBatch, IsTokenHolder, ViewReady;
  }

  lemma FirstCommitWellFormed(env: Env, n: Node, ev: Event)
    requires WellFormed(n)
    ensures var p := FirstCommit(env, n, ev); p.Some? ==> WellFormed(p.value.at) && AppliesTo(env, n, p.value)
  {
    hide FirstCommit;
    FirstCommitApplies(env, n, ev);
  }

  lemma ReceivedIsFinished(env: Env, n: Node, e: Envelope)
    requires WellFormed(n)
    ensures var p := Receives(env, n, e);
            if p.Some? then HandleCommit(env, n, e) == (Finished(env, p.value), true)
            else var r := HandleCommit(env, n, e).0;
                 r == n.(future := r.future, invalid := r.invalid) && !HandleCommit(env, n, e).1
  {
    hide AdvanceAndDrain, Reconcile, WithoutCommitted, Examine, WellFormed;
  }

  lemma PreparedIsFinished(env: Env, n: Node, batch: seq<BufferedProposal>)
    requires WellFormed(n)
    ensures var p := Prepares(env, n, batch);
            if p.Some? then WellFormed(p.value.at) && CommitBatch(env, n, batch) == Finished(env, p.value)
            else var r := CommitBatch(env, n, batch); r == n.(hlc := r.hlc)
  {
    hide AdvanceAndDrain, Reconcile;
  }

  /** An event that applies a commit ends as that commit ends. */
  lemma HandledByCommit(env: Env, n: Node, ev: Event)
    requires WellFormed(n) && FirstCommit(env, n, ev).Some?
    ensures WellFormed(FirstCommit(env, n, ev).value.at)
    ensures Handle(env, n, ev) == Finished(env, FirstCommit(env, n, ev).value)
  {
    hide IsTokenHolder, ViewReady, NextBatch, Prepares, CommitBatch, HandleCommit, Finished, Examine;
    FirstCommitWellFormed(env, n, ev);
    match ev
    case Deliver(_, e) => ReceivedIsFinished(env, n, e);
    case Resync(e) =>
      ReceivedIsFinished(env, n, e);
      assert env.envelopeHash(e) !in n.applied;
    case CommitTimer(_) => PreparedIsFinished(env, n, NextBatch(n.writer.proposals, env.cap));
    case CommitAtOnce(kind, data, meta, _) =>
      var made := CreateLocal(env, n, kind, data, meta).value;
      PreparedIsFinished(env, WithProposal(env, made.0, made.1), [made.1]);
  }

  /** A crash: what the first commit left in storage, read back. */
  lemma CrashStops(env: Env, n: Node, ev: Event)
    requires WellFormed(n) && ev.Crash?
    ensures var p := FirstCommit(env, n, ev.during);
            && (p.Some? ==> WellFormed(p.value.at))
            && Handle(env, n, ev) == Restarted(env, if p.Some? then Stopped(env, p.value, ev.persisted) else n)
  {
    hide FirstCommit, Restarted, Stopped;
    FirstCommitWellFormed(env, n, ev.during);
  }

  /** A restart and a request. */
  lemma Stored(env: Env, n: Node, ev: Event)
    requires WellFormed(n) && (ev.Restart? || ev.Request?)
    ensures Handle(env, n, ev) == if ev.Restart? then Restarted(env, n)
                                  else if HasTarget(ev.op) then n.(ops := Submitted(n.ops, ev.op)) else n
  {
    hide Restarted, Submitted;
  }

  /** One application message joins the logs: received in its window, or sent. */
  ghost predicate Takes(env: Env, n: Node, r: Node, e: Envelope) {
    && env.envelopeHash(e) !in n.applied && r.applied == n.applied + {env.envelopeHash(e)}
    && r.delivered == n.delivered + [e]
    && e.body.ApplicationBody? && ApplicationAction(env, n, e).Process?
  }

  /**
    * What an event without a commit leaves alone: epoch, history,
    * operations, the commit log; at most one message is applied.
    */
  ghost predicate Minor(env: Env, n: Node, r: Node) {
    && r.epoch == n.epoch && r.commits == n.commits && r.chain == n.chain && r.historyHash == n.historyHash
    && r.ops == n.ops
    && (forall h :: h in n.firstSeen ==> h in r.firstSeen && r.firstSeen[h] == n.firstSeen[h])
    && ((r.applied == n.applied && r.delivered == n.delivered) || exists e :: Takes(env, n, r, e))
  }

  lemma HandledWithoutCommit(env: Env, n: Node, ev: Event)
    requires WellFormed(n) && FirstCommit(env, n, ev).None? && !ev.Crash? && !ev.Restart? && !ev.Request?
    ensures Minor(env, n, Handle(env, n, ev)) && Handle(env, n, ev).now == if ev.SetClock? then ev.now else n.now
  {
    hide IsTokenHolder, ViewReady, NextBatch, Prepares, Receives, CommitBatch, CommitOne, HandleLive;
    hide Replay, WellFormed, Minor, Send, Propose, Finished;
    match ev
    case Deliver(from, e) => DeliverMinor(env, n, from, e);
    case Resync(e) => ResyncMinor(env, n, e);
    case SendMessage(plaintext) => SendMinor(env, n, plaintext);
    case CommitTimer(_) =>
      PreparedIsFinished(env, n, NextBatch(n.writer.proposals, env.cap));
      SameMinor(env, n, Handle(env, n, ev));
    case CommitAtOnce(kind, data, meta, graceOver) => CommitOneMinor(env, n, kind, data, meta, graceOver);
    case MakeProposal(kind, data, meta) => ProposeMinor(env, n, kind, data, meta);
    case HolderTimeout => SameMinor(env, n, Handle(env, n, ev));
    case ViewChange(_) => SameMinor(env, n, Handle(env, n, ev));
    case SetClock(_) => SameMinor(env, n, Handle(env, n, ev));
    case SetMode(_) => SameMinor(env, n, Handle(env, n, ev));
    case _ =>
  }

  lemma ProposeMinor(env: Env, n: Node, kind: ProposalType, data: Bytes, meta: BufferedProposal)
    ensures Minor(env, n, Propose(env, n, kind, data, meta)) && Propose(env, n, kind, data, meta).now == n.now
  {
    hide Minor, IsTokenHolder, Buffered;
    SameMinor(env, n, Propose(env, n, kind, data, meta));
  }

  lemma SameMinor(env: Env, n: Node, r: Node)
    requires r.epoch == n.epoch && r.commits == n.commits && r.chain == n.chain && r.historyHash == n.historyHash
    requires r.ops == n.ops
    requires r.firstSeen == n.firstSeen && r.applied == n.applied && r.delivered == n.delivered
    ensures Minor(env, n, r)
  {
  }

  lemma DeliverMinor(env: Env, n: Node, from: PeerId, e: Envelope)
    requires WellFormed(n) && FirstCommit(env, n, Deliver(from, e)).None?
    ensures Minor(env, n, HandleLive(env, n, from, e)) && HandleLive(env, n, from, e).now == n.now
  {
    hide Receives, HandleCommit, HandleProposal, HandleApplication, WellFormed, Minor, Finished, Logged;
    ReceivedIsFinished(env, n, e);
    MessagesMinor(env, n, e);
    LoggedMinor(env, n, env.envelopeHash(e));
    SameMinor(env, n, n);
    if n.mode.Live? && e.body.CommitBody? && FirstCommit(env, n, Deliver(from, e)) == Receives(env, n, e) {
      SameMinor(env, n, HandleCommit(env, n, e).0);
    }
  }

  lemma LoggedMinor(env: Env, n: Node, hash: Bytes)
    ensures Minor(env, n, n.(firstSeen := Logged(n, hash)))
  {
  }

  lemma ResyncMinor(env: Env, n: Node, e: Envelope)
    requires WellFormed(n) && FirstCommit(env, n, Resync(e)).None?
    ensures Minor(env, n, Replay(env, n, e).0) && Replay(env, n, e).0.now == n.now
  {
    hide Receives, HandleCommit, HandleApplication, WellFormed, Takes, Finished;
    ReceivedIsFinished(env, n, e);
    MessagesMinor(env, n, e);
  }

  lemma CommitOneMinor(env: Env, n: Node, kind: ProposalType, data: Bytes, meta: BufferedProposal, graceOver: bool)
    requires WellFormed(n) && FirstCommit(env, n, CommitAtOnce(kind, data, meta, graceOver)).None?
    ensures var r := CommitOne(env, n, kind, data, meta, graceOver); Minor(env, n, r) && r.now == n.now
  {
    hide FirstCommit, CommitOne, Prepares, CommitBatch, WellFormed, Minor, Finished, CreateLocal, WithProposal;
    var made := CreateLocal(env, n, kind, data, meta);
    CommitOneCases(env, n, kind, data, meta, graceOver);
    if made.Some? {
      var n1 := WithProposal(env, made.value.0, made.value.1);
      ProposedLocally(env, n, kind, data, meta);
      SameCoreWellFormed(n, n1);
      PreparedIsFinished(env, n1, [made.value.1]);
    }
    SameMinor(env, n, CommitOne(env, n, kind, data, meta, graceOver));
  }

  /** The proposal is not made, or only published, or committed at once. */
  lemma CommitOneCases(env: Env, n: Node, kind: ProposalType, data: Bytes, meta: BufferedProposal, graceOver: bool)
    requires WellFormed(n)
    ensures var r, made := CommitOne(env, n, kind, data, meta, graceOver), CreateLocal(env, n, kind, data, meta);
            if made.None? then r == n
            else
              var n1 := WithProposal(env, made.value.0, made.value.1);
              && WellFormed(n1)
              && (|| (exists body :: r == Publish(env, n1, body))
                  || (&& r == CommitBatch(env, n1, [made.value.1])
                      && FirstCommit(env, n, CommitAtOnce(kind, data, meta, graceOver)) ==
                           Prepares(env, n1, [made.value.1])))
  {
    hide IsTokenHolder, ViewReady, Prepares, CommitBatch, WellFormed, CreateLocal, WithProposal, Publish;
    var made := CreateLocal(env, n, kind, data, meta);
    if made.Some? {
      ProposedLocally(env, n, kind, data, meta);
      SameCoreWellFormed(n, WithProposal(env, made.value.0, made.value.1));
    }
  }

  lemma ProposedLocally(env: Env, n: Node, kind: ProposalType, data: Bytes, meta: BufferedProposal)
    requires CreateLocal(env, n, kind, data, meta).Some?
    ensures var made := CreateLocal(env, n, kind, data, meta).value;
            var n1 := WithProposal(env, made.0, made.1);
            SameCore(n, n1) && n1.future == n.future && n1.ops == n.ops && n1.outbox == n.outbox
  {
    hide Buffered;
  }

  lemma SameCoreWellFormed(n: Node, r: Node)
    requires WellFormed(n) && SameCore(n, r) && r.future == n.future && r.ops == n.ops
    ensures WellFormed(r)
  {
  }

  lemma MessagesMinor(env: Env, n: Node, e: Envelope)
    ensures Minor(env, n, HandleProposal(env, n, e)) && HandleProposal(env, n, e).now == n.now
    ensures Minor(env, n, HandleApplication(env, n, e).0) && HandleApplication(env, n, e).0.now == n.now
  {
    hide HandleProposal, HandleApplication, Minor;
    SameMinor(env, n, HandleProposal(env, n, e));
    ApplicationMinor(env, n, e);
  }

  lemma ApplicationMinor(env: Env, n: Node, e: Envelope)
    ensures Minor(env, n, HandleApplication(env, n, e).0) && HandleApplication(env, n, e).0.now == n.now
  {
    hide ApplicationAction, Merged;
    var r := HandleApplication(env, n, e).0;
    assert r.delivered != n.delivered ==> Takes(env, n, r, e);
  }

  lemma SendMinor(env: Env, n: Node, plaintext: Bytes)
    ensures Minor(env, n, Send(env, n, plaintext)) && Send(env, n, plaintext).now == n.now
  {
    var r := Send(env, n, plaintext);
    if r.delivered != n.delivered {
      assert Takes(env, n, r, r.delivered[|n.delivered|]);
    }
  }

  function Run(env: Env, n: Node, events: seq<Event>): (r: Node)
    requires WellFormed(n)
    ensures WellFormed(r)
  {
    if events == [] then n else Handle(env, Run(env, n, events[..|events| - 1]), events[|events| - 1])
  }
}
