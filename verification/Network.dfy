/** Nodes and a network that loses, repeats and reorders: no two commits for one epoch, ever. */
module Network {
  import opened Bytes
  import opened Sorting
  import opened Types
  import opened Election
  import opened SingleWriter
  import opened Agreement
  import opened Operations
  import opened Coordinator
  import opened NodeRuns
  import opened Transitions

  /** All nodes, and every envelope ever handed to the transport. */
  datatype System = System(nodes: map<PeerId, Node>, sent: set<Envelope>)

  /**
    * Something happens at one node. A message may be delivered
    * to any node, in any order, any number of times, or never.
    */
  datatype Action = Action(at: PeerId, event: Event)

  ghost function Outgoing(n: Node, n': Node): set<Envelope> {
    set i | |n.outbox| <= i < |n'.outbox| :: n'.outbox[i]
  }

  ghost predicate AllWellFormed(s: System) {
    forall p :: p in s.nodes ==> WellFormed(s.nodes[p])
  }

  ghost function After(env: Env, s: System, a: Action): System
    requires AllWellFormed(s) && a.at in s.nodes
  {
    var n' := Handle(env, s.nodes[a.at], a.event);
    System(s.nodes[a.at := n'], s.sent + Outgoing(s.nodes[a.at], n'))
  }

  /** The texts of the view's members. */
  ghost function Texts(env: Env, view: seq<PeerId>): set<string> {
    set p | p in view :: env.group.peerText(p)
  }

  /**
    * Deliveries are of sent envelopes; nobody proposes to remove or re-join
    * a member of the view; the view is fixed and nobody is suspended.
    */
  ghost predicate Permitted(env: Env, view: seq<PeerId>, s: System, a: Action) {
    a.at in s.nodes && Fair(env, view, s.sent, a.event)
  }

  ghost predicate Fair(env: Env, view: seq<PeerId>, sent: set<Envelope>, ev: Event) {
    match ev
    case Deliver(_, e) => e in sent
    case Resync(e) => e in sent
    case MakeProposal(kind, _, meta) => Spares(Texts(env, view), kind, meta.target)
    case CommitAtOnce(kind, _, meta, _) => Spares(Texts(env, view), kind, meta.target)
    case Request(op) => HasTarget(op) ==> op.kind.RemoveMember? ==> op.target.value !in Texts(env, view)
    case ViewChange(members) => members == view
    case HolderTimeout => false
    case Crash(during, _) => Fair(env, view, sent, during)
    case _ => true
  }

  /** The assumptions: one fixed sorted view, and a policy that does not look at the batch. */
  ghost predicate Setting(env: Env, view: seq<PeerId>) {
    StrictlySorted(Less, view) && PolicyIgnoresBatch(env.group)
  }

  ghost predicate IsCommit(e: Envelope) {
    e.body.CommitBody? && e.body.commit.Some?
  }

  /** A node's commit log has one commit of the pool for each epoch since the first. */
  ghost predicate CommitLog(first: nat, pool: set<Envelope>, n: Node) {
    && n.epoch == first + |n.commits|
    && forall j ::
         0 <= j < |n.commits| ==> n.commits[j] in pool && IsCommit(n.commits[j]) && n.commits[j].epoch == first + j
  }

  ghost predicate NodeOk(env: Env, view: seq<PeerId>, first: nat, pool: set<Envelope>, n: Node) {
    && Sound(Texts(env, view), pool, n)
    && n.members == view && n.writer.suspended == {}
    && CommitLog(first, pool, n)
  }

  /** The peer elected for an epoch, whatever the batch. */
  ghost predicate HoldsEpoch(env: Env, view: seq<PeerId>, epoch: nat, p: PeerId) {
    Holder(env.group, epoch, view, [], {}) == Elected(p)
  }

  /** Every commit in flight was issued by its epoch's holder, who has moved past that epoch; none has a rival. */
  ghost predicate Issued(env: Env, view: seq<PeerId>, s: System) {
    && (forall c :: c in s.sent && IsCommit(c) ==>
          exists h :: h in s.nodes && HoldsEpoch(env, view, c.epoch, h) && s.nodes[h].epoch > c.epoch)
    && (forall c, d :: c in s.sent && d in s.sent && IsCommit(c) && IsCommit(d) && c.epoch == d.epoch ==> c == d)
  }

  ghost predicate Invariant(env: Env, view: seq<PeerId>, first: nat, s: System) {
    && (forall p :: p in s.nodes ==> NodeOk(env, view, first, s.sent, s.nodes[p]) && s.nodes[p].local == p)
    && PoolSpares(Texts(env, view), s.sent)
    && Issued(env, view, s)
  }

  // ----- a node along a path -----

  /** What a change may publish without being a commit: messages, and proposals that spare the view. */
  ghost predicate NoCommits(texts: set<string>, n: Node, n': Node) {
    && n.outbox <= n'.outbox
    && forall i ::
         |n.outbox| <= i < |n'.outbox| ==> !n'.outbox[i].body.CommitBody? && BodySpares(texts, n'.outbox[i].body)
  }

  lemma ElementaryKeeps(env: Env, view: seq<PeerId>, first: nat, pool: set<Envelope>, n: Node, n': Node)
    requires NodeOk(env, view, first, pool, n) && Sound(Texts(env, view), pool, n')
    requires Elementary(env, Texts(env, view), pool, n, n')
    ensures NodeOk(env, view, first, pool, n') && n'.local == n.local && n'.epoch >= n.epoch
    ensures NoCommits(Texts(env, view), n, n')
  {
    hide Sound, Examine;
  }

  lemma {:induction false} PathKeeps(env: Env, view: seq<PeerId>, first: nat, pool: set<Envelope>, path: seq<Node>)
    requires Path(env, Texts(env, view), pool, path) && NodeOk(env, view, first, pool, path[0])
    ensures var n' := path[|path| - 1];
            NodeOk(env, view, first, pool, n') && n'.local == path[0].local && n'.epoch >= path[0].epoch
    ensures NoCommits(Texts(env, view), path[0], path[|path| - 1])
    decreases |path|
  {
    hide NodeOk, Elementary, Sound;
    if |path| > 1 {
      var k := |path| - 1;
      PathKeeps(env, view, first, pool, path[..k]);
      assert path[..k][k - 1] == path[k - 1];
      assert Elementary(env, Texts(env, view), pool, path[k - 1], path[k - 1 + 1]);
      ElementaryKeeps(env, view, first, pool, path[k - 1], path[k]);
    }
  }

  /** The change a handler makes: the node stays in order and no commit goes out. */
  ghost predicate Orderly(env: Env, view: seq<PeerId>, first: nat, pool: set<Envelope>, n: Node, n': Node) {
    && NodeOk(env, view, first, pool, n') && n'.local == n.local && n'.epoch >= n.epoch
    && NoCommits(Texts(env, view), n, n')
  }

  lemma HandledOrderly(env: Env, view: seq<PeerId>, first: nat, pool: set<Envelope>, n: Node, e: Envelope)
    requires NodeOk(env, view, first, pool, n) && e in pool && PoolSpares(Texts(env, view), pool)
    ensures Orderly(env, view, first, pool, n, HandleProposal(env, n, e))
    ensures Orderly(env, view, first, pool, n, HandleCommit(env, n, e).0)
    ensures Orderly(env, view, first, pool, n, HandleApplication(env, n, e).0)
  {
    hide Elementary, HandleProposal, HandleCommit, HandleApplication, WellFormed, Gentle;
    var p1 := ProposalPath(env, Texts(env, view), pool, n, e);
    PathKeeps(env, view, first, pool, p1);
    var p2 := CommitPath(env, Texts(env, view), pool, n, e);
    PathKeeps(env, view, first, pool, p2);
    var p3 := ApplicationPath(env, Texts(env, view), pool, n, e);
    PathKeeps(env, view, first, pool, p3);
  }

  lemma UntouchedOrderly(env: Env, view: seq<PeerId>, first: nat, pool: set<Envelope>, n: Node, n': Node)
    requires NodeOk(env, view, first, pool, n)
    requires n' == n.(hlc := n'.hlc, now := n'.now, mode := n'.mode, invalid := n'.invalid, firstSeen := n'.firstSeen)
    ensures Orderly(env, view, first, pool, n, n')
  {
    assert Held(n') == Held(n);
  }

  lemma LiveOrderly(env: Env, view: seq<PeerId>, first: nat, pool: set<Envelope>, n: Node, from: PeerId, e: Envelope)
    requires NodeOk(env, view, first, pool, n) && e in pool && PoolSpares(Texts(env, view), pool)
    ensures Orderly(env, view, first, pool, n, HandleLive(env, n, from, e))
  {
    hide HandleProposal, HandleCommit, HandleApplication, Orderly, NodeOk;
    HandledOrderly(env, view, first, pool, n, e);
    UntouchedOrderly(env, view, first, pool, n, n);
    UntouchedOrderly(env, view, first, pool, n, n.(firstSeen := Logged(n, env.envelopeHash(e))));
  }

  lemma ReplayOrderly(env: Env, view: seq<PeerId>, first: nat, pool: set<Envelope>, n: Node, e: Envelope)
    requires NodeOk(env, view, first, pool, n) && e in pool && PoolSpares(Texts(env, view), pool)
    ensures Orderly(env, view, first, pool, n, Replay(env, n, e).0)
  {
    hide HandleApplication, Orderly, Gentle, CommitLog, Examine, AdvanceAndDrain, Reconcile;
    HandledOrderly(env, view, first, pool, n, e);
    UntouchedOrderly(env, view, first, pool, n, n);
    assert HandleCommitDetailed(env, n, e).0 == n || HandleCommitDetailed(env, n, e).0 == HandleCommit(env, n, e).0;
  }

  lemma ProposeOrderly(env: Env, view: seq<PeerId>, first: nat, pool: set<Envelope>, n: Node, kind: ProposalType,
                       data: Bytes, meta: BufferedProposal)
    requires NodeOk(env, view, first, pool, n) && Spares(Texts(env, view), kind, meta.target)
    ensures Orderly(env, view, first, pool, n, Propose(env, n, kind, data, meta))
  {
    hide Propose;
    var n' := Propose(env, n, kind, data, meta);
    ProposeQuiet(env, Texts(env, view), n, kind, data, meta);
    QuietOrderly(env, view, first, pool, n, n');
  }

  lemma QuietOrderly(env: Env, view: seq<PeerId>, first: nat, pool: set<Envelope>, n: Node, n': Node)
    requires NodeOk(env, view, first, pool, n)
    requires Quiet(Texts(env, view), n, n') && Gentle(Texts(env, view), n') && WellFormed(n')
    ensures Orderly(env, view, first, pool, n, n')
  {
    assert Held(n') == Held(n);
  }

  // ----- issuing -----

  /** The node publishes one commit for its epoch, then no other, and moves on. */
  ghost predicate Issues(env: Env, view: seq<PeerId>, first: nat, pool: set<Envelope>, n: Node, n': Node, e: Envelope) {
    && IsCommit(e) && e.epoch == n.epoch && n'.epoch > n.epoch && n'.local == n.local
    && NodeOk(env, view, first, pool + {e}, n')
    && |n'.outbox| > |n.outbox| && n'.outbox[..|n.outbox|] == n.outbox && n'.outbox[|n.outbox|] == e
    && forall i ::
         |n.outbox| < i < |n'.outbox| ==>
           !n'.outbox[i].body.CommitBody? && BodySpares(Texts(env, view), n'.outbox[i].body)
  }

  lemma WiderPool(env: Env, view: seq<PeerId>, first: nat, pool: set<Envelope>, wider: set<Envelope>, n: Node)
    requires NodeOk(env, view, first, pool, n) && pool <= wider
    ensures NodeOk(env, view, first, wider, n)
  {
  }

  lemma AdvancedOk(env: Env, view: seq<PeerId>, first: nat, pool: set<Envelope>, n: Node, e: Envelope, data: Bytes,
                   state: Bytes, treeHash: Bytes)
    requires NodeOk(env, view, first, pool, n) && e in pool && IsCommit(e) && e.epoch == n.epoch
    ensures NodeOk(env, view, first, pool, Advanced(env, n, e, data, state, treeHash))
  {
    AdvancedSound(env, Texts(env, view), pool, n, e, data, state, treeHash);
    hide Sound;
  }

  lemma CommitBatchIssues(env: Env, view: seq<PeerId>, first: nat, pool: set<Envelope>, n: Node,
                          batch: seq<BufferedProposal>)
    requires NodeOk(env, view, first, pool, n) && PoolSpares(Texts(env, view), pool)
    ensures var n' := CommitBatch(env, n, batch);
            Orderly(env, view, first, pool, n, n') || exists e :: Issues(env, view, first, pool, n, n', e)
  {
    hide NodeOk, PoolSpares, Orderly, Issues, AdvanceAndDrain, Reconcile, CommitMessage, Texts;
    NodeOkWellFormed(env, view, first, pool, n);
    var n' := CommitBatch(env, n, batch);
    UntouchedOrderly(env, view, first, pool, n, n);
    if n.groupState != [] && env.mls.createCommit(n.groupState, Refs(batch)).Some? {
      var made := env.mls.createCommit(n.groupState, Refs(batch)).value;
      var c := CommitMessage(env, batch, made);
      var n1 := Publish(env, n, CommitBody(Some(c)));
      var e := n1.outbox[|n.outbox|];
      if made.state == [] || env.envelopeHash(e) in n.applied {
        UntouchedOrderly(env, view, first, pool, n, n');
      } else {
        PublishedOk(env, view, first, pool, n, c);
        IssuedPath(env, view, first, pool + {e}, n1, e, made.data, made.state, made.treeHash, c);
        FirstOut(env, view, first, pool, n, n1, n', e);
      }
    }
  }

  /** A commit published first and an orderly change after it make an issue. */
  lemma FirstOut(env: Env, view: seq<PeerId>, first: nat, pool: set<Envelope>, n: Node, n1: Node, n': Node, e: Envelope)
    requires IsCommit(e) && e.epoch == n.epoch == n1.epoch && n1.local == n.local && n1.outbox == n.outbox + [e]
    requires Orderly(env, view, first, pool + {e}, n1, n') && n'.epoch > n1.epoch
    ensures Issues(env, view, first, pool, n, n', e)
  {
    assert n'.outbox[..|n1.outbox|] == n1.outbox;
    assert n'.outbox[..|n.outbox|] == n1.outbox[..|n.outbox|];
    assert n'.outbox[|n.outbox|] == n1.outbox[|n.outbox|];
  }

  lemma PublishedOk(env: Env, view: seq<PeerId>, first: nat, pool: set<Envelope>, n: Node, c: CommitMsg)
    requires NodeOk(env, view, first, pool, n) && PoolSpares(Texts(env, view), pool)
    ensures var n1 := Publish(env, n, CommitBody(Some(c)));
            var e := n1.outbox[|n.outbox|];
            && NodeOk(env, view, first, pool + {e}, n1) && PoolSpares(Texts(env, view), pool + {e})
            && IsCommit(e) && e.epoch == n.epoch
  {
    var n1 := Publish(env, n, CommitBody(Some(c)));
    assert Held(n1) == Held(n);
    WiderPool(env, view, first, pool, pool + {n1.outbox[|n.outbox|]}, n);
  }

  /** From the published commit to the end of doCommitBatchLocked. */
  lemma IssuedPath(env: Env, view: seq<PeerId>, first: nat, pool: set<Envelope>, n: Node, e: Envelope, data: Bytes,
                   state: Bytes, treeHash: Bytes, c: CommitMsg)
    requires NodeOk(env, view, first, pool, n) && PoolSpares(Texts(env, view), pool)
    requires e in pool && IsCommit(e) && e.epoch == n.epoch
    ensures var n' := Reconcile(env, AdvanceAndDrain(env, n, e, data, state, treeHash), c);
            Orderly(env, view, first, pool, n, n') && n'.epoch > n.epoch
  {
    hide Elementary, Reconcile, AdvanceAndDrain, WellFormed, Gentle, CommitHash, NextHistory;
    var n1 := Advanced(env, n, e, data, state, treeHash);
    AdvancedOk(env, view, first, pool, n, e, data, state, treeHash);
    var n2 := AdvanceAndDrain(env, n, e, data, state, treeHash);
    var p := AfterAdvancePath(env, Texts(env, view), pool, n, e, data, state, treeHash);
    PathKeeps(env, view, first, pool, p);
    var q := ReconcilePath(env, Texts(env, view), pool, n2, c);
    PathKeeps(env, view, first, pool, q);
  }

  lemma EligibleByEpoch(env: Env, view: seq<PeerId>, epoch: nat, batch: seq<BufferedProposal>)
    requires Setting(env, view)
    requires forall b :: b in batch ==> Spares(Texts(env, view), b.kind, b.target)
    ensures EligibleSet(env.group, epoch, view, batch, {}) == EligibleSet(env.group, epoch, view, [], {})
    ensures PolicyAnswers(env.group, epoch, batch) == PolicyAnswers(env.group, epoch, [])
  {
    assert Election.Allowed(env.group, epoch, batch, NO_PEER) == Election.Allowed(env.group, epoch, [], NO_PEER);
    assert forall q :: Election.Allowed(env.group, epoch, batch, q) == Election.Allowed(env.group, epoch, [], q);
    hide Election.Allowed, PolicyAnswers, PolicyIgnoresBatch;
    forall q | q in view
      ensures MayHold(env.group, epoch, view, batch, {}, q) <==> MayHold(env.group, epoch, view, [], {}, q)
    {
      assert env.group.peerText(q) in Texts(env, view);
      assert RemovedBy([]) == {};
    }
  }

  /** With a batch that spares the view and a policy that ignores batches, the holder depends on the epoch only. */
  lemma HolderByEpoch(env: Env, view: seq<PeerId>, epoch: nat, batch: seq<BufferedProposal>, p: PeerId)
    requires Setting(env, view)
    requires forall b :: b in batch ==> Spares(Texts(env, view), b.kind, b.target)
    ensures Holder(env.group, epoch, view, batch, {}) == Elected(p) <==> HoldsEpoch(env, view, epoch, p)
  {
    hide Holder, EligibleSet, PolicyAnswers, IsFirst, PolicyIgnoresBatch;
    HolderIsFirst(env.group, epoch, view, batch, {}, p);
    HolderIsFirst(env.group, epoch, view, [], {}, p);
    EligibleByEpoch(env, view, epoch, batch);
  }

  lemma OwnBatchHolder(env: Env, view: seq<PeerId>, first: nat, pool: set<Envelope>, n: Node, p: PeerId)
    requires Setting(env, view) && NodeOk(env, view, first, pool, n)
    ensures IsTokenHolder(env.group, n.writer, n.members, env.cap, p) <==> HoldsEpoch(env, view, n.epoch, p)
  {
    var batch := NextBatch(n.writer.proposals, env.cap);
    forall b | b in batch
      ensures Spares(Texts(env, view), b.kind, b.target)
    {
      NextBatchFrom(n.writer.proposals, env.cap, b);
    }
    HolderByEpoch(env, view, n.epoch, batch, p);
  }

  lemma NextBatchFrom(s: seq<BufferedProposal>, cap: nat, b: BufferedProposal)
    requires b in NextBatch(s, cap)
    ensures b in s
  {
    var sorted := Sort(RefLess, s);
    assert b in multiset(sorted);
    assert b in multiset(s);
  }

  // ----- the system -----

  /** Either no commit goes out, or the epoch's holder issues one. */
  lemma ActionShape(env: Env, view: seq<PeerId>, first: nat, s: System, a: Action)
    requires Setting(env, view) && Invariant(env, view, first, s) && Permitted(env, view, s, a)
    ensures var n, n' := s.nodes[a.at], Handle(env, s.nodes[a.at], a.event);
            || Orderly(env, view, first, s.sent, n, n')
            || (HoldsEpoch(env, view, n.epoch, a.at) && exists e :: Issues(env, view, first, s.sent, n, n', e))
  {
    hide HandleLive, Replay, Send, Propose, CommitBatch, CommitOne, Orderly, Issues, HoldsEpoch;
    hide Restarted, Stopped, FirstCommit, Submitted, NextBatch, IsTokenHolder, ViewReady, Setting;
    var n := s.nodes[a.at];
    match a.event {
      case SendMessage(plaintext) => SendOrderly(env, view, first, s.sent, n, plaintext);
      case Crash(during, persisted) => CrashShape(env, view, first, s.sent, n, during, persisted);
      case Deliver(from, e) => LiveOrderly(env, view, first, s.sent, n, from, e);
      case Resync(e) => ReplayOrderly(env, view, first, s.sent, n, e);
      case MakeProposal(kind, data, meta) => ProposeOrderly(env, view, first, s.sent, n, kind, data, meta);
      case CommitTimer(graceOver) =>
        UntouchedOrderly(env, view, first, s.sent, n, n);
        OwnBatchHolder(env, view, first, s.sent, n, a.at);
        CommitBatchIssues(env, view, first, s.sent, n, NextBatch(n.writer.proposals, env.cap));
      case CommitAtOnce(kind, data, meta, graceOver) =>
        CommitOneShape(env, view, first, s.sent, n, kind, data, meta, graceOver);
      case ViewChange(members) => UntouchedOrderly(env, view, first, s.sent, n, n);
      case Request(op) =>
        UntouchedOrderly(env, view, first, s.sent, n, n);
        if HasTarget(op) {
          RequestOrderly(env, view, first, s.sent, n, op);
        }
      case SetClock(now) => UntouchedOrderly(env, view, first, s.sent, n, n.(now := now));
      case SetMode(mode) => UntouchedOrderly(env, view, first, s.sent, n, n.(mode := mode));
      case Restart => RestartOrderly(env, view, first, s.sent, n);
    }
  }

  lemma RequestOrderly(env: Env, view: seq<PeerId>, first: nat, pool: set<Envelope>, n: Node, op: Operation)
    requires NodeOk(env, view, first, pool, n)
    requires HasTarget(op) && (op.kind.RemoveMember? ==> op.target.value !in Texts(env, view))
    ensures Orderly(env, view, first, pool, n, n.(ops := Submitted(n.ops, op)))
  {
    hide Submitted;
    assert Held(n.(ops := Submitted(n.ops, op))) == Held(n);
  }

  lemma SendOrderly(env: Env, view: seq<PeerId>, first: nat, pool: set<Envelope>, n: Node, plaintext: Bytes)
    requires NodeOk(env, view, first, pool, n)
    ensures Orderly(env, view, first, pool, n, Send(env, n, plaintext))
  {
    assert Held(Send(env, n, plaintext)) == Held(n);
  }

  lemma RestartOrderly(env: Env, view: seq<PeerId>, first: nat, pool: set<Envelope>, n: Node)
    requires NodeOk(env, view, first, pool, n)
    ensures Orderly(env, view, first, pool, n, Restarted(env, n))
  {
    assert Held(Restarted(env, n)) == {};
  }

  /** What a crash after ApplyCommit leaves is in order. */
  lemma StoppedOk(env: Env, view: seq<PeerId>, first: nat, pool: set<Envelope>, p: Applying, persisted: bool)
    requires NodeOk(env, view, first, pool, p.at) && p.envelope in pool && IsCommit(p.envelope)
    requires p.envelope.epoch == p.at.epoch
    ensures var r := Restarted(env, Stopped(env, p, persisted));
            NodeOk(env, view, first, pool, r) && r.epoch == p.at.epoch + 1 && r.local == p.at.local
              && r.outbox == p.at.outbox
  {
    hide CommitHash, NextHistory, InitialHistory, Gentle;
    AdvancedOk(env, view, first, pool, p.at, p.envelope, p.commit.commitData, p.state, p.treeHash);
    var n1 := Advanced(env, p.at, p.envelope, p.commit.commitData, p.state, p.treeHash);
    RestartOrderly(env, view, first, pool, n1);
    SameRestart(env, view, first, pool, Restarted(env, n1), Restarted(env, Stopped(env, p, persisted)));
  }

  /** Order does not look at the history chain. */
  lemma SameRestart(env: Env, view: seq<PeerId>, first: nat, pool: set<Envelope>, n: Node, r: Node)
    requires NodeOk(env, view, first, pool, n)
    requires r == n.(lastCommitHash := r.lastCommitHash, historyHash := r.historyHash, chain := r.chain)
    ensures NodeOk(env, view, first, pool, r)
  {
    assert Held(r) == Held(n);
  }

  lemma PreparedCrash(env: Env, view: seq<PeerId>, first: nat, pool: set<Envelope>, n: Node,
                      batch: seq<BufferedProposal>, persisted: bool)
    requires NodeOk(env, view, first, pool, n) && PoolSpares(Texts(env, view), pool) && Prepares(env, n, batch).Some?
    ensures var p := Prepares(env, n, batch).value;
            WellFormed(p.at)
              && Issues(env, view, first, pool, n, Restarted(env, Stopped(env, p, persisted)), p.envelope)
  {
    hide NodeOk, Restarted, Stopped, PoolSpares, CommitMessage;
    var p := Prepares(env, n, batch).value;
    PreparesApplies(env, n, batch);
    PublishedOk(env, view, first, pool, n, p.commit);
    NodeOkWellFormed(env, view, first, pool + {p.envelope}, p.at);
    StoppedOk(env, view, first, pool + {p.envelope}, p, persisted);
  }

  lemma NodeOkWellFormed(env: Env, view: seq<PeerId>, first: nat, pool: set<Envelope>, n: Node)
    requires NodeOk(env, view, first, pool, n)
    ensures WellFormed(n)
  {
  }

  lemma CrashShape(env: Env, view: seq<PeerId>, first: nat, pool: set<Envelope>, n: Node, ev: Event, persisted: bool)
    requires Setting(env, view) && NodeOk(env, view, first, pool, n) && PoolSpares(Texts(env, view), pool)
    requires Fair(env, view, pool, ev)
    ensures var n' := Handle(env, n, Crash(ev, persisted));
            || Orderly(env, view, first, pool, n, n')
            || (HoldsEpoch(env, view, n.epoch, n.local) && exists e :: Issues(env, view, first, pool, n, n', e))
  {
    hide Handle, FirstCommit, NodeOk, Restarted, Stopped, PoolSpares, HoldsEpoch;
    hide IsTokenHolder, NextBatch, Prepares, Receives, Issues, Setting, Orderly, Texts;
    NodeOkWellFormed(env, view, first, pool, n);
    FirstCommitWellFormed(env, n, ev);
    RestartOrderly(env, view, first, pool, n);
    var p := FirstCommit(env, n, ev);
    CrashStops(env, n, Crash(ev, persisted));
    FirstCommitBy(env, n, ev);
    if p.Some? {
      if ev.Deliver? || ev.Resync? {
        FirstCommitReceived(env, n, if ev.Deliver? then ev.from else n.local, ev.envelope);
        ReceivedCrash(env, view, first, pool, n, ev.envelope, persisted);
      } else if ev.CommitTimer? {
        FirstCommitOnTimer(env, n, ev.graceOver);
        OwnBatchHolder(env, view, first, pool, n, n.local);
        PreparedCrash(env, view, first, pool, n, NextBatch(n.writer.proposals, env.cap), persisted);
      } else {
        CommitOneCrash(env, view, first, pool, n, ev.kind, ev.data, ev.meta, ev.graceOver, persisted);
      }
    }
  }

  lemma ReceivedCrash(env: Env, view: seq<PeerId>, first: nat, pool: set<Envelope>, n: Node, e: Envelope,
                      persisted: bool)
    requires NodeOk(env, view, first, pool, n) && e in pool && Receives(env, n, e).Some?
    ensures Orderly(env, view, first, pool, n, Restarted(env, Stopped(env, Receives(env, n, e).value, persisted)))
  {
    hide NodeOk, Restarted, Stopped, Examine;
    NodeOkWellFormed(env, view, first, pool, n);
    StoppedOk(env, view, first, pool, Receives(env, n, e).value, persisted);
  }

  lemma CommitOneCrash(env: Env, view: seq<PeerId>, first: nat, pool: set<Envelope>, n: Node,
                       kind: ProposalType, data: Bytes, meta: BufferedProposal, graceOver: bool, persisted: bool)
    requires Setting(env, view) && NodeOk(env, view, first, pool, n) && PoolSpares(Texts(env, view), pool)
    requires Spares(Texts(env, view), kind, meta.target)
    requires FirstCommit(env, n, CommitAtOnce(kind, data, meta, graceOver)).Some?
    ensures var p := FirstCommit(env, n, CommitAtOnce(kind, data, meta, graceOver)).value;
            && HoldsEpoch(env, view, n.epoch, n.local) && WellFormed(p.at)
            && Issues(env, view, first, pool, n, Restarted(env, Stopped(env, p, persisted)), p.envelope)
  {
    hide HoldsEpoch, CreateLocal, NodeOk, PoolSpares, Publish, IsTokenHolder;
    hide ViewReady, Prepares, Restarted, Stopped, Issues, Setting;
    var made := CreateLocal(env, n, kind, data, meta).value;
    CreatedOk(env, view, first, pool, n, kind, data, meta);
    var n1 := WithProposal(env, made.0, made.1);
    OwnBatchHolder(env, view, first, pool, n, n.local);
    OwnBatchHolder(env, view, first, pool, n1, n.local);
    PreparedCrash(env, view, first, pool, n1, [made.1], persisted);
    var p := Prepares(env, n1, [made.1]).value;
    SameStart(env, view, first, pool, n, n1, Restarted(env, Stopped(env, p, persisted)));
  }

  lemma CreatedOk(env: Env, view: seq<PeerId>, first: nat, pool: set<Envelope>, n: Node, kind: ProposalType,
                  data: Bytes, meta: BufferedProposal)
    requires NodeOk(env, view, first, pool, n) && Spares(Texts(env, view), kind, meta.target)
    requires CreateLocal(env, n, kind, data, meta).Some?
    ensures var made := CreateLocal(env, n, kind, data, meta).value;
            var n1 := WithProposal(env, made.0, made.1);
            && NodeOk(env, view, first, pool, n1) && SameCore(n, n1) && n1.outbox == n.outbox
            && Orderly(env, view, first, pool, n, Publish(env, n1, ProposalBody(Some(ToMsg(made.1)))))
  {
    var made := CreateLocal(env, n, kind, data, meta).value;
    var n1 := WithProposal(env, made.0, made.1);
    WithProposalGentle(Texts(env, view), env, made.0, made.1);
    assert Held(n1) == Held(n);
    assert Held(Publish(env, n1, ProposalBody(Some(ToMsg(made.1))))) == Held(n);
  }

  lemma CommitOneShape(env: Env, view: seq<PeerId>, first: nat, pool: set<Envelope>, n: Node,
                       kind: ProposalType, data: Bytes, meta: BufferedProposal, graceOver: bool)
    requires Setting(env, view) && NodeOk(env, view, first, pool, n) && PoolSpares(Texts(env, view), pool)
    requires Spares(Texts(env, view), kind, meta.target)
    ensures var n' := CommitOne(env, n, kind, data, meta, graceOver);
            || Orderly(env, view, first, pool, n, n')
            || (HoldsEpoch(env, view, n.epoch, n.local) && exists e :: Issues(env, view, first, pool, n, n', e))
  {
    UntouchedOrderly(env, view, first, pool, n, n);
    hide CommitBatch, HoldsEpoch, CreateLocal, NodeOk, PoolSpares, Publish, IsTokenHolder, ViewReady;
    var created := CreateLocal(env, n, kind, data, meta);
    if created.Some? {
      CreatedOk(env, view, first, pool, n, kind, data, meta);
      var n1 := WithProposal(env, created.value.0, created.value.1);
      OwnBatchHolder(env, view, first, pool, n, n.local);
      OwnBatchHolder(env, view, first, pool, n1, n.local);
      CommitBatchIssues(env, view, first, pool, n1, [created.value.1]);
      SameStart(env, view, first, pool, n, n1, CommitBatch(env, n1, [created.value.1]));
    }
  }

  /** Seen from outside, a change may as well have started before a purely local preparation. */
  lemma SameStart(env: Env, view: seq<PeerId>, first: nat, pool: set<Envelope>, n: Node, n1: Node, n': Node)
    requires SameCore(n, n1) && n1.outbox == n.outbox
    ensures Orderly(env, view, first, pool, n1, n') ==> Orderly(env, view, first, pool, n, n')
    ensures forall e :: Issues(env, view, first, pool, n1, n', e) ==> Issues(env, view, first, pool, n, n', e)
  {
  }

  // ----- every run -----

  lemma OthersOk(env: Env, view: seq<PeerId>, first: nat, s: System, wider: set<Envelope>, p: PeerId)
    requires Invariant(env, view, first, s) && p in s.nodes && s.sent <= wider
    ensures NodeOk(env, view, first, wider, s.nodes[p]) && s.nodes[p].local == p
  {
    WiderPool(env, view, first, s.sent, wider, s.nodes[p]);
  }

  /** An orderly change keeps the invariant: the commits in flight are the same. */
  lemma OrderlyKeeps(env: Env, view: seq<PeerId>, first: nat, s: System, p: PeerId, n': Node)
    requires Invariant(env, view, first, s) && p in s.nodes
    requires Orderly(env, view, first, s.sent, s.nodes[p], n')
    ensures Invariant(env, view, first, System(s.nodes[p := n'], s.sent + Outgoing(s.nodes[p], n')))
  {
    hide NodeOk, HoldsEpoch;
    var s' := System(s.nodes[p := n'], s.sent + Outgoing(s.nodes[p], n'));
    assert forall c :: c in s'.sent && IsCommit(c) ==> c in s.sent;
    WiderPool(env, view, first, s.sent, s'.sent, n');
    forall q | q in s'.nodes
      ensures NodeOk(env, view, first, s'.sent, s'.nodes[q]) && s'.nodes[q].local == q
    {
      if q != p {
        OthersOk(env, view, first, s, s'.sent, q);
      }
    }
    forall c | c in s'.sent && IsCommit(c)
      ensures exists h :: h in s'.nodes && HoldsEpoch(env, view, c.epoch, h) && s'.nodes[h].epoch > c.epoch
    {
      var h :| h in s.nodes && HoldsEpoch(env, view, c.epoch, h) && s.nodes[h].epoch > c.epoch;
      assert s'.nodes[h].epoch > c.epoch;
    }
  }

  lemma IssuedOutgoing(env: Env, view: seq<PeerId>, first: nat, pool: set<Envelope>, n: Node, n': Node, e: Envelope)
    requires Issues(env, view, first, pool, n, n', e)
    ensures e in Outgoing(n, n')
    ensures forall c :: c in Outgoing(n, n') ==> c == e || (!c.body.CommitBody? && BodySpares(Texts(env, view), c.body))
  {
    assert n'.outbox[|n.outbox|] == e;
  }

  /** A rival would mean the epoch's holder had already moved on. */
  lemma NoRival(env: Env, view: seq<PeerId>, s: System, p: PeerId, n': Node, c: Envelope)
    requires Issued(env, view, s) && p in s.nodes && HoldsEpoch(env, view, s.nodes[p].epoch, p)
    requires c in s.sent && IsCommit(c) && n'.epoch >= s.nodes[p].epoch
    ensures c.epoch != s.nodes[p].epoch
    ensures exists h :: h in s.nodes && HoldsEpoch(env, view, c.epoch, h) && s.nodes[p := n'][h].epoch > c.epoch
  {
    var h :| h in s.nodes && HoldsEpoch(env, view, c.epoch, h) && s.nodes[h].epoch > c.epoch;
    assert s.nodes[p := n'][h].epoch > c.epoch;
  }

  /** A commit from the epoch's holder keeps the record of issued commits. */
  lemma IssueKeepsIssued(env: Env, view: seq<PeerId>, s: System, p: PeerId, n': Node, e: Envelope, out: set<Envelope>)
    requires Issued(env, view, s) && p in s.nodes && HoldsEpoch(env, view, s.nodes[p].epoch, p)
    requires IsCommit(e) && e.epoch == s.nodes[p].epoch && n'.epoch > e.epoch
    requires e in out && forall c :: c in out && IsCommit(c) ==> c == e
    ensures Issued(env, view, System(s.nodes[p := n'], s.sent + out))
  {
    hide HoldsEpoch;
    var s' := System(s.nodes[p := n'], s.sent + out);
    forall c | c in s.sent && IsCommit(c)
      ensures c.epoch != e.epoch
      ensures exists h :: h in s'.nodes && HoldsEpoch(env, view, c.epoch, h) && s'.nodes[h].epoch > c.epoch
    {
      NoRival(env, view, s, p, n', c);
    }
    assert p in s'.nodes && HoldsEpoch(env, view, e.epoch, p) && s'.nodes[p].epoch > e.epoch;
  }

  /** A commit from the epoch's holder keeps the invariant too. */
  lemma IssueKeeps(env: Env, view: seq<PeerId>, first: nat, s: System, p: PeerId, n': Node, e: Envelope)
    requires Invariant(env, view, first, s) && p in s.nodes
    requires HoldsEpoch(env, view, s.nodes[p].epoch, p) && Issues(env, view, first, s.sent, s.nodes[p], n', e)
    ensures Invariant(env, view, first, System(s.nodes[p := n'], s.sent + Outgoing(s.nodes[p], n')))
  {
    hide NodeOk, HoldsEpoch, Issued, Outgoing;
    var out := Outgoing(s.nodes[p], n');
    IssuedOutgoing(env, view, first, s.sent, s.nodes[p], n', e);
    WiderPool(env, view, first, s.sent + {e}, s.sent + out, n');
    IssueKeepsIssued(env, view, s, p, n', e, out);
    forall q | q in s.nodes && q != p
      ensures NodeOk(env, view, first, s.sent + out, s.nodes[q]) && s.nodes[q].local == q
    {
      OthersOk(env, view, first, s, s.sent + out, q);
    }
  }

  lemma ActionKeeps(env: Env, view: seq<PeerId>, first: nat, s: System, a: Action)
    requires Setting(env, view) && Invariant(env, view, first, s) && Permitted(env, view, s, a)
    ensures AllWellFormed(s) && Invariant(env, view, first, After(env, s, a))
  {
    hide Orderly, Issues, HoldsEpoch, Handle;
    ActionShape(env, view, first, s, a);
    var n' := Handle(env, s.nodes[a.at], a.event);
    if Orderly(env, view, first, s.sent, s.nodes[a.at], n') {
      OrderlyKeeps(env, view, first, s, a.at, n');
    } else {
      var e :| Issues(env, view, first, s.sent, s.nodes[a.at], n', e);
      IssueKeeps(env, view, first, s, a.at, n', e);
    }
  }

  /** A fresh group: every node at the same epoch with empty buffers, and nothing sent. */
  ghost predicate Initial(view: seq<PeerId>, first: nat, s: System) {
    && s.sent == {}
    && forall p :: p in s.nodes ==>
         var n := s.nodes[p];
         && n.local == p && n.members == view && n.epoch == first && n.writer == Fresh(first)
         && n.future == map[] && n.ops == [] && n.commits == [] && n.outbox == []
  }

  /** A run: each state follows from the one before by a permitted action. */
  ghost predicate IsRun(env: Env, view: seq<PeerId>, first: nat, states: seq<System>, actions: seq<Action>) {
    && |states| == |actions| + 1
    && Initial(view, first, states[0])
    && forall i :: 0 <= i < |actions| ==>
         && AllWellFormed(states[i]) && Permitted(env, view, states[i], actions[i])
         && states[i + 1] == After(env, states[i], actions[i])
  }

  lemma InitialInvariant(env: Env, view: seq<PeerId>, first: nat, s: System)
    requires Initial(view, first, s)
    ensures Invariant(env, view, first, s)
  {
    forall p | p in s.nodes
      ensures NodeOk(env, view, first, s.sent, s.nodes[p])
    {
      assert Held(s.nodes[p]) == {};
    }
  }

  lemma {:induction false} RunKeeps(env: Env, view: seq<PeerId>, first: nat, states: seq<System>, actions: seq<Action>,
                                    k: nat)
    requires Setting(env, view) && IsRun(env, view, first, states, actions) && k <= |actions|
    ensures Invariant(env, view, first, states[k])
    decreases k
  {
    hide Invariant, After, Initial;
    if k == 0 {
      InitialInvariant(env, view, first, states[0]);
    } else {
      RunKeeps(env, view, first, states, actions, k - 1);
      ActionKeeps(env, view, first, states[k - 1], actions[k - 1]);
      assert states[k - 1 + 1] == After(env, states[k - 1], actions[k - 1]);
    }
  }

  /**
    * No forks. In every state of every run at most one commit exists per epoch, and of any two
    * nodes' commit logs one is a prefix of the other.
    */
  lemma NoForks(env: Env, view: seq<PeerId>, first: nat, states: seq<System>, actions: seq<Action>, k: nat)
    requires Setting(env, view) && IsRun(env, view, first, states, actions) && k < |states|
    ensures forall c, d ::
              c in states[k].sent && d in states[k].sent && IsCommit(c) && IsCommit(d) && c.epoch == d.epoch ==> c == d
    ensures forall p, q :: p in states[k].nodes && q in states[k].nodes ==>
              states[k].nodes[p].commits <= states[k].nodes[q].commits
                || states[k].nodes[q].commits <= states[k].nodes[p].commits
  {
    var s := states[k];
    RunKeeps(env, view, first, states, actions, k);
    forall p, q | p in s.nodes && q in s.nodes
      ensures s.nodes[p].commits <= s.nodes[q].commits || s.nodes[q].commits <= s.nodes[p].commits
    {
      var a, b := s.nodes[p], s.nodes[q];
      assert NodeOk(env, view, first, s.sent, a) && NodeOk(env, view, first, s.sent, b);
      LogsComparable(first, s.sent, a, b);
    }
  }

  lemma LogsComparable(first: nat, sent: set<Envelope>, a: Node, b: Node)
    requires CommitLog(first, sent, a) && CommitLog(first, sent, b)
    requires forall c, d :: c in sent && d in sent && IsCommit(c) && IsCommit(d) && c.epoch == d.epoch ==> c == d
    ensures a.commits <= b.commits || b.commits <= a.commits
  {
    forall j | 0 <= j < |a.commits| && j < |b.commits|
      ensures a.commits[j] == b.commits[j]
    {
    }
  }
}
