/**
  * Messages that come before their epoch: none is lost, and each
  * gets its turn, in arrival order, when the epoch is reached.
  */
module EarlyMessages {
  import opened Bytes
  import opened Sorting
  import opened Types
  import opened SingleWriter
  import opened EpochTracker
  import opened Agreement
  import opened HybridClock
  import opened Operations
  import opened Coordinator
  import opened NodeRuns
  import opened ReleasedChain
  import opened Admission
  import opened Proposals

  // ----- putting aside -----

  /** An envelope for a later epoch that is worth keeping; `replayed` says that it came by replay and not live. */
  ghost predicate Early(env: Env, n: Node, e: Envelope, replayed: bool) {
    && e.epoch > n.epoch && e.group == env.group.id && e.ts.wall <= n.now + 300000
    && match e.body
       case ProposalBody(m) => !replayed && m.Some? && !m.value.kind.Join? && n.groupState != []
       case CommitBody(_) => replayed ==> env.envelopeHash(e) !in n.applied
       case ApplicationBody(_) => env.envelopeHash(e) !in n.applied
       case OtherBody => false
  }

  /** The envelope that an event puts aside, if any. */
  ghost function Aside(env: Env, n: Node, ev: Event): Option<Envelope> {
    match ev
    case Deliver(from, e) => if from != n.local && n.mode.Live? && Early(env, n, e, false) then Some(e) else None
    case Resync(e) => if Early(env, n, e, true) then Some(e) else None
    case _ => None
  }

  ghost function Kept(n: Node, e: Envelope): Node {
    n.(future := n.future[e.epoch := (if e.epoch in n.future then n.future[e.epoch] else []) + [e]])
  }

  /** An early message goes to the end of the queue of its epoch, and nothing else happens. */
  lemma AsideKept(env: Env, n: Node, ev: Event)
    requires WellFormed(n) && Aside(env, n, ev).Some?
    ensures Handle(env, n, ev) == Kept(n, Aside(env, n, ev).value)
  {
    hide WellFormed, HandleProposal, HandleCommit, HandleApplication;
    var e := Aside(env, n, ev).value;
    EarlyKept(env, n, e);
  }

  lemma EarlyKept(env: Env, n: Node, e: Envelope)
    requires WellFormed(n) && e.epoch > n.epoch
    ensures e.body.ProposalBody? && e.body.proposal.Some? && !e.body.proposal.value.kind.Join? && n.groupState != [] ==>
              HandleProposal(env, n, e) == Kept(n, e)
    ensures HandleCommit(env, n, e) == (Kept(n, e), false)
    ensures env.envelopeHash(e) !in n.applied ==> HandleApplication(env, n, e) == (Kept(n, e), Done(FutureEpoch))
  {
  }

  // ----- what a handled message does -----

  /**
    * An application message that its receiver can take: new, in the window, readable, with a stamp the clock accepts.
    */
  ghost predicate Deliverable(env: Env, s: Node, m: Envelope) {
    && m.body.ApplicationBody? && m.body.ciphertext.Some? && env.envelopeHash(m) !in s.applied
    && InWindow(env, s, m) && !DriftTooLarge(m.ts.wall, s.now)
    && env.mls.decrypt(s.groupState, m.body.ciphertext.value).Some?
    && env.mls.decrypt(s.groupState, m.body.ciphertext.value).value.1 != []
  }

  /** The clock takes note of a new message in the window as soon as it has a body, whether or not it can be read. */
  ghost predicate Heard(env: Env, s: Node, m: Envelope) {
    && m.body.ApplicationBody? && m.body.ciphertext.Some? && env.envelopeHash(m) !in s.applied
    && InWindow(env, s, m) && Merged(s.hlc, m.ts.wall, m.ts.counter, s.now, s.now).Some?
  }

  /** Of the current epoch, or of a recent one and not first seen too long ago. */
  ghost predicate InWindow(env: Env, s: Node, m: Envelope) {
    || m.epoch == s.epoch
    || (&& m.epoch < s.epoch && m.epoch + env.maxPastEpochs >= s.epoch
        && (env.maxPastAgeSeconds == 0 || SecondsSince(s, env.envelopeHash(m)) <= env.maxPastAgeSeconds))
  }

  ghost function SecondsSince(s: Node, hash: Bytes): int {
    if hash in s.firstSeen && 0 < s.firstSeen[hash] <= s.now then (s.now - s.firstSeen[hash]) / 1000 else 0
  }

  /** The logs only grow, the epoch does not fall, and what waits for a later epoch goes on waiting. */
  ghost predicate Onward(n: Node, r: Node) {
    && n.epoch <= r.epoch && n.delivered <= r.delivered && n.applied <= r.applied && n.outbox <= r.outbox
    && forall k: nat :: k > r.epoch ==> Queue(r.future, k) == Queue(n.future, k)
  }

  /** What the turn of a message does: a commit is applied if it is admissible, a message is delivered if it can be. */
  ghost predicate Treated(env: Env, s: Node, s': Node, m: Envelope) {
    && Onward(s, s')
    && match m.body
       case OtherBody => s' == s
       case ProposalBody(p) =>
         && s'.epoch == s.epoch && s'.delivered == s.delivered && s'.commits == s.commits
         && (p.Some? && !p.value.kind.Join? ==>
               if !Adoptable(env, s, m, p.value) then s' == s
               else
                 var done := env.mls.processProposal(s.groupState, p.value.data).value;
                 && s'.groupState == done.1
                 && s'.writer.proposals ==
                      Buffered(s.writer.proposals, FromMsg(p.value).(ref := done.0), env.cap))
       case CommitBody(_) =>
         StrictlySorted(Less, s.members) ==>
           && (Admissible(env, s, m) <==> s'.epoch > s.epoch)
           && if Admissible(env, s, m) then s.commits + [m] <= s'.commits
              else s'.commits == s.commits && s'.delivered == s.delivered
       case ApplicationBody(_) =>
         && s'.epoch == s.epoch && s'.commits == s.commits
         && (s'.hlc == if Heard(env, s, m) then Merged(s.hlc, m.ts.wall, m.ts.counter, s.now, s.now).value else s.hlc)
         && if Deliverable(env, s, m)
            then && s'.delivered == s.delivered + [m] && s'.applied == s.applied + {env.envelopeHash(m)}
                 && s'.groupState == env.mls.decrypt(s.groupState, m.body.ciphertext.value).value.1
                 && s'.firstSeen == if env.envelopeHash(m) in s.firstSeen then s.firstSeen
                                    else s.firstSeen[env.envelopeHash(m) := s.now]
            else && s'.delivered == s.delivered && s'.applied == s.applied && s'.groupState == s.groupState
                 && s'.firstSeen == s.firstSeen
  }

  // ----- nothing is lost on the way -----

  lemma OnwardTrans(a: Node, b: Node, c: Node)
    requires Onward(a, b) && Onward(b, c)
    ensures Onward(a, c)
  {
  }

  lemma SameOnward(n: Node, r: Node)
    requires SameCore(n, r) && r.future == n.future && n.outbox <= r.outbox
    ensures Onward(n, r)
  {
  }

  lemma ApplicationTreated(env: Env, n: Node, e: Envelope)
    requires e.epoch <= n.epoch && e.body.ApplicationBody?
    ensures Treated(env, n, HandleApplication(env, n, e).0, e)
  {
    hide Queue, Enqueued, ApplicationAction, InWindow, Merged, DriftTooLarge;
    WindowMeans(env, n, e);
    ClockAccepts(n, e);
  }

  lemma WindowMeans(env: Env, n: Node, e: Envelope)
    requires e.epoch <= n.epoch
    ensures ApplicationAction(env, n, e).Process? <==> InWindow(env, n, e)
    ensures !ApplicationAction(env, n, e).BufferFuture?
  {
  }

  lemma ClockAccepts(n: Node, e: Envelope)
    ensures Merged(n.hlc, e.ts.wall, e.ts.counter, n.now, n.now).Some? <==> !DriftTooLarge(e.ts.wall, n.now)
  {
  }

  lemma ProposalTreated(env: Env, n: Node, e: Envelope)
    requires e.epoch <= n.epoch && e.body.ProposalBody?
    ensures Treated(env, n, HandleProposal(env, n, e), e)
  {
    hide HandleProposal, Queue;
    var r := HandleProposal(env, n, e);
    assert Enqueued(n.future, n.epoch, e.epoch, e) == n.future;
    SameOnward(n, r);
    if e.body.proposal.Some? && !e.body.proposal.value.kind.Join? {
      AdoptedExactly(env, n, e, e.body.proposal.value);
    }
  }

  lemma BegunOnward(env: Env, p: Applying)
    requires WellFormed(p.at)
    ensures Onward(p.at, Begun(env, p)) && Begun(env, p).epoch == p.at.epoch + 1
    ensures env.envelopeHash(p.envelope) in Begun(env, p).applied
  {
    hide CommitHash, NextHistory, InitialHistory, Logged, Fresh;
  }

  lemma {:induction false} QueuedTreated(env: Env, n: Node, e: Envelope)
    requires WellFormed(n) && e.epoch <= n.epoch
    ensures Treated(env, n, HandleQueued(env, n, e), e)
    decreases Size(n.future), 3
  {
    hide HandleProposal, HandleApplication, HandleCommit, WellFormed, Treated, Size;
    match e.body
    case ProposalBody(_) => ProposalTreated(env, n, e);
    case ApplicationBody(_) => ApplicationTreated(env, n, e);
    case CommitBody(_) => CommitTreated(env, n, e);
    case OtherBody => OtherTreated(env, n, e);
  }

  lemma OtherTreated(env: Env, n: Node, e: Envelope)
    requires e.body.OtherBody?
    ensures Treated(env, n, n, e)
  {
  }

  lemma {:induction false} CommitTreated(env: Env, n: Node, e: Envelope)
    requires WellFormed(n) && e.epoch <= n.epoch && e.body.CommitBody?
    ensures Treated(env, n, HandleCommit(env, n, e).0, e)
    decreases Size(n.future), 2
  {
    hide HandleCommit, WellFormed, Receives, Finished, Size, Admissible, Onward, StrictlySorted;
    if StrictlySorted(Less, n.members) {
      AdmittedExactly(env, n, e);
    }
    ReceivedIsFinished(env, n, e);
    if Receives(env, n, e).Some? {
      ReceivedAt(env, n, e);
      FinishedOnward(env, Receives(env, n, e).value);
    } else {
      NotReceivedCommit(env, n, e);
    }
  }

  lemma NotReceivedCommit(env: Env, n: Node, e: Envelope)
    requires WellFormed(n) && e.epoch <= n.epoch && Receives(env, n, e).None?
    ensures var r := HandleCommit(env, n, e).0;
            Onward(n, r) && r.commits == n.commits && r.delivered == n.delivered && r.epoch == n.epoch
  {
    hide HandleCommit, WellFormed, Receives;
    ReceivedIsFinished(env, n, e);
    SameFuture(env, n, e);
  }

  lemma {:induction false} DrainOnward(env: Env, n: Node, queue: seq<Envelope>)
    requires WellFormed(n) && forall m :: m in queue ==> m.epoch <= n.epoch
    ensures Onward(n, Drain(env, n, queue))
    decreases Size(n.future) + |queue|, 0
  {
    hide HandleQueued, WellFormed, Size, Treated, Onward;
    if queue == [] {
      SameOnward(n, n);
    } else {
      var n1 := HandleQueued(env, n, queue[0]);
      QueuedTreated(env, n, queue[0]);
      TreatedOnward(env, n, n1, queue[0]);
      DrainOnward(env, n1, queue[1..]);
      OnwardTrans(n, n1, Drain(env, n, queue));
    }
  }

  lemma TreatedOnward(env: Env, n: Node, r: Node, m: Envelope)
    requires Treated(env, n, r, m)
    ensures Onward(n, r)
  {
    hide Onward;
  }

  lemma {:induction false} FinishedOnward(env: Env, p: Applying)
    requires WellFormed(p.at)
    ensures var r := Finished(env, p);
            && Onward(p.at, r) && r.epoch > p.at.epoch && p.at.commits + [p.envelope] <= r.commits
            && env.envelopeHash(p.envelope) in r.applied
    decreases Size(p.at.future), 1
  {
    hide Drain, Begun, Finished, WellFormed, Size, Queue, Onward, Released;
    var b, q := Begun(env, p), Queue(p.at.future, p.at.epoch + 1);
    BegunFits(env, p);
    BegunOnward(env, p);
    DrainOnward(env, b, q);
    DrainReleases(env, b, q);
    FinishedCommits(env, p);
    FinishedIsDrain(env, p);
    SameOnward(Drain(env, b, q), Finished(env, p));
    OnwardTrans(p.at, b, Drain(env, b, q));
    OnwardTrans(p.at, Drain(env, b, q), Finished(env, p));
    OnwardMeans(b, Drain(env, b, q));
  }

  lemma OnwardMeans(n: Node, r: Node)
    requires Onward(n, r)
    ensures n.applied <= r.applied && n.outbox <= r.outbox
  {
  }

  lemma FinishedIsDrain(env: Env, p: Applying)
    requires WellFormed(p.at)
    ensures WellFormed(Begun(env, p))
    ensures forall m :: m in Queue(p.at.future, p.at.epoch + 1) ==> m.epoch <= Begun(env, p).epoch
    ensures var d := Drain(env, Begun(env, p), Queue(p.at.future, p.at.epoch + 1));
            SameCore(d, Finished(env, p)) && Finished(env, p).future == d.future && d.outbox <= Finished(env, p).outbox
  {
    hide Drain, WithoutCommitted, Reconcile, Advanced, WellFormed, Pass;
    BegunFits(env, p);
    var d := Drain(env, Begun(env, p), Queue(p.at.future, p.at.epoch + 1));
    var base := if p.received then WithoutCommitted(d, p.commit) else d;
    var out := ReconcileSends(env, base, p.commit);
    assert Finished(env, p).outbox == base.outbox + out;
  }

  // ----- every message has its turn -----

  /** The messages of a queue, one after the other. */
  ghost predicate Turns(env: Env, q: seq<Envelope>, turns: seq<Node>) {
    |turns| == |q| + 1 && forall i :: 0 <= i < |q| ==> Treated(env, turns[i], turns[i + 1], q[i])
  }

  lemma TurnsMore(env: Env, n: Node, e: Envelope, q: seq<Envelope>, turns: seq<Node>)
    requires Turns(env, q, turns) && Treated(env, n, turns[0], e)
    ensures Turns(env, [e] + q, [n] + turns)
  {
    hide Treated;
    forall i | 0 <= i < |q| + 1
      ensures Treated(env, ([n] + turns)[i], ([n] + turns)[i + 1], ([e] + q)[i])
    {
      if i > 0 {
        assert Treated(env, turns[i - 1], turns[i - 1 + 1], q[i - 1]);
      }
    }
  }

  lemma {:induction false} DrainTurns(env: Env, n: Node, queue: seq<Envelope>) returns (turns: seq<Node>)
    requires WellFormed(n) && forall m :: m in queue ==> m.epoch <= n.epoch
    ensures Turns(env, queue, turns) && turns[0] == n && turns[|queue|] == Drain(env, n, queue)
    decreases |queue|
  {
    hide HandleQueued, WellFormed, Treated;
    if queue == [] {
      turns := [n];
    } else {
      var n1 := HandleQueued(env, n, queue[0]);
      QueuedTreated(env, n, queue[0]);
      var later := DrainTurns(env, n1, queue[1..]);
      TurnsMore(env, n, queue[0], queue[1..], later);
      assert [queue[0]] + queue[1..] == queue;
      turns := [n] + later;
    }
  }

  /** Between two states of a call the messages of epoch `k` had their turns, from the moment the epoch was reached. */
  ghost predicate HadTurns(env: Env, n: Node, r: Node, k: nat, turns: seq<Node>) {
    && Turns(env, Queue(n.future, k), turns) && turns[0].epoch == k
    && n.delivered <= turns[0].delivered && n.applied <= turns[0].applied
    && turns[|turns| - 1].delivered <= r.delivered && turns[|turns| - 1].applied <= r.applied
  }

  lemma HadTurnsWithin(env: Env, n: Node, a: Node, b: Node, r: Node, k: nat, turns: seq<Node>)
    requires Onward(n, a) && HadTurns(env, a, b, k, turns) && Onward(b, r) && Queue(n.future, k) == Queue(a.future, k)
    ensures HadTurns(env, n, r, k, turns)
  {
    hide Turns;
  }

  lemma {:induction false} FinishedTurns(env: Env, p: Applying, k: nat) returns (turns: seq<Node>)
    requires WellFormed(p.at) && p.at.epoch < k <= Finished(env, p).epoch
    ensures HadTurns(env, p.at, Finished(env, p), k, turns)
    decreases Size(p.at.future), 2
  {
    hide Drain, Begun, Finished, WellFormed, Size, Onward, HadTurns;
    var b, q, r := Begun(env, p), Queue(p.at.future, p.at.epoch + 1), Finished(env, p);
    BegunFits(env, p);
    BegunOnward(env, p);
    FinishedIsDrain(env, p);
    var d := Drain(env, b, q);
    SameOnward(d, r);
    if k == p.at.epoch + 1 {
      turns := DrainTurns(env, b, q);
      FirstTurns(env, p, turns);
    } else {
      turns := DrainLater(env, b, q, k);
      StillWaiting(p.at, b, k);
      HadTurnsWithin(env, p.at, b, d, r, k, turns);
    }
  }

  lemma StillWaiting(n: Node, r: Node, k: nat)
    requires Onward(n, r) && r.epoch < k
    ensures Queue(n.future, k) == Queue(r.future, k)
  {
  }

  lemma FirstTurns(env: Env, p: Applying, turns: seq<Node>)
    requires WellFormed(p.at) && WellFormed(Begun(env, p))
    requires var q := Queue(p.at.future, p.at.epoch + 1);
             && (forall m :: m in q ==> m.epoch <= Begun(env, p).epoch)
             && Turns(env, q, turns) && turns[0] == Begun(env, p) && turns[|q|] == Drain(env, Begun(env, p), q)
    ensures HadTurns(env, p.at, Finished(env, p), p.at.epoch + 1, turns)
  {
    hide Drain, Begun, Finished, WellFormed, Treated;
    BegunOnward(env, p);
    BegunFits(env, p);
    FinishedIsDrain(env, p);
  }

  lemma {:induction false} DrainLater(env: Env, n: Node, queue: seq<Envelope>, k: nat) returns (turns: seq<Node>)
    requires WellFormed(n) && (forall m :: m in queue ==> m.epoch <= n.epoch)
    requires n.epoch < k <= Drain(env, n, queue).epoch
    ensures HadTurns(env, n, Drain(env, n, queue), k, turns)
    decreases Size(n.future) + |queue|, 0
  {
    hide HandleQueued, WellFormed, Receives, Finished, Size, Onward, HadTurns, Queue;
    var n1, rest := HandleQueued(env, n, queue[0]), queue[1..];
    var p := Receives(env, n, queue[0]);
    DrainOnward(env, n1, rest);
    if p.Some? {
      ReceivedAt(env, n, queue[0]);
      FinishedOnward(env, p.value);
      LateEpoch(env, n1, rest);
      turns := FinishedTurns(env, p.value, k);
      SameOnward(n, n);
      HadTurnsWithin(env, n, n, n1, Drain(env, n1, rest), k, turns);
    } else {
      NotReceived(env, n, queue[0]);
      LowEpoch(env, n, queue[0]);
      turns := DrainLater(env, n1, rest, k);
      QueuedTreated(env, n, queue[0]);
      TreatedOnward(env, n, n1, queue[0]);
      SameOnward(Drain(env, n1, rest), Drain(env, n1, rest));
      HadTurnsWithin(env, n, n1, Drain(env, n1, rest), Drain(env, n1, rest), k, turns);
    }
  }

  lemma LowEpoch(env: Env, n: Node, e: Envelope)
    requires WellFormed(n) && e.epoch <= n.epoch && Receives(env, n, e).None?
    ensures HandleQueued(env, n, e).epoch == n.epoch
  {
    hide HandleQueued, Receives;
    MessageKeepsElectorate(env, n, e);
  }

  lemma {:induction false} LateEpoch(env: Env, n: Node, queue: seq<Envelope>)
    requires WellFormed(n) && forall m :: m in queue ==> m.epoch < n.epoch
    ensures Drain(env, n, queue).epoch == n.epoch
    decreases |queue|
  {
    hide HandleQueued, WellFormed;
    if queue != [] {
      LateMessage(env, n, queue[0]);
      LateEpoch(env, HandleQueued(env, n, queue[0]), queue[1..]);
    }
  }

  // ----- events -----

  /**
    * An event that raises the epoch to `k` or beyond hands every
    * message waiting for `k` to its handler, once, in order.
    */
  lemma EventTurns(env: Env, n: Node, ev: Event, k: nat) returns (turns: seq<Node>)
    requires WellFormed(n) && !ev.Crash? && n.epoch < k <= Handle(env, n, ev).epoch
    ensures HadTurns(env, n, Handle(env, n, ev), k, turns)
  {
    hide Handle, FirstCommit, Finished, WellFormed, Onward, HadTurns, Queue;
    if FirstCommit(env, n, ev).None? {
      QuietEpoch(env, n, ev);
      assert false;
    }
    var p := FirstCommit(env, n, ev).value;
    FirstCommitWellFormed(env, n, ev);
    HandledByCommit(env, n, ev);
    turns := FinishedTurns(env, p, k);
    SameOnward(n, p.at);
    FinishedOnward(env, p);
    SameOnward(Finished(env, p), Finished(env, p));
    HadTurnsWithin(env, n, p.at, Finished(env, p), Finished(env, p), k, turns);
  }

  lemma QuietEpoch(env: Env, n: Node, ev: Event)
    requires WellFormed(n) && !ev.Crash? && FirstCommit(env, n, ev).None?
    ensures Handle(env, n, ev).epoch == n.epoch
  {
    hide Handle, FirstCommit, InitialHistory, Submitted;
    if ev.Restart? || ev.Request? {
      Stored(env, n, ev);
    } else {
      HandledWithoutCommit(env, n, ev);
    }
  }

  /** Without a commit the queues change by what is put aside, and by nothing else. */
  lemma QuietQueues(env: Env, n: Node, ev: Event)
    requires WellFormed(n) && !ev.Crash? && !ev.Restart? && FirstCommit(env, n, ev).None? && Aside(env, n, ev).None?
    ensures Handle(env, n, ev).future == n.future
  {
    hide HandleProposal, HandleApplication, HandleCommit, CommitBatch, CommitOne, Prepares, Receives;
    hide Finished, WellFormed, IsTokenHolder, NextBatch, ViewReady, Propose, Submitted, Logged, Ticked;
    match ev
    case Deliver(_, e) => NotKept(env, n, e);
    case Resync(e) => NotKept(env, n, e);
    case CommitTimer(_) => PreparedIsFinished(env, n, NextBatch(n.writer.proposals, env.cap));
    case CommitAtOnce(kind, data, meta, graceOver) => AtOnceQueues(env, n, kind, data, meta, graceOver);
    case _ =>
  }

  lemma NotKept(env: Env, n: Node, e: Envelope)
    requires WellFormed(n)
    ensures e.body.ProposalBody?
              && (e.body.proposal.None? || e.body.proposal.value.kind.Join? || n.groupState == []) ==>
              HandleProposal(env, n, e).future == n.future
    ensures e.epoch <= n.epoch ==> HandleProposal(env, n, e).future == n.future
    ensures e.epoch <= n.epoch || env.envelopeHash(e) in n.applied ==> HandleApplication(env, n, e).0.future == n.future
    ensures e.epoch <= n.epoch && Receives(env, n, e).None? ==> HandleCommit(env, n, e).0.future == n.future
  {
    hide HandleCommit, Examine, Merged, Logged, AdoptProposal, HandleJoin, ApplicationAction;
    if e.epoch <= n.epoch && Receives(env, n, e).None? {
      SameFuture(env, n, e);
    }
  }

  lemma AtOnceQueues(env: Env, n: Node, kind: ProposalType, data: Bytes, meta: BufferedProposal, graceOver: bool)
    requires WellFormed(n) && FirstCommit(env, n, CommitAtOnce(kind, data, meta, graceOver)).None?
    ensures CommitOne(env, n, kind, data, meta, graceOver).future == n.future
  {
    hide FirstCommit, CommitOne, Prepares, CommitBatch, WellFormed, Finished, CreateLocal, WithProposal;
    var made := CreateLocal(env, n, kind, data, meta);
    CommitOneCases(env, n, kind, data, meta, graceOver);
    if made.Some? {
      ProposedLocally(env, n, kind, data, meta);
      PreparedIsFinished(env, WithProposal(env, made.value.0, made.value.1), [made.value.1]);
    }
  }

  lemma AsideAppliesNothing(env: Env, n: Node, ev: Event)
    requires Aside(env, n, ev).Some?
    ensures FirstCommit(env, n, ev).None?
  {
  }

  lemma EventQueues(env: Env, n: Node, ev: Event, k: nat)
    requires WellFormed(n) && !ev.Crash? && !ev.Restart? && Handle(env, n, ev).epoch < k
    ensures var e := Aside(env, n, ev);
            Queue(Handle(env, n, ev).future, k) ==
              Queue(n.future, k) + if e.Some? && e.value.epoch == k then [e.value] else []
    ensures n.epoch <= Handle(env, n, ev).epoch
  {
    hide Handle, FirstCommit, Finished, WellFormed, Onward, Aside;
    assert Queue(n.future, k) + [] == Queue(n.future, k);
    if Aside(env, n, ev).Some? {
      AsideKept(env, n, ev);
    } else if FirstCommit(env, n, ev).Some? {
      var p := FirstCommit(env, n, ev).value;
      FirstCommitWellFormed(env, n, ev);
      HandledByCommit(env, n, ev);
      FinishedOnward(env, p);
      StillWaiting(p.at, Finished(env, p), k);
    } else {
      QuietQueues(env, n, ev);
      QuietEpoch(env, n, ev);
    }
    if FirstCommit(env, n, ev).Some? && Aside(env, n, ev).Some? {
      AsideAppliesNothing(env, n, ev);
    }
  }

  // ----- every run -----

  ghost predicate Unbroken(events: seq<Event>) {
    forall i :: 0 <= i < |events| ==> !events[i].Crash? && !events[i].Restart?
  }

  /** The messages for epoch `k` that a run puts aside, in order of arrival. */
  ghost function Arrivals(env: Env, n: Node, events: seq<Event>, k: nat): seq<Envelope>
    requires WellFormed(n)
  {
    if events == [] then []
    else
      var init := events[..|events| - 1];
      var e := Aside(env, Run(env, n, init), events[|events| - 1]);
      Arrivals(env, n, init, k) + if e.Some? && e.value.epoch == k then [e.value] else []
  }

  /** Until its epoch is reached, a queue holds exactly what was put aside for it, in order of arrival. */
  lemma {:induction false} QueuesHold(env: Env, n: Node, events: seq<Event>, k: nat)
    requires WellFormed(n) && Unbroken(events) && Run(env, n, events).epoch < k
    ensures Queue(Run(env, n, events).future, k) == Queue(n.future, k) + Arrivals(env, n, events, k)
  {
    hide Handle, WellFormed, Aside, Queue;
    if events == [] {
      assert Queue(n.future, k) + [] == Queue(n.future, k);
    } else {
      var init, last := events[..|events| - 1], events[|events| - 1];
      assert forall i :: 0 <= i < |init| ==> init[i] == events[i];
      EventQueues(env, Run(env, n, init), last, k);
      QueuesHold(env, n, init, k);
    }
  }

  /** Then each of them has its turn, in the event that reaches the epoch. */
  lemma EarlyHaveTurns(env: Env, n: Node, events: seq<Event>, ev: Event, k: nat) returns (turns: seq<Node>)
    requires WellFormed(n) && Unbroken(events) && !ev.Crash?
    requires Run(env, n, events).epoch < k <= Handle(env, Run(env, n, events), ev).epoch
    ensures var at := Run(env, n, events);
            && Queue(at.future, k) == Queue(n.future, k) + Arrivals(env, n, events, k)
            && HadTurns(env, at, Handle(env, at, ev), k, turns)
  {
    hide Handle, WellFormed, Arrivals, HadTurns, Queue;
    QueuesHold(env, n, events, k);
    turns := EventTurns(env, Run(env, n, events), ev, k);
  }

  /** So a message that came early is delivered, if it can be at its turn. */
  lemma EarlyDelivered(env: Env, n: Node, events: seq<Event>, ev: Event, k: nat, i: nat) returns (s: Node)
    requires WellFormed(n) && Unbroken(events) && !ev.Crash?
    requires Run(env, n, events).epoch < k <= Handle(env, Run(env, n, events), ev).epoch
    requires i < |Queue(n.future, k) + Arrivals(env, n, events, k)|
    ensures var at, m := Run(env, n, events), (Queue(n.future, k) + Arrivals(env, n, events, k))[i];
            var r := Handle(env, at, ev);
            && s.epoch >= k && at.delivered <= s.delivered && at.applied <= s.applied && s.applied <= r.applied
            && (Deliverable(env, s, m) ==> m in r.delivered && env.envelopeHash(m) in r.applied)
  {
    hide Handle, WellFormed, Arrivals, Queue, Deliverable;
    var turns := EarlyHaveTurns(env, n, events, ev, k);
    s := turns[i];
    var q := Queue(Run(env, n, events).future, k);
    TurnsGrow(env, q, turns, 0, i);
    TurnsGrow(env, q, turns, i + 1, |q|);
    TurnsGrow(env, q, turns, i, |q|);
    if Deliverable(env, s, q[i]) {
      TurnDelivers(env, s, turns[i + 1], q[i]);
      assert q[i] in turns[|q|].delivered;
    }
  }

  lemma TurnDelivers(env: Env, s: Node, s': Node, m: Envelope)
    requires Treated(env, s, s', m) && Deliverable(env, s, m)
    ensures m in s'.delivered && env.envelopeHash(m) in s'.applied
  {
    assert s'.delivered[|s.delivered|] == m;
  }

  lemma {:induction false} TurnsGrow(env: Env, q: seq<Envelope>, turns: seq<Node>, i: nat, j: nat)
    requires Turns(env, q, turns) && i <= j <= |q|
    ensures turns[i].delivered <= turns[j].delivered && turns[i].applied <= turns[j].applied
    ensures turns[i].epoch <= turns[j].epoch
    decreases j - i
  {
    hide Treated;
    if i < j {
      TurnsGrow(env, q, turns, i, j - 1);
      assert Treated(env, turns[j - 1], turns[j - 1 + 1], q[j - 1]);
      TreatedOnward(env, turns[j - 1], turns[j], q[j - 1]);
    }
  }
}
