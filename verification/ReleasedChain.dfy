/** The commits that an event will apply, computed from the state before it. */
module ReleasedChain {
  import opened Bytes
  import opened Types
  import opened EpochTracker
  import opened Coordinator
  import opened NodeRuns

  /** A node just after the epoch change that begins a commit. */
  function Begun(env: Env, p: Applying): (r: Node)
    requires WellFormed(p.at)
    ensures WellFormed(r) && r.epoch == p.at.epoch + 1 && r.commits == p.at.commits + [p.envelope]
    ensures Size(p.at.future) == |Queue(p.at.future, p.at.epoch + 1)| + Size(r.future)
    ensures forall m :: m in Queue(p.at.future, p.at.epoch + 1) ==> m.epoch == r.epoch
  {
    AdvancedWellFormed(env, p.at, p.envelope, p.commit.commitData, p.state, p.treeHash);
    Advanced(env, p.at, p.envelope, p.commit.commitData, p.state, p.treeHash)
  }

  /**
    * The commits that a queue of waiting messages releases: the first one that is accepted, and what waits behind it
    * in turn. The messages before it are handled first; those after it are behind by then. Nothing is reconciled.
    */
  function Released(env: Env, n: Node, queue: seq<Envelope>): seq<Envelope>
    requires WellFormed(n) && forall m :: m in queue ==> m.epoch <= n.epoch
    decreases Size(n.future) + |queue|
  {
    hide Examine, HandleCommit, HandleProposal, HandleApplication;
    if queue == [] then []
    else
      var p := Receives(env, n, queue[0]);
      if p.Some? then
        [queue[0]] + Released(env, Begun(env, p.value), Queue(n.future, n.epoch + 1))
      else
        Released(env, HandleQueued(env, n, queue[0]), queue[1..])
  }

  /**
    * The commits an event applies, in log order: the first one,
    * and what it releases unless the process dies before that.
    */
  function AppliedBy(env: Env, n: Node, ev: Event): seq<Envelope>
    requires WellFormed(n)
  {
    FirstCommitWellFormed(env, n, if ev.Crash? then ev.during else ev);
    var p := FirstCommit(env, n, if ev.Crash? then ev.during else ev);
    if p.None? then []
    else if ev.Crash? then [p.value.envelope]
    else [p.value.envelope] + Released(env, Begun(env, p.value), Queue(n.future, n.epoch + 1))
  }

  // ----- it is what the event adds to the log -----

  /** Messages behind the node's epoch apply no commit. */
  lemma {:induction false} LateDrain(env: Env, n: Node, queue: seq<Envelope>)
    requires WellFormed(n) && forall m :: m in queue ==> m.epoch < n.epoch
    ensures Drain(env, n, queue).commits == n.commits
    decreases |queue|
  {
    hide HandleQueued, WellFormed;
    if queue != [] {
      LateMessage(env, n, queue[0]);
      LateDrain(env, HandleQueued(env, n, queue[0]), queue[1..]);
    }
  }

  lemma LateMessage(env: Env, n: Node, e: Envelope)
    requires WellFormed(n) && e.epoch < n.epoch
    ensures HandleQueued(env, n, e).commits == n.commits && HandleQueued(env, n, e).epoch == n.epoch
  {
    hide HandleProposal, HandleApplication, HandleCommit, WellFormed;
    MessagesMinor(env, n, e);
    ReceivedIsFinished(env, n, e);
  }

  lemma NotReceived(env: Env, n: Node, e: Envelope)
    requires WellFormed(n) && e.epoch <= n.epoch && Receives(env, n, e).None?
    ensures HandleQueued(env, n, e).commits == n.commits && HandleQueued(env, n, e).future == n.future
  {
    hide HandleProposal, HandleApplication, HandleCommit, Receives, WellFormed;
    MessagesMinor(env, n, e);
    ReceivedIsFinished(env, n, e);
    SameFuture(env, n, e);
  }

  lemma SameFuture(env: Env, n: Node, e: Envelope)
    requires WellFormed(n) && e.epoch <= n.epoch && Receives(env, n, e).None?
    ensures HandleProposal(env, n, e).future == n.future && HandleApplication(env, n, e).0.future == n.future
    ensures HandleCommit(env, n, e).0.future == n.future
  {
    hide HandleProposal, HandleApplication, Examine, AdvanceAndDrain, Reconcile, WithoutCommitted, WellFormed;
  }

  lemma FinishedCommits(env: Env, p: Applying)
    requires WellFormed(p.at)
    ensures Finished(env, p).commits == Drain(env, Begun(env, p), Queue(p.at.future, p.at.epoch + 1)).commits
    ensures Finished(env, p).epoch > p.at.epoch
  {
    hide Drain, WithoutCommitted, Reconcile, Advanced, WellFormed;
  }

  lemma {:induction false} DrainReleases(env: Env, n: Node, queue: seq<Envelope>)
    requires WellFormed(n) && forall m :: m in queue ==> m.epoch <= n.epoch
    ensures Drain(env, n, queue).commits == n.commits + Released(env, n, queue)
    decreases Size(n.future) + |queue|
  {
    hide HandleQueued, WellFormed, Receives, Finished, Begun, Size, Queue;
    if queue != [] {
      var p := Receives(env, n, queue[0]);
      if p.Some? {
        ReceivedAt(env, n, queue[0]);
        FinishedCommits(env, p.value);
        BegunFits(env, p.value);
        DrainReleases(env, Begun(env, p.value), Queue(n.future, n.epoch + 1));
        LateDrain(env, HandleQueued(env, n, queue[0]), queue[1..]);
      } else {
        NotReceived(env, n, queue[0]);
        DrainReleases(env, HandleQueued(env, n, queue[0]), queue[1..]);
      }
    }
  }

  lemma BegunFits(env: Env, p: Applying)
    requires WellFormed(p.at)
    ensures var r := Begun(env, p);
            && WellFormed(r) && r.epoch == p.at.epoch + 1 && r.commits == p.at.commits + [p.envelope]
            && Size(p.at.future) == |Queue(p.at.future, p.at.epoch + 1)| + Size(r.future)
            && forall m :: m in Queue(p.at.future, p.at.epoch + 1) ==> m.epoch == r.epoch
  {
  }

  lemma ReceivedAt(env: Env, n: Node, e: Envelope)
    requires WellFormed(n) && Receives(env, n, e).Some?
    ensures var p := Receives(env, n, e).value;
            p.at == n && p.envelope == e && e.epoch == n.epoch && HandleQueued(env, n, e) == Finished(env, p)
  {
    hide Examine, HandleCommit, Finished, WellFormed;
    ReceivedIsFinished(env, n, e);
  }

  /** The chain computed beforehand is what the event adds to the log. */
  lemma AppliedGrows(env: Env, n: Node, ev: Event)
    requires WellFormed(n)
    ensures Handle(env, n, ev).commits == n.commits + AppliedBy(env, n, ev)
  {
    hide Handle, FirstCommit, Finished, Begun, Released, WellFormed, Drain;
    var cause := if ev.Crash? then ev.during else ev;
    FirstCommitWellFormed(env, n, cause);
    var p := FirstCommit(env, n, cause);
    if ev.Crash? {
      CrashCommits(env, n, ev);
    } else if p.Some? {
      HandledByCommit(env, n, ev);
      FinishedCommits(env, p.value);
      BegunFits(env, p.value);
      DrainReleases(env, Begun(env, p.value), Queue(n.future, n.epoch + 1));
    } else {
      OtherCommits(env, n, ev);
    }
  }

  lemma CrashCommits(env: Env, n: Node, ev: Event)
    requires WellFormed(n) && ev.Crash?
    ensures var p := FirstCommit(env, n, ev.during);
            Handle(env, n, ev).commits == if p.Some? then n.commits + [p.value.envelope] else n.commits
  {
    hide FirstCommit, CommitHash, NextHistory, InitialHistory;
    FirstCommitWellFormed(env, n, ev.during);
  }

  lemma OtherCommits(env: Env, n: Node, ev: Event)
    requires WellFormed(n) && FirstCommit(env, n, ev).None? && !ev.Crash?
    ensures Handle(env, n, ev).commits == n.commits
  {
    hide FirstCommit, InitialHistory;
    if !ev.Restart? && !ev.Request? {
      HandledWithoutCommit(env, n, ev);
    }
  }

  // ----- all but the first were waiting -----

  lemma BegunHolds(env: Env, p: Applying)
    requires WellFormed(p.at)
    ensures Held(Begun(env, p)) <= Held(p.at)
    ensures forall m :: m in Queue(p.at.future, p.at.epoch + 1) ==> m in Held(p.at)
  {
    hide CommitHash, NextHistory, InitialHistory;
    var r := Begun(env, p);
    forall m | m in Held(r)
      ensures m in Held(p.at)
    {
      var k :| k in r.future && m in r.future[k];
      assert k in p.at.future && p.at.future[k] == r.future[k];
    }
    forall m | m in Queue(p.at.future, p.at.epoch + 1)
      ensures m in Held(p.at)
    {
    }
  }

  lemma ReleasedStep(env: Env, n: Node, queue: seq<Envelope>)
    requires WellFormed(n) && forall m :: m in queue ==> m.epoch <= n.epoch
    ensures queue == [] ==> Released(env, n, queue) == []
    ensures queue != [] ==>
              var p := Receives(env, n, queue[0]);
              if p.Some? then
                && p.value.at == n
                && Released(env, n, queue) ==
                     [queue[0]] + Released(env, Begun(env, p.value), Queue(n.future, n.epoch + 1))
              else
                Released(env, n, queue) == Released(env, HandleQueued(env, n, queue[0]), queue[1..])
  {
    hide HandleQueued, WellFormed, Begun, Examine;
  }

  lemma {:induction false} ReleasedWaited(env: Env, n: Node, queue: seq<Envelope>, e: Envelope)
    requires WellFormed(n) && (forall m :: m in queue ==> m.epoch <= n.epoch) && e in Released(env, n, queue)
    ensures e in queue || e in Held(n)
    decreases Size(n.future) + |queue|, 0
  {
    hide HandleQueued, WellFormed, Receives, Begun, Held, Released, Queue, Size;
    ReleasedStep(env, n, queue);
    if Receives(env, n, queue[0]).Some? {
      if e != queue[0] {
        WaitedBehind(env, n, queue[0], e);
      }
    } else {
      var n1 := HandleQueued(env, n, queue[0]);
      NotReceived(env, n, queue[0]);
      SameHeld(n, n1);
      ReleasedWaited(env, n1, queue[1..], e);
    }
  }

  /** What an accepted commit releases in turn. */
  lemma {:induction false} WaitedBehind(env: Env, n: Node, c: Envelope, e: Envelope)
    requires WellFormed(n) && Receives(env, n, c).Some? && Receives(env, n, c).value.at == n
    requires var r := Begun(env, Receives(env, n, c).value);
             e in Released(env, r, Queue(n.future, n.epoch + 1))
    ensures e in Held(n)
    decreases Size(n.future), 1
  {
    hide WellFormed, Receives, Begun, Held, Released, Queue, Size;
    var p := Receives(env, n, c).value;
    BegunFits(env, p);
    BegunHolds(env, p);
    ReleasedWaited(env, Begun(env, p), Queue(n.future, n.epoch + 1), e);
  }

  lemma SameHeld(n: Node, r: Node)
    requires r.future == n.future
    ensures Held(r) == Held(n)
  {
  }

  /** Every commit an event applies after the first was in the future buffer before it. */
  lemma AppliedWaited(env: Env, n: Node, ev: Event, i: nat)
    requires WellFormed(n) && 0 < i < |AppliedBy(env, n, ev)|
    ensures AppliedBy(env, n, ev)[i] in Held(n)
  {
    hide FirstCommit, Begun, Released, WellFormed, Held;
    FirstCommitWellFormed(env, n, ev);
    var p := FirstCommit(env, n, ev).value;
    BegunFits(env, p);
    BegunHolds(env, p);
    SameHeld(n, p.at);
    ReleasedWaited(env, Begun(env, p), Queue(n.future, n.epoch + 1), AppliedBy(env, n, ev)[i]);
  }
}
