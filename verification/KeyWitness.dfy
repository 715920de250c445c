/**
  * A concrete call after which a settled add still holds its key although the last committed change removed the peer.
  */
module KeyWitness {
  import opened Bytes
  import opened Types
  import opened Election
  import opened SingleWriter
  import opened EpochTracker
  import opened HybridClock
  import opened Operations
  import opened Coordinator
  import NodeRuns
  import opened ReleasedChain
  import opened StaleKeys
  import R = OperationRuns
  import CrashWitness

  /** MLS accepts every commit and makes no proposals; the two envelopes have different hashes. */
  function Setup(): Env {
    Env(Group([], x => [], p => "", None), CrashWitness.Engine(), (e: Envelope) => [(e.epoch % 256) as byte],
        s => NO_PEER, s => [], 10, 0, 0, 5, false)
  }

  /** Epoch 5 delivers the add op1 of "t"; epoch 6 removes "t". */
  const ADDS: CommitMsg := CommitMsg([5], [], [AddDelivery("op1", "t", "", "", "", [], [])], [], [])
  const REMOVES: CommitMsg := CommitMsg([6], [], [], [ProposalMsg(Remove, [], [], "op2", "t", [], "", "", "", [])], [])

  function Sent(epoch: nat, c: CommitMsg): Envelope {
    Envelope([], epoch, "", Timestamp(0, 0, []), CommitBody(Some(c)))
  }

  const PROPOSED: Operation :=
    Operation("op1", AddMember, Some("k"), [], Some(5), Some("t"), [], [], Proposed, 0, None, None)

  /** A node at epoch 5 with the add proposed and the later commit already waiting. */
  function Before(): Node {
    Node([], [], Live, 5, [1], [], [], None, map[], map[6 := [Sent(6, REMOVES)]], Fresh(5), {}, ZERO, 0, {}, [], [],
         map[], [PROPOSED], [])
  }

  lemma StartsFresh()
    ensures WellFormed(Before()) && NoStale(Before(), "t")
    ensures R.Consistent(ADDS, Before().ops) && R.Consistent(REMOVES, Before().ops)
  {
  }

  /** The node once the first commit is recorded, and once both are. */
  function First(): Node {
    Advanced(Setup(), Before(), Sent(5, ADDS), ADDS.commitData, [1], [])
  }

  function Second(): Node {
    Advanced(Setup(), First(), Sent(6, REMOVES), REMOVES.commitData, [1], [])
  }

  lemma BothAccepted()
    ensures Examine(Setup(), Before(), Sent(5, ADDS), ADDS) == Accept([1], [])
    ensures Examine(Setup(), First(), Sent(6, REMOVES), REMOVES) == Accept([1], [])
    ensures Queue(Before().future, 6) == [Sent(6, REMOVES)] && Queue(First().future, 7) == []
    ensures First().epoch == 6 && Second().epoch == 7 && WellFormed(First()) && WellFormed(Second())
    ensures Second().commits == [Sent(5, ADDS), Sent(6, REMOVES)] && Second().ops == [PROPOSED] && Second().now == 0
  {
    assert Setup().envelopeHash(Sent(5, ADDS)) == [5] && Setup().envelopeHash(Sent(6, REMOVES)) == [6];
    assert First().applied == {[5]};
  }

  /** The later commit, reconciled first, leaves the add open: it is rebased, and no proposal can be made. */
  lemma RemovalFirst()
    ensures var r := HandleCommit(Setup(), First(), Sent(6, REMOVES)).0;
            && WellFormed(First()) && WellFormed(r) && r.commits == [Sent(5, ADDS), Sent(6, REMOVES)] && r.epoch == 7
            && r.now == 0
            && r.ops ==
                 [PROPOSED.(retryCount := 1, preconditionEpoch := Some(7), lastError := Some("re-proposal failed"))]
  {
    BothAccepted();
    hide Examine, Advanced;
    var env, e := Setup(), Sent(6, REMOVES);
    var drained := AdvanceAndDrain(env, First(), e, REMOVES.commitData, [1], []);
    assert drained == Second();
    assert HandleCommit(env, First(), e).0 == Reconcile(env, WithoutCommitted(drained, REMOVES), REMOVES);
    OpenRebased(WithoutCommitted(drained, REMOVES));
  }

  lemma OpenRebased(n: Node)
    requires WellFormed(n) && n.ops == [PROPOSED] && n.epoch == 7 && n.now == 0
    ensures Reconcile(Setup(), n, REMOVES).ops ==
            [PROPOSED.(retryCount := 1, preconditionEpoch := Some(7), lastError := Some("re-proposal failed"))]
  {
    var env := Setup();
    var n1 := n.(ops := ObservedAll(n.ops, REMOVES));
    assert n1.ops == [PROPOSED] by {
      assert n1.ops[0] == AfterCommit(PROPOSED, REMOVES);
      assert REMOVES.deliveries == [];
    }
    assert Decide(PROPOSED, 7, 0, 5, false) == Repropose(PROPOSED.(retryCount := 1, preconditionEpoch := Some(7)));
    var n2 := RebaseOne(env, n1, 0);
    assert RebaseFrom(env, n1, 0) == RebaseFrom(env, n2, 1) == n2;
  }

  /** The earlier commit, reconciled last, settles it. */
  lemma AddLast(n: Node)
    requires WellFormed(n) && n.epoch == 7 && n.now == 0
    requires n.ops ==
               [PROPOSED.(retryCount := 1, preconditionEpoch := Some(7), lastError := Some("re-proposal failed"))]
    ensures Reconcile(Setup(), n, ADDS).ops == [n.ops[0].(status := Committed)]
  {
    var env := Setup();
    var n1 := n.(ops := ObservedAll(n.ops, ADDS));
    assert n1.ops == [n.ops[0].(status := Committed)] by {
      assert n1.ops[0] == AfterCommit(n.ops[0], ADDS);
      assert ADDS.deliveries[0].operationId == "op1";
      assert SettledByDeliveries(n.ops[0], ADDS.deliveries) == Committed;
      assert ADDS.included == [];
    }
    assert RebaseFrom(env, n1, 0) == RebaseFrom(env, RebaseOne(env, n1, 0), 1) == n1;
  }

  /**
    * One delivery from a fresh state: both commits are applied in order, the last
    * change of "t" is its removal, and yet the add is COMMITTED and holds its key.
    */
  lemma DrainLeavesKey()
    ensures WellFormed(Before()) && NoStale(Before(), "t")
    ensures var r := HandleCommit(Setup(), Before(), Sent(5, ADDS)).0;
            && r.commits == [Sent(5, ADDS), Sent(6, REMOVES)] && Direction(r, "t").Removed?
            && |r.ops| == 1 && r.ops[0].status == Committed && r.ops[0].idempotencyKey == Some("k") && !NoStale(r, "t")
  {
    hide Examine, Advanced, Reconcile, NoStale, WellFormed, Drain, HandleCommit, Before, First, Direction;
    StartsFresh();
    ReleasesSecond();
    RemovalFirst();
    var drained := HandleCommit(Setup(), First(), Sent(6, REMOVES)).0;
    AddLast(WithoutCommitted(drained, ADDS));
    var r := Reconcile(Setup(), WithoutCommitted(drained, ADDS), ADDS);
    RemovedLast(r);
    StaleAdd(r);
  }

  /** The delivery of the first commit by a peer. */
  const DELIVERY: NodeRuns.Event := NodeRuns.Deliver([1], Sent(5, ADDS))

  lemma Delivered()
    ensures WellFormed(Before())
    ensures NodeRuns.Handle(Setup(), Before(), DELIVERY) == HandleCommit(Setup(), Before(), Sent(5, ADDS)).0
  {
    StartsFresh();
    hide HandleCommit;
  }

  /** An add asks MLS nothing, so nothing is assumed of its answers. */
  lemma AnswersAnything(n: Node, e: Envelope)
    ensures Inside(Setup(), n, "t", None) && Steady(Setup(), None) && Honest(Setup(), e, "t", None)
  {
  }

  /** At this call every hypothesis of the stale-key theorem holds, and its condition singles the call out. */
  lemma WitnessOvertakes()
    ensures WellFormed(Before()) && NoStale(Before(), "t")
    ensures Answered(Setup(), Before(), "t") && Sincere(Setup(), Before(), DELIVERY, "t")
    ensures Overtakes(Setup(), Before(), DELIVERY, "t") && !NoStale(NodeRuns.Handle(Setup(), Before(), DELIVERY), "t")
  {
    hide NodeRuns.Handle, HandleCommit, WellFormed, NoStale, AppliedBy, Overtakes, Inside, Steady, Honest;
    hide R.Consistent, Setup, ADDS, REMOVES;
    StartsFresh();
    DrainLeavesKey();
    Delivered();
    var env, n := Setup(), Before();
    AppliedGrows(env, n, DELIVERY);
    assert AppliedBy(env, n, DELIVERY) == [Sent(5, ADDS), Sent(6, REMOVES)];
    AnswersAnything(n, Sent(5, ADDS));
    AnswersAnything(n, Sent(6, REMOVES));
    EventExact(env, n, DELIVERY, "t");
  }

  /** The first commit releases the second, and is reconciled after it. */
  lemma ReleasesSecond()
    ensures WellFormed(Before()) && WellFormed(First())
    ensures var drained := HandleCommit(Setup(), First(), Sent(6, REMOVES)).0;
            && WellFormed(drained)
            && HandleCommit(Setup(), Before(), Sent(5, ADDS)).0 ==
                 Reconcile(Setup(), WithoutCommitted(drained, ADDS), ADDS)
  {
    StartsFresh();
    BothAccepted();
    hide Examine, Advanced, Reconcile, WithoutCommitted, First, WellFormed;
    var env, e, q := Setup(), Sent(5, ADDS), [Sent(6, REMOVES)];
    assert AdvanceAndDrain(env, Before(), e, ADDS.commitData, [1], []) ==
             Drain(env, First(), q) by { AdvancesToFirst(); }
    DrainsOne(env, First(), q[0]);
  }

  lemma AdvancesToFirst()
    ensures WellFormed(Before()) && WellFormed(First()) && Sent(6, REMOVES).epoch <= First().epoch
    ensures AdvanceAndDrain(Setup(), Before(), Sent(5, ADDS), ADDS.commitData, [1], []) ==
              Drain(Setup(), First(), [Sent(6, REMOVES)])
  {
    StartsFresh();
    BothAccepted();
    hide Advanced, Drain;
  }

  lemma DrainsOne(env: Env, n: Node, e: Envelope)
    requires WellFormed(n) && e.epoch <= n.epoch && e.body.CommitBody?
    ensures Drain(env, n, [e]) == HandleCommit(env, n, e).0
  {
    hide HandleCommit;
    assert [e][1..] == [];
  }

  lemma StaleAdd(r: Node)
    requires |r.ops| == 1 && r.ops[0].kind.AddMember? && R.For(r.ops[0], "t") && r.ops[0].status == Committed
    requires Direction(r, "t").Removed?
    ensures !NoStale(r, "t")
  {
    hide Direction;
    assert R.Stale(r.ops[0], Direction(r, "t"));
  }

  lemma RemovedLast(r: Node)
    requires r.commits == [Sent(5, ADDS), Sent(6, REMOVES)]
    ensures Direction(r, "t").Removed?
  {
    assert REMOVES.included[0].target == "t";
    assert RemovesTarget(REMOVES, "t") && !AddsTarget(REMOVES, "t");
  }
}
