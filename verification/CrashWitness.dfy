/** Two nodes with one log, one of which died between the two writes: a history reply calls them forked. */
module CrashWitness {
  import opened Bytes
  import opened Types
  import opened Election
  import opened SingleWriter
  import opened EpochTracker
  import opened HybridClock
  import opened Coordinator
  import opened NodeRuns
  import opened ReleasedChain
  import opened Ledger

  /** MLS accepts every commit. */
  function Engine(): Mls {
    Mls((s, d, r) => Some([]), (s, d, r) => Some(([1], [])), (s, d) => None, (s, k, d) => None, (s, r) => None,
        (s, d) => None, (s, d) => None, (s, i) => None)
  }

  /** The identity stands for the hash function, so that no two inputs collide. */
  function Setup(): Env {
    Env(Group([], x => x, p => "", None), Engine(), (e: Envelope) => [], s => NO_PEER, s => [], 10, 0, 0, 5, false)
  }

  const COMMIT: CommitMsg := CommitMsg([7], [], [], [], [])
  const SENT: Envelope := Envelope([], 5, "", Timestamp(0, 0, []), CommitBody(Some(COMMIT)))
  const DELIVERY: Event := Deliver([1], SENT)

  /** A node at epoch 5 with the initial link stored and nothing waiting. */
  function Before(): Node {
    Node([], [], Live, 5, [1], [], [], Some(HISTORY_LABEL), map[5 := HISTORY_LABEL], map[], Fresh(5), {}, ZERO, 0, {},
         [], [], map[], [], [])
  }

  lemma Starts()
    ensures WellFormed(Before()) && Chained(Setup(), 5, HISTORY_LABEL, Before()) && Rooted(Before())
    ensures InitialHistory(Setup()) == HISTORY_LABEL
  {
    assert HISTORY_LABEL + [] == HISTORY_LABEL;
  }

  /** The commit is applied, and its link is not the initial one. */
  lemma Applies()
    ensures WellFormed(Before())
    ensures FirstCommit(Setup(), Before(), DELIVERY) == Some(Applying(Before(), SENT, COMMIT, [1], [], true))
    ensures Severs(Setup(), Before(), Crash(DELIVERY, false)) && !Severs(Setup(), Before(), DELIVERY)
  {
    Starts();
    assert CommitHash(Setup(), [7]) == [7];
    assert |NextHistory(Setup(), HISTORY_LABEL, [7])| == |HISTORY_LABEL| + 1;
  }

  /**
    * The peer applies the commit; the node applies it and dies before
    * its link is stored. Their logs agree, the verdict does not.
    */
  lemma SameLogForked()
    ensures WellFormed(Before())
    ensures var peer, node := Handle(Setup(), Before(), DELIVERY), Handle(Setup(), Before(), Crash(DELIVERY, false));
            && peer.commits == node.commits == [SENT] && peer.epoch == node.epoch == 6
            && JudgeReply(node, 6, HistoryReply(peer, 6)) == Forked
  {
    Starts();
    Applies();
    hide Handle, FirstCommit, InitialHistory, NextHistory, CommitHash, Setup, Released, Severs, SameUpTo;
    var env, n, crash := Setup(), Before(), Crash(DELIVERY, false);
    AppliedGrows(env, n, DELIVERY);
    AppliedGrows(env, n, crash);
    NoneWaiting(env, Begun(env, FirstCommit(env, n, DELIVERY).value));
    EventLedger(env, 5, HISTORY_LABEL, n, DELIVERY);
    CrashEpoch(env, n);
    ForkedAfterCrash(env, 5, HISTORY_LABEL, n, crash, Handle(env, n, DELIVERY));
  }

  lemma NoneWaiting(env: Env, n: Node)
    requires WellFormed(n)
    ensures Released(env, n, []) == []
  {
  }

  lemma CrashEpoch(env: Env, n: Node)
    requires WellFormed(n) && FirstCommit(env, n, DELIVERY) == Some(Applying(n, SENT, COMMIT, [1], [], true))
    ensures Handle(env, n, Crash(DELIVERY, false)).epoch == n.epoch + 1
  {
    hide FirstCommit;
  }
}
