/** What every run between heals keeps about a node's history: the hash chain, and each envelope applied once. */
module Ledger {
  import opened Bytes
  import opened Types
  import opened Coordinator
  import opened NodeRuns
  import opened Transitions

  function CommitData(e: Envelope): Bytes {
    if e.body.CommitBody? && e.body.commit.Some? then e.body.commit.value.commitData else []
  }

  // ----- the invariant -----

  /**
    * The chain covers exactly the epochs from `first` to the
    * current one, and links the logged commits from the anchor on.
    */
  ghost predicate Chained(env: Env, first: nat, anchor: Bytes, n: Node) {
    && n.epoch == first + |n.commits|
    && if n.historyHash.None? then n.chain == map[] && n.commits == [] && anchor == InitialHistory(env)
       else
         && (forall k :: k in n.chain <==> first <= k <= n.epoch)
         && n.chain[first] == anchor && n.chain[n.epoch] == n.historyHash.value
         && (forall k :: first <= k < n.epoch ==>
               n.chain[k + 1] == NextHistory(env, n.chain[k], CommitHash(env, CommitData(n.commits[k - first]))))
  }

  function Hashes(env: Env, log: seq<Envelope>): multiset<Bytes> {
    if log == [] then multiset{} else Hashes(env, log[..|log| - 1]) + multiset{env.envelopeHash(log[|log| - 1])}
  }

  /** The applied markers are the hashes of the applied envelopes, each counted once. */
  ghost predicate AppliedOnce(env: Env, n: Node) {
    Hashes(env, n.commits) + Hashes(env, n.delivered) == multiset(n.applied)
  }

  ghost predicate Kept(env: Env, first: nat, anchor: Bytes, n: Node) {
    Chained(env, first, anchor, n) && AppliedOnce(env, n)
  }

  // ----- elementary changes -----

  lemma HashesAppend(env: Env, log: seq<Envelope>, e: Envelope)
    ensures Hashes(env, log + [e]) == Hashes(env, log) + multiset{env.envelopeHash(e)}
  {
    assert (log + [e])[..|log|] == log;
  }

  lemma AdvancedChained(env: Env, first: nat, anchor: Bytes, n: Node, e: Envelope, state: Bytes, treeHash: Bytes)
    requires Chained(env, first, anchor, n)
    ensures Chained(env, first, anchor, Advanced(env, n, e, CommitData(e), state, treeHash))
  {
    hide NextHistory, CommitHash, InitialHistory, CommitData;
    var n' := Advanced(env, n, e, CommitData(e), state, treeHash);
    assert forall j :: 0 <= j < |n.commits| ==> n'.commits[j] == n.commits[j];
    assert n'.commits[n.epoch - first] == e;
  }

  lemma MarkOnce(applied: set<Bytes>, h: Bytes)
    requires h !in applied
    ensures multiset(applied + {h}) == multiset(applied) + multiset{h}
  {
  }

  /** A started node: the chain ends at the current epoch in the current history hash. */
  ghost predicate Rooted(n: Node) {
    n.historyHash.Some? && n.epoch in n.chain && n.chain[n.epoch] == n.historyHash.value
  }

  /** The log only grows, and the chain up to the old epoch stays as it is. */
  ghost predicate SamePast(n: Node, n': Node) {
    && n.epoch <= n'.epoch && n.commits <= n'.commits
    && forall k: nat ::
         k <= n.epoch ==> (k in n'.chain <==> k in n.chain) && (k in n.chain ==> n'.chain[k] == n.chain[k])
  }

  /** What a change carries over from before to after, whatever held before. */
  ghost predicate Carries(env: Env, first: nat, anchor: Bytes, n: Node, n': Node) {
    && n.epoch <= n'.epoch
    && (AppliedOnce(env, n) ==> AppliedOnce(env, n'))
    && (Chained(env, first, anchor, n) ==> Chained(env, first, anchor, n'))
    && (Rooted(n) ==> Rooted(n') && SamePast(n, n'))
  }

  lemma CarriesTrans(env: Env, first: nat, anchor: Bytes, a: Node, b: Node, c: Node)
    requires Carries(env, first, anchor, a, b) && Carries(env, first, anchor, b, c)
    ensures Carries(env, first, anchor, a, c)
  {
    hide AppliedOnce, Chained;
  }

  lemma SameLedger(env: Env, first: nat, anchor: Bytes, n: Node, n': Node)
    requires n'.epoch == n.epoch && n'.commits == n.commits && n'.chain == n.chain && n'.historyHash == n.historyHash
    requires n'.applied == n.applied && n'.delivered == n.delivered
    ensures Carries(env, first, anchor, n, n')
  {
  }

  lemma TakesCarries(env: Env, first: nat, anchor: Bytes, n: Node, n': Node, e: Envelope)
    requires n'.epoch == n.epoch && n'.commits == n.commits && n'.chain == n.chain && n'.historyHash == n.historyHash
    requires env.envelopeHash(e) !in n.applied
    requires n'.applied == n.applied + {env.envelopeHash(e)} && n'.delivered == n.delivered + [e]
    ensures Carries(env, first, anchor, n, n')
  {
    HashesAppend(env, n.delivered, e);
    MarkOnce(n.applied, env.envelopeHash(e));
  }

  lemma AdvancedCarries(env: Env, first: nat, anchor: Bytes, n: Node, e: Envelope, state: Bytes, treeHash: Bytes)
    requires env.envelopeHash(e) !in n.applied
    ensures Carries(env, first, anchor, n, Advanced(env, n, e, CommitData(e), state, treeHash))
  {
    hide Chained, AppliedOnce, Rooted, SamePast, CommitData, Advanced;
    if Chained(env, first, anchor, n) {
      AdvancedChained(env, first, anchor, n, e, state, treeHash);
    }
    AdvancedOnce(env, n, e, CommitData(e), state, treeHash);
    AdvancedRooted(env, n, e, CommitData(e), state, treeHash);
  }

  lemma AdvancedOnce(env: Env, n: Node, e: Envelope, data: Bytes, state: Bytes, treeHash: Bytes)
    requires env.envelopeHash(e) !in n.applied
    ensures AppliedOnce(env, n) ==> AppliedOnce(env, Advanced(env, n, e, data, state, treeHash))
  {
    hide CommitHash, NextHistory, InitialHistory;
    HashesAppend(env, n.commits, e);
    MarkOnce(n.applied, env.envelopeHash(e));
  }

  lemma AdvancedRooted(env: Env, n: Node, e: Envelope, data: Bytes, state: Bytes, treeHash: Bytes)
    ensures var r := Advanced(env, n, e, data, state, treeHash);
            n.epoch <= r.epoch && (Rooted(n) ==> Rooted(r) && SamePast(n, r))
  {
    hide CommitHash, NextHistory, InitialHistory;
  }

  lemma ElementaryCarries(env: Env, first: nat, anchor: Bytes, pool: set<Envelope>, n: Node, n': Node)
    requires Elementary(env, {}, pool, n, n')
    ensures Carries(env, first, anchor, n, n')
  {
    hide Carries, Examine, Advanced;
    if Quiet({}, n, n') || Rejects(n, n') {
      SameLedger(env, first, anchor, n, n');
    } else {
      var e :| e in pool && (Buffers(n, n', e) || Delivers(env, n, n', e) || Applies(env, n, n', e));
      if Buffers(n, n', e) || (Delivers(env, n, n', e) && n'.delivered == n.delivered) {
        SameLedger(env, first, anchor, n, n');
      } else if Delivers(env, n, n', e) {
        TakesCarries(env, first, anchor, n, n', e);
      } else {
        AcceptedIsNew(env, n, e);
        var verdict := Examine(env, n, e, e.body.commit.value);
        AdvancedCarries(env, first, anchor, n, e, verdict.state, verdict.treeHash);
      }
    }
  }

  lemma AcceptedIsNew(env: Env, n: Node, e: Envelope)
    requires e.body.CommitBody? && e.body.commit.Some? && Examine(env, n, e, e.body.commit.value).Accept?
    ensures env.envelopeHash(e) !in n.applied
  {
  }

  lemma {:induction false} PathCarries(env: Env, first: nat, anchor: Bytes, pool: set<Envelope>, path: seq<Node>,
                                       n: Node, n': Node)
    requires Leads(env, {}, pool, path, n, n')
    ensures Carries(env, first, anchor, n, n')
    decreases |path|
  {
    hide Carries, Elementary, Sound;
    if |path| == 1 {
      SameLedger(env, first, anchor, n, n');
    } else {
      var k := |path| - 1;
      PathCarries(env, first, anchor, pool, path[..k], n, path[k - 1]);
      assert Elementary(env, {}, pool, path[k - 1], path[k - 1 + 1]);
      ElementaryCarries(env, first, anchor, pool, path[k - 1], path[k]);
      CarriesTrans(env, first, anchor, n, path[k - 1], path[k]);
    }
  }

  // ----- every event -----

  lemma TriviallySound(n: Node, pool: set<Envelope>)
    requires WellFormed(n) && Held(n) <= pool
    ensures Sound({}, pool, n) && PoolSpares({}, pool)
  {
  }

  /** The epoch change that begins an applied commit. */
  ghost function Moved(env: Env, p: Applying): Node {
    Advanced(env, p.at, p.envelope, p.commit.commitData, p.state, p.treeHash)
  }

  /** From just after the epoch change to the end of the event. */
  lemma TailPath(env: Env, p: Applying) returns (pool: set<Envelope>, path: seq<Node>)
    requires WellFormed(p.at)
    ensures Leads(env, {}, pool, path, Moved(env, p), Finished(env, p))
  {
    hide AdvanceAndDrain, WithoutCommitted, Reconcile, Advanced, Leads, Sound, PoolSpares;
    pool := Held(p.at) + {p.envelope};
    TriviallySound(p.at, pool);
    var n1, n2 := Moved(env, p), AdvanceAndDrain(env, p.at, p.envelope, p.commit.commitData, p.state, p.treeHash);
    path := AfterAdvancePath(env, {}, pool, p.at, p.envelope, p.commit.commitData, p.state, p.treeHash);
    SoundAtEnd(env, {}, pool, path, n1, n2);
    if p.received {
      var q := WithoutCommittedPath(env, {}, pool, n2, p.commit);
      path := Concatenate(env, {}, pool, path, q, n1, n2, WithoutCommitted(n2, p.commit));
      n2 := WithoutCommitted(n2, p.commit);
      SoundAtEnd(env, {}, pool, path, n1, n2);
    }
    var q := ReconcilePath(env, {}, pool, n2, p.commit);
    path := Concatenate(env, {}, pool, path, q, n1, n2, Finished(env, p));
  }

  lemma MovedCarries(env: Env, first: nat, anchor: Bytes, n: Node, p: Applying)
    requires AppliesTo(env, n, p)
    ensures Carries(env, first, anchor, n, Moved(env, p))
  {
    hide Carries, Advanced;
    SameLedger(env, first, anchor, n, p.at);
    AdvancedCarries(env, first, anchor, p.at, p.envelope, p.state, p.treeHash);
    CarriesTrans(env, first, anchor, n, p.at, Moved(env, p));
  }

  lemma FinishedCarries(env: Env, first: nat, anchor: Bytes, n: Node, p: Applying)
    requires WellFormed(p.at) && AppliesTo(env, n, p)
    ensures Carries(env, first, anchor, n, Finished(env, p))
  {
    hide Carries, Finished, Moved, Leads;
    MovedCarries(env, first, anchor, n, p);
    var pool, path := TailPath(env, p);
    PathCarries(env, first, anchor, pool, path, Moved(env, p), Finished(env, p));
    CarriesTrans(env, first, anchor, n, Moved(env, p), Finished(env, p));
  }

  lemma MinorCarries(env: Env, first: nat, anchor: Bytes, n: Node, n': Node)
    requires Minor(env, n, n')
    ensures Carries(env, first, anchor, n, n')
  {
    hide Carries;
    if n'.applied == n.applied && n'.delivered == n.delivered {
      SameLedger(env, first, anchor, n, n');
    } else {
      var e :| Takes(env, n, n', e);
      TakesCarries(env, first, anchor, n, n', e);
    }
  }

  lemma RestartedCarries(env: Env, first: nat, anchor: Bytes, n: Node)
    ensures Carries(env, first, anchor, n, Restarted(env, n)) && Rooted(Restarted(env, n))
  {
    hide InitialHistory, NextHistory, CommitHash, CommitData;
  }

  /** Does the restart that follows find no entry of the stored epoch, and so root the chain again at the wrong hash? */
  ghost predicate Severs(env: Env, n: Node, ev: Event) {
    && ev.Crash? && !ev.persisted
    && var p := FirstCommit(env, n, ev.during);
    && p.Some?
    && (n.epoch in n.chain ==>
          NextHistory(env, n.chain[n.epoch], CommitHash(env, p.value.commit.commitData)) != InitialHistory(env))
  }

  /** The chain does not lead from epoch `k` to the next one by the logged commit. */
  ghost predicate BrokenAt(env: Env, first: nat, n: Node, k: nat) {
    && first <= k < first + |n.commits| && k < n.epoch
    && !(k in n.chain && k + 1 in n.chain
         && n.chain[k + 1] == NextHistory(env, n.chain[k], CommitHash(env, CommitData(n.commits[k - first]))))
  }

  lemma BrokenStays(env: Env, first: nat, anchor: Bytes, n: Node, n': Node, k: nat)
    requires BrokenAt(env, first, n, k) && SamePast(n, n')
    ensures BrokenAt(env, first, n', k) && !Chained(env, first, anchor, n')
  {
    hide NextHistory, CommitHash, CommitData;
    assert n'.commits[k - first] == n.commits[k - first];
  }

  /**
    * A record that is one commit ahead of its chain keeps the markers, but the chain only by a coincidence of hashes.
    */
  lemma RecordedRestart(env: Env, first: nat, anchor: Bytes, n: Node, e: Envelope, state: Bytes, treeHash: Bytes)
    requires env.envelopeHash(e) !in n.applied
    ensures var r := Restarted(env, Recorded(env, n, e, CommitData(e), state, treeHash));
            && (AppliedOnce(env, n) ==> AppliedOnce(env, r)) && Rooted(r) && SamePast(n, r)
            && (Chained(env, first, anchor, n) ==>
                  if n.epoch in n.chain
                       && NextHistory(env, n.chain[n.epoch], CommitHash(env, CommitData(e))) == InitialHistory(env)
                  then Chained(env, first, anchor, r) else BrokenAt(env, first, r, n.epoch))
  {
    hide Restarted, Recorded, Chained, BrokenAt, InitialHistory, NextHistory, CommitHash, CommitData;
    var r := Restarted(env, Recorded(env, n, e, CommitData(e), state, treeHash));
    RecordedLooks(env, n, e, CommitData(e), state, treeHash);
    HashesAppend(env, n.commits, e);
    MarkOnce(n.applied, env.envelopeHash(e));
    if Chained(env, first, anchor, n) {
      NothingAhead(env, first, anchor, n);
      Rerooted(env, first, anchor, n, r, e);
    }
  }

  lemma RecordedLooks(env: Env, n: Node, e: Envelope, data: Bytes, state: Bytes, treeHash: Bytes)
    ensures var r := Restarted(env, Recorded(env, n, e, data, state, treeHash));
            && r.epoch == n.epoch + 1 && r.commits == n.commits + [e] && r.delivered == n.delivered
            && r.applied == n.applied + {env.envelopeHash(e)}
            && r.chain == (if n.epoch + 1 in n.chain then n.chain else n.chain[n.epoch + 1 := InitialHistory(env)])
            && r.historyHash == Some(r.chain[n.epoch + 1])
  {
    hide InitialHistory, NextHistory, CommitHash;
  }

  lemma NothingAhead(env: Env, first: nat, anchor: Bytes, n: Node)
    requires Chained(env, first, anchor, n)
    ensures n.epoch + 1 !in n.chain
  {
  }

  lemma Rerooted(env: Env, first: nat, anchor: Bytes, n: Node, r: Node, e: Envelope)
    requires Chained(env, first, anchor, n)
    requires r.epoch == n.epoch + 1 && r.commits == n.commits + [e] && r.historyHash == Some(InitialHistory(env))
    requires r.chain == n.chain[n.epoch + 1 := InitialHistory(env)]
    ensures if n.epoch in n.chain
              && NextHistory(env, n.chain[n.epoch], CommitHash(env, CommitData(e))) == InitialHistory(env)
            then Chained(env, first, anchor, r) else BrokenAt(env, first, r, n.epoch)
  {
    hide InitialHistory, NextHistory, CommitHash, CommitData;
    assert r.commits[n.epoch - first] == e;
    assert forall j :: 0 <= j < |n.commits| ==> r.commits[j] == n.commits[j];
  }

  /** The same, for a crash during any event. */
  lemma CutShort(env: Env, first: nat, anchor: Bytes, n: Node, p: Applying)
    requires WellFormed(p.at) && AppliesTo(env, n, p)
    ensures var r := Restarted(env, Stopped(env, p, false));
            && (AppliedOnce(env, n) ==> AppliedOnce(env, r)) && Rooted(r) && SamePast(n, r)
            && (Chained(env, first, anchor, n) ==>
                  if n.epoch in n.chain
                       && NextHistory(env, n.chain[n.epoch], CommitHash(env, p.commit.commitData)) ==
                            InitialHistory(env)
                  then Chained(env, first, anchor, r) else BrokenAt(env, first, r, n.epoch))
  {
    hide Chained, AppliedOnce, Recorded, NextHistory, CommitHash, InitialHistory;
    ChainedAlike(env, first, anchor, n, p.at);
    RecordedRestart(env, first, anchor, p.at, p.envelope, p.state, p.treeHash);
  }

  lemma ChainedAlike(env: Env, first: nat, anchor: Bytes, n: Node, n': Node)
    requires SameCore(n, n')
    ensures Chained(env, first, anchor, n) <==> Chained(env, first, anchor, n')
    ensures AppliedOnce(env, n) <==> AppliedOnce(env, n')
  {
  }

  /** Every event keeps the markers and the past, and keeps the chain if and only if it does not sever it. */
  lemma EventLedger(env: Env, first: nat, anchor: Bytes, n: Node, ev: Event)
    requires WellFormed(n)
    ensures var r := Handle(env, n, ev);
            && n.epoch <= r.epoch && (AppliedOnce(env, n) ==> AppliedOnce(env, r))
            && (Rooted(n) ==> Rooted(r) && SamePast(n, r))
            && (Chained(env, first, anchor, n) ==>
                  if Severs(env, n, ev) then Rooted(r) && BrokenAt(env, first, r, n.epoch)
                     else Chained(env, first, anchor, r))
  {
    hide Handle, Chained, AppliedOnce, Restarted, Stopped, Finished, FirstCommit;
    hide Rooted, SamePast, BrokenAt, NextHistory, CommitHash, InitialHistory, CommitData;
    var r := Handle(env, n, ev);
    if ev.Crash? {
      CrashLedger(env, first, anchor, n, ev);
    } else if ev.Restart? {
      Stored(env, n, ev);
      RestartedCarries(env, first, anchor, n);
    } else if FirstCommit(env, n, ev).Some? {
      HandledByCommit(env, n, ev);
      FirstCommitWellFormed(env, n, ev);
      FinishedCarries(env, first, anchor, n, FirstCommit(env, n, ev).value);
    } else if ev.Request? {
      Stored(env, n, ev);
      SameLedger(env, first, anchor, n, r);
    } else {
      HandledWithoutCommit(env, n, ev);
      MinorCarries(env, first, anchor, n, r);
    }
  }

  lemma CrashLedger(env: Env, first: nat, anchor: Bytes, n: Node, ev: Event)
    requires WellFormed(n) && ev.Crash?
    ensures var r := Handle(env, n, ev);
            && n.epoch <= r.epoch && (AppliedOnce(env, n) ==> AppliedOnce(env, r))
            && (Rooted(n) ==> Rooted(r) && SamePast(n, r))
            && (Chained(env, first, anchor, n) ==>
                  if Severs(env, n, ev) then Rooted(r) && BrokenAt(env, first, r, n.epoch)
                     else Chained(env, first, anchor, r))
  {
    hide Handle, Chained, AppliedOnce, Restarted, Stopped, FirstCommit, Rooted;
    hide SamePast, BrokenAt, NextHistory, CommitHash, InitialHistory, CommitData;
    CrashStops(env, n, ev);
    FirstCommitWellFormed(env, n, ev.during);
    var p := FirstCommit(env, n, ev.during);
    if p.Some? && !ev.persisted {
      CutShort(env, first, anchor, n, p.value);
      SamePastMeans(n, Handle(env, n, ev));
    } else {
      CrashCarries(env, first, anchor, n, ev);
    }
  }

  lemma SamePastMeans(n: Node, r: Node)
    requires SamePast(n, r)
    ensures n.epoch <= r.epoch
  {
  }

  lemma CrashCarries(env: Env, first: nat, anchor: Bytes, n: Node, ev: Event)
    requires WellFormed(n) && ev.Crash? && (ev.persisted || FirstCommit(env, n, ev.during).None?)
    ensures Carries(env, first, anchor, n, Handle(env, n, ev)) && !Severs(env, n, ev)
  {
    hide Handle, Carries, Restarted, FirstCommit, Advanced;
    CrashStops(env, n, ev);
    FirstCommitWellFormed(env, n, ev.during);
    var p := FirstCommit(env, n, ev.during);
    if p.Some? {
      MovedCarries(env, first, anchor, n, p.value);
      RestartedCarries(env, first, anchor, Moved(env, p.value));
      CarriesTrans(env, first, anchor, n, Moved(env, p.value), Handle(env, n, ev));
    } else {
      RestartedCarries(env, first, anchor, n);
    }
  }

  // ----- every run -----

  /** No crash of the run severs the chain. */
  ghost predicate Unsevered(env: Env, n: Node, events: seq<Event>)
    requires WellFormed(n)
  {
    forall k :: 0 <= k < |events| ==> !Severs(env, Run(env, n, events[..k]), events[k])
  }

  lemma UnseveredStep(env: Env, n: Node, events: seq<Event>)
    requires WellFormed(n) && events != []
    ensures var init := events[..|events| - 1];
            Unsevered(env, n, events) <==>
              Unsevered(env, n, init) && !Severs(env, Run(env, n, init), events[|events| - 1])
  {
    hide Run, Severs;
    var init := events[..|events| - 1];
    assert forall k :: 0 <= k < |init| ==> init[k] == events[k] && init[..k] == events[..k];
  }

  /**
    * Lineage between heals, crashes included: the chain is a gap-free interval from the first epoch to
    * the current one that links the logged commits, if and only if no crash fell between the two writes.
    */
  lemma {:induction false} ChainSurvivesExactly(env: Env, first: nat, anchor: Bytes, n: Node, events: seq<Event>)
    requires WellFormed(n) && Chained(env, first, anchor, n)
    ensures Chained(env, first, anchor, Run(env, n, events)) <==> Unsevered(env, n, events)
    ensures !Unsevered(env, n, events) ==>
              Rooted(Run(env, n, events)) && exists k :: BrokenAt(env, first, Run(env, n, events), k)
    decreases |events|
  {
    hide Chained, Handle, Rooted, SamePast, BrokenAt, Severs, Unsevered;
    if events == [] {
      assert Unsevered(env, n, events) by { NothingSevered(env, n); }
    } else {
      var init, last := events[..|events| - 1], events[|events| - 1];
      var mid := Run(env, n, init);
      ChainSurvivesExactly(env, first, anchor, n, init);
      UnseveredStep(env, n, events);
      EventLedger(env, first, anchor, mid, last);
      if !Unsevered(env, n, init) {
        var k :| BrokenAt(env, first, mid, k);
        BrokenStays(env, first, anchor, mid, Run(env, n, events), k);
      } else if Severs(env, mid, last) {
        BrokenNotChained(env, first, anchor, Run(env, n, events), mid.epoch);
      }
    }
  }

  lemma NothingSevered(env: Env, n: Node)
    requires WellFormed(n)
    ensures Unsevered(env, n, [])
  {
  }

  lemma BrokenNotChained(env: Env, first: nat, anchor: Bytes, n: Node, k: nat)
    requires BrokenAt(env, first, n, k)
    ensures !Chained(env, first, anchor, n)
  {
  }

  /**
    * Over every run, crashes included, the applied markers are the hashes of the applied envelopes, each counted once.
    */
  lemma {:induction false} RunOnce(env: Env, n: Node, events: seq<Event>)
    requires WellFormed(n) && AppliedOnce(env, n)
    ensures AppliedOnce(env, Run(env, n, events))
    decreases |events|
  {
    hide AppliedOnce, Handle;
    if events != [] {
      RunOnce(env, n, events[..|events| - 1]);
      EventLedger(env, 0, [], Run(env, n, events[..|events| - 1]), events[|events| - 1]);
    }
  }

  /** Both together, for runs whose crashes all fall outside the two writes. */
  lemma RunKept(env: Env, first: nat, anchor: Bytes, n: Node, events: seq<Event>)
    requires WellFormed(n) && Kept(env, first, anchor, n) && Unsevered(env, n, events)
    ensures Kept(env, first, anchor, Run(env, n, events))
  {
    hide Chained, AppliedOnce, Run, Unsevered;
    ChainSurvivesExactly(env, first, anchor, n, events);
    RunOnce(env, n, events);
  }

  lemma {:induction false} HashesCount(env: Env, log: seq<Envelope>, i: nat, j: nat)
    requires i < j < |log| && env.envelopeHash(log[i]) == env.envelopeHash(log[j])
    ensures Hashes(env, log)[env.envelopeHash(log[i])] >= 2
    decreases |log|
  {
    var init := log[..|log| - 1];
    if j < |init| {
      HashesCount(env, init, i, j);
    } else {
      HashesContain(env, init, i);
    }
  }

  lemma {:induction false} HashesContain(env: Env, log: seq<Envelope>, i: nat)
    requires i < |log|
    ensures env.envelopeHash(log[i]) in Hashes(env, log)
    decreases |log|
  {
    if i < |log| - 1 {
      HashesContain(env, log[..|log| - 1], i);
    }
  }

  /** No two applied envelopes share a hash, whether commits, messages, or one of each. */
  ghost predicate NoneTwice(env: Env, n: Node) {
    && (forall i, j :: 0 <= i < j < |n.commits| ==> env.envelopeHash(n.commits[i]) != env.envelopeHash(n.commits[j]))
    && (forall i, j ::
          0 <= i < j < |n.delivered| ==> env.envelopeHash(n.delivered[i]) != env.envelopeHash(n.delivered[j]))
    && (forall i, j ::
          0 <= i < |n.commits| && 0 <= j < |n.delivered| ==>
            env.envelopeHash(n.commits[i]) != env.envelopeHash(n.delivered[j]))
  }

  lemma CountedOnce(env: Env, log: seq<Envelope>)
    requires forall h :: Hashes(env, log)[h] <= 1
    ensures forall i, j :: 0 <= i < j < |log| ==> env.envelopeHash(log[i]) != env.envelopeHash(log[j])
  {
    hide Hashes;
    forall i, j | 0 <= i < j < |log|
      ensures env.envelopeHash(log[i]) != env.envelopeHash(log[j])
    {
      if env.envelopeHash(log[i]) == env.envelopeHash(log[j]) {
        HashesCount(env, log, i, j);
      }
    }
  }

  lemma AppliedOnceMeans(env: Env, n: Node)
    requires AppliedOnce(env, n)
    ensures NoneTwice(env, n)
  {
    hide Hashes;
    forall h
      ensures Hashes(env, n.commits)[h] + Hashes(env, n.delivered)[h] <= 1
    {
      assert (Hashes(env, n.commits) + Hashes(env, n.delivered))[h] == multiset(n.applied)[h];
    }
    CountedOnce(env, n.commits);
    CountedOnce(env, n.delivered);
    forall i, j | 0 <= i < |n.commits| && 0 <= j < |n.delivered|
      ensures env.envelopeHash(n.commits[i]) != env.envelopeHash(n.delivered[j])
    {
      HashesContain(env, n.commits, i);
      HashesContain(env, n.delivered, j);
      assert Hashes(env, n.commits)[env.envelopeHash(n.commits[i])] >= 1;
    }
  }

  /** Exactly-once application: in no run, crashes included, is an envelope applied twice. */
  lemma AppliedAtMostOnce(env: Env, n: Node, events: seq<Event>)
    requires WellFormed(n) && AppliedOnce(env, n)
    ensures NoneTwice(env, Run(env, n, events))
  {
    hide Run, AppliedOnce, NoneTwice;
    RunOnce(env, n, events);
    AppliedOnceMeans(env, Run(env, n, events));
  }

  // ----- what the chain says about the log -----

  /** Two different inputs with the same hash. */
  ghost predicate Collide(env: Env, x: Bytes, y: Bytes) {
    x != y && env.group.sha256(x) == env.group.sha256(y)
  }

  ghost predicate FixedLength(env: Env) {
    forall x :: |env.group.sha256(x)| == 32
  }

  ghost predicate SameUpTo(a: Node, b: Node, first: nat, k: nat)
    requires first <= k <= first + |a.commits| && k <= first + |b.commits|
  {
    forall j :: 0 <= j < k - first ==> CommitData(a.commits[j]) == CommitData(b.commits[j])
  }

  /** The inputs hashed on the way to a node's current epoch. */
  ghost function Preimages(env: Env, first: nat, n: Node): set<Bytes>
    requires n.epoch == first + |n.commits| && forall k :: first <= k <= n.epoch ==> k in n.chain
  {
    (set j | 0 <= j < |n.commits| :: CommitData(n.commits[j])) +
    (set j | 0 <= j < |n.commits| :: n.chain[first + j] + CommitHash(env, CommitData(n.commits[j])))
  }

  /** Same commits, same chain. */
  lemma {:induction false} SameLogSameHash(env: Env, first: nat, anchor: Bytes, a: Node, b: Node, k: nat)
    requires Chained(env, first, anchor, a) && Chained(env, first, anchor, b) && a.historyHash.Some?
    requires b.historyHash.Some?
    requires first <= k <= a.epoch && k <= b.epoch && SameUpTo(a, b, first, k)
    ensures a.chain[k] == b.chain[k]
    decreases k
  {
    hide NextHistory, CommitHash, CommitData;
    if k > first {
      SameLogSameHash(env, first, anchor, a, b, k - 1);
      assert a.chain[k - 1 + 1] ==
               NextHistory(env, a.chain[k - 1], CommitHash(env, CommitData(a.commits[k - 1 - first])));
      assert b.chain[k - 1 + 1] ==
               NextHistory(env, b.chain[k - 1], CommitHash(env, CommitData(b.commits[k - 1 - first])));
    }
  }

  /** One link back: equal hashes have equal predecessors and equal commits, or exhibit a collision. */
  lemma LinkBack(env: Env, pa: Bytes, da: Bytes, pb: Bytes, db: Bytes) returns (x: Bytes, y: Bytes)
    requires FixedLength(env) && |pa| == |pb|
    requires NextHistory(env, pa, CommitHash(env, da)) == NextHistory(env, pb, CommitHash(env, db))
    ensures (pa == pb && da == db) || Collide(env, x, y)
    ensures (x == pa + CommitHash(env, da) && y == pb + CommitHash(env, db)) || (x == da && y == db)
  {
    x, y := pa + CommitHash(env, da), pb + CommitHash(env, db);
    if x == y {
      assert pa == x[..|pa|] == y[..|pb|] == pb;
      assert CommitHash(env, da) == x[|pa|..] == y[|pb|..] == CommitHash(env, db);
      x, y := da, db;
    }
  }

  /** The same, for two nodes at epoch `k`. */
  lemma NodesLinkBack(env: Env, first: nat, anchor: Bytes, a: Node, b: Node, k: nat) returns (x: Bytes, y: Bytes)
    requires FixedLength(env) && |anchor| == 32
    requires Chained(env, first, anchor, a) && Chained(env, first, anchor, b) && a.historyHash.Some?
    requires b.historyHash.Some?
    requires first < k <= a.epoch && k <= b.epoch && a.chain[k] == b.chain[k]
    ensures (a.chain[k - 1] == b.chain[k - 1]
             && CommitData(a.commits[k - 1 - first]) == CommitData(b.commits[k - 1 - first])) ||
            (Collide(env, x, y) && x in Preimages(env, first, a) && y in Preimages(env, first, b))
  {
    hide NextHistory, CommitHash, CommitData, Collide, Preimages;
    var j := k - 1 - first;
    var da, db := CommitData(a.commits[j]), CommitData(b.commits[j]);
    assert a.chain[k - 1 + 1] == NextHistory(env, a.chain[k - 1], CommitHash(env, da));
    assert b.chain[k - 1 + 1] == NextHistory(env, b.chain[k - 1], CommitHash(env, db));
    ChainDigests(env, first, anchor, a, k - 1);
    ChainDigests(env, first, anchor, b, k - 1);
    x, y := LinkBack(env, a.chain[k - 1], da, b.chain[k - 1], db);
    InPreimages(env, first, a, j);
    InPreimages(env, first, b, j);
  }

  /** Same hash, same commits, unless the two logs contain an explicit collision of the hash function. */
  lemma {:induction false} SameHashSameLog(env: Env, first: nat, anchor: Bytes, a: Node, b: Node, k: nat)
    returns (x: Bytes, y: Bytes)
    requires FixedLength(env) && |anchor| == 32
    requires Chained(env, first, anchor, a) && Chained(env, first, anchor, b) && a.historyHash.Some?
    requires b.historyHash.Some?
    requires first <= k <= a.epoch && k <= b.epoch && a.chain[k] == b.chain[k]
    ensures SameUpTo(a, b, first, k) ||
            (Collide(env, x, y) && x in Preimages(env, first, a) && y in Preimages(env, first, b))
    decreases k
  {
    hide CommitData, Collide, Preimages, FixedLength;
    if k == first {
      x, y := [], [];
    } else {
      x, y := NodesLinkBack(env, first, anchor, a, b, k);
      if a.chain[k - 1] == b.chain[k - 1]
           && CommitData(a.commits[k - 1 - first]) == CommitData(b.commits[k - 1 - first]) {
        x, y := SameHashSameLog(env, first, anchor, a, b, k - 1);
      }
    }
  }

  lemma InPreimages(env: Env, first: nat, n: Node, j: nat)
    requires n.epoch == first + |n.commits| && forall k :: first <= k <= n.epoch ==> k in n.chain
    requires j < |n.commits|
    ensures CommitData(n.commits[j]) in Preimages(env, first, n)
    ensures n.chain[first + j] + CommitHash(env, CommitData(n.commits[j])) in Preimages(env, first, n)
  {
  }

  lemma ChainDigests(env: Env, first: nat, anchor: Bytes, n: Node, k: nat)
    requires FixedLength(env) && |anchor| == 32 && Chained(env, first, anchor, n) && n.historyHash.Some?
    requires first <= k <= n.epoch
    ensures |n.chain[k]| == 32
  {
    if k > first {
      assert n.chain[k - 1 + 1] ==
               NextHistory(env, n.chain[k - 1], CommitHash(env, CommitData(n.commits[k - 1 - first])));
    }
  }

  // ----- cross-epoch query and reply -----

  /** handleHistoryQueryLocked: the responder's R(epoch), if it has one. */
  function HistoryReply(n: Node, epoch: nat): Option<Bytes> {
    if epoch in n.chain then Some(n.chain[epoch]) else None
  }

  datatype ReplyVerdict = CannotTell | SameBranch | Forked

  /** handleHistoryReplyLocked up to its decision. */
  function JudgeReply(n: Node, epoch: nat, reply: Option<Bytes>): ReplyVerdict {
    if reply.None? || epoch !in n.chain then CannotTell
    else if n.chain[epoch] == reply.value then SameBranch
    else Forked
  }

  /**
    * A node asks a peer about its own epoch. "Same branch" means its log is a prefix of the peer's
    * (or the hash function is broken on inputs these two nodes hold); "forked" means it is not.
    */
  lemma ReplyDecidesPrefix(env: Env, first: nat, anchor: Bytes, local: Node, remote: Node) returns (x: Bytes, y: Bytes)
    requires FixedLength(env) && |anchor| == 32
    requires Chained(env, first, anchor, local) && Chained(env, first, anchor, remote)
    requires local.historyHash.Some? && remote.historyHash.Some?
    ensures var verdict := JudgeReply(local, local.epoch, HistoryReply(remote, local.epoch));
            && (verdict == CannotTell <==> remote.epoch < local.epoch)
            && (verdict == SameBranch ==>
                  SameUpTo(local, remote, first, local.epoch) ||
                  (Collide(env, x, y) && x in Preimages(env, first, local) && y in Preimages(env, first, remote)))
            && (verdict == Forked ==> !SameUpTo(local, remote, first, local.epoch))
  {
    x, y := [], [];
    if local.epoch <= remote.epoch {
      if local.chain[local.epoch] == remote.chain[local.epoch] {
        x, y := SameHashSameLog(env, first, anchor, local, remote, local.epoch);
      } else if SameUpTo(local, remote, first, local.epoch) {
        SameLogSameHash(env, first, anchor, local, remote, local.epoch);
      }
    }
  }

  /**
    * What a crash between the two writes does to that verdict. The node and its peer have the same log, the peer's
    * chain is intact, and yet the reply is judged a fork, exactly when the lost link differs from the initial hash.
    */
  lemma ForkedAfterCrash(env: Env, first: nat, anchor: Bytes, n: Node, ev: Event, remote: Node)
    requires WellFormed(n) && Chained(env, first, anchor, n) && Rooted(n)
    requires ev.Crash? && !ev.persisted && FirstCommit(env, n, ev.during).Some?
    requires Chained(env, first, anchor, remote) && remote.historyHash.Some?
    requires var r := Handle(env, n, ev); r.epoch <= remote.epoch && r.commits <= remote.commits
    ensures var r := Handle(env, n, ev);
            && r.epoch == first + |r.commits| && SameUpTo(r, remote, first, r.epoch)
            && (JudgeReply(r, r.epoch, HistoryReply(remote, r.epoch)) == Forked <==> Severs(env, n, ev))
  {
    hide NextHistory, CommitHash, InitialHistory, CommitData, FirstCommit, Handle, Restarted, Stopped, Rooted;
    FirstCommitWellFormed(env, n, ev.during);
    var p := FirstCommit(env, n, ev.during).value;
    var r := Handle(env, n, ev);
    CrashStops(env, n, ev);
    RootedMeans(n);
    CutLooks(env, first, anchor, n, p);
    assert remote.commits[n.epoch - first] == r.commits[n.epoch - first] == p.envelope;
    SameLogSameHash(env, first, anchor, n, remote, n.epoch);
    assert remote.chain[n.epoch + 1] ==
             NextHistory(env, remote.chain[n.epoch], CommitHash(env, CommitData(remote.commits[n.epoch - first])));
  }

  lemma RootedMeans(n: Node)
    requires Rooted(n)
    ensures n.epoch in n.chain && n.historyHash == Some(n.chain[n.epoch])
  {
  }

  /** The state after such a crash, in the parts a history reply looks at. */
  lemma CutLooks(env: Env, first: nat, anchor: Bytes, n: Node, p: Applying)
    requires WellFormed(p.at) && AppliesTo(env, n, p) && Chained(env, first, anchor, n) && Rooted(n)
    ensures var r := Restarted(env, Stopped(env, p, false));
            && r.epoch == n.epoch + 1 && r.commits == n.commits + [p.envelope]
            && r.epoch in r.chain && r.chain[r.epoch] == InitialHistory(env)
            && CommitData(p.envelope) == p.commit.commitData
  {
    hide NextHistory, CommitHash, InitialHistory;
  }
}
