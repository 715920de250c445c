/** An envelope that replay reports cursor-safe is applied already or can never be applied later. */
module CursorSafety {
  import opened Bytes
  import opened Types
  import opened Coordinator
  import opened NodeRuns
  import opened Transitions
  import opened Ledger

  /** Behind the node's epoch and, for a message, out of the window by epochs or by age since it was first seen. */
  ghost predicate Buried(env: Env, n: Node, e: Envelope) {
    e.epoch < n.epoch
      && (e.body.ApplicationBody? ==> e.epoch + env.maxPastEpochs < n.epoch || TooOld(env, n, env.envelopeHash(e)))
  }

  ghost predicate TooOld(env: Env, n: Node, hash: Bytes) {
    && env.maxPastAgeSeconds > 0 && hash in n.firstSeen && n.firstSeen[hash] > 0
    && n.now >= n.firstSeen[hash] && (n.now - n.firstSeen[hash]) / 1000 > env.maxPastAgeSeconds
  }

  /** What only grows, and what can join the logs: current or later commits, and messages that were not buried. */
  ghost predicate Progress(env: Env, n: Node, n': Node) {
    && n.epoch <= n'.epoch && n.now <= n'.now && n.applied <= n'.applied
    && (forall h :: h in n.firstSeen ==> h in n'.firstSeen && n'.firstSeen[h] == n.firstSeen[h])
    && n.commits <= n'.commits && n.delivered <= n'.delivered
    && (forall i :: |n.commits| <= i < |n'.commits| ==> n'.commits[i].epoch >= n.epoch)
    && (forall i ::
          |n.delivered| <= i < |n'.delivered| ==>
            n'.delivered[i].body.ApplicationBody? && !Buried(env, n, n'.delivered[i]))
  }

  lemma BuriedStays(env: Env, n: Node, n': Node, e: Envelope)
    requires Progress(env, n, n') && Buried(env, n, e)
    ensures Buried(env, n', e)
  {
  }

  lemma ProgressTrans(env: Env, a: Node, b: Node, c: Node)
    requires Progress(env, a, b) && Progress(env, b, c)
    ensures Progress(env, a, c)
  {
    hide Buried;
    forall i | |a.delivered| <= i < |c.delivered|
      ensures c.delivered[i].body.ApplicationBody? && !Buried(env, a, c.delivered[i])
    {
      if i < |b.delivered| {
        assert c.delivered[i] == b.delivered[i];
      } else if Buried(env, a, c.delivered[i]) {
        BuriedStays(env, a, b, c.delivered[i]);
      }
    }
    forall i | |a.commits| <= i < |c.commits|
      ensures c.commits[i].epoch >= a.epoch
    {
      if i < |b.commits| {
        assert c.commits[i] == b.commits[i];
      }
    }
  }

  lemma SameProgress(env: Env, n: Node, n': Node)
    requires n'.epoch == n.epoch && n'.now >= n.now && n'.applied == n.applied
    requires n'.commits == n.commits && n'.delivered == n.delivered
    requires forall h :: h in n.firstSeen ==> h in n'.firstSeen && n'.firstSeen[h] == n.firstSeen[h]
    ensures Progress(env, n, n')
  {
  }

  lemma DeliversProgress(env: Env, n: Node, n': Node, e: Envelope)
    requires Delivers(env, n, n', e)
    ensures Progress(env, n, n')
  {
    if n'.delivered != n.delivered {
      assert !Buried(env, n, e);
    }
  }

  lemma AdvancedProgress(env: Env, n: Node, e: Envelope, data: Bytes, state: Bytes, treeHash: Bytes)
    requires e.epoch == n.epoch
    ensures Progress(env, n, Advanced(env, n, e, data, state, treeHash))
  {
    hide CommitHash, NextHistory, Buried;
  }

  lemma ElementaryProgress(env: Env, pool: set<Envelope>, n: Node, n': Node)
    requires Elementary(env, {}, pool, n, n')
    ensures Progress(env, n, n')
  {
    hide Progress, Examine, Advanced;
    if Quiet({}, n, n') || Rejects(n, n') {
      SameProgress(env, n, n');
    } else {
      var e :| e in pool && (Buffers(n, n', e) || Delivers(env, n, n', e) || Applies(env, n, n', e));
      if Buffers(n, n', e) {
        SameProgress(env, n, n');
      } else if Delivers(env, n, n', e) {
        DeliversProgress(env, n, n', e);
      } else {
        var verdict := Examine(env, n, e, e.body.commit.value);
        AdvancedProgress(env, n, e, e.body.commit.value.commitData, verdict.state, verdict.treeHash);
      }
    }
  }

  lemma {:induction false} PathProgress(env: Env, pool: set<Envelope>, path: seq<Node>, n: Node, n': Node)
    requires Leads(env, {}, pool, path, n, n')
    ensures Progress(env, n, n')
    decreases |path|
  {
    hide Progress, Elementary, Sound;
    if |path| == 1 {
      SameProgress(env, n, n');
    } else {
      var k := |path| - 1;
      PathProgress(env, pool, path[..k], n, path[k - 1]);
      assert Elementary(env, {}, pool, path[k - 1], path[k - 1 + 1]);
      ElementaryProgress(env, pool, path[k - 1], path[k]);
      ProgressTrans(env, n, path[k - 1], path[k]);
    }
  }

  lemma FinishedProgress(env: Env, n: Node, p: Applying)
    requires WellFormed(p.at) && AppliesTo(env, n, p)
    ensures Progress(env, n, Moved(env, p)) && Progress(env, n, Finished(env, p))
  {
    hide Progress, Finished, Advanced, Leads;
    SameProgress(env, n, p.at);
    AdvancedProgress(env, p.at, p.envelope, p.commit.commitData, p.state, p.treeHash);
    ProgressTrans(env, n, p.at, Moved(env, p));
    var pool, path := TailPath(env, p);
    PathProgress(env, pool, path, Moved(env, p), Finished(env, p));
    ProgressTrans(env, n, Moved(env, p), Finished(env, p));
  }

  /** A crash after ApplyCommit loses the chain's link at most; the logs and markers stand. */
  lemma StoppedProgress(env: Env, n: Node, p: Applying, persisted: bool)
    requires WellFormed(p.at) && AppliesTo(env, n, p)
    ensures Progress(env, n, Restarted(env, Stopped(env, p, persisted)))
  {
    hide Progress, CommitHash, NextHistory, InitialHistory;
    FinishedProgress(env, n, p);
    SameProgress(env, Moved(env, p), Restarted(env, Stopped(env, p, persisted)));
    ProgressTrans(env, n, Moved(env, p), Restarted(env, Stopped(env, p, persisted)));
  }

  lemma MinorProgress(env: Env, n: Node, r: Node)
    requires Minor(env, n, r) && n.now <= r.now
    ensures Progress(env, n, r)
  {
    if r.delivered != n.delivered {
      var e :| Takes(env, n, r, e);
      assert !Buried(env, n, e);
    }
  }

  /** Clock readings never go back. */
  predicate ClockForward(n: Node, ev: Event) {
    ev.SetClock? ==> ev.now >= n.now
  }

  lemma EventProgress(env: Env, n: Node, ev: Event)
    requires WellFormed(n) && ClockForward(n, ev)
    ensures Progress(env, n, Handle(env, n, ev))
  {
    hide Handle, Progress, FirstCommit, Stopped, Finished, InitialHistory, Minor;
    if ev.Crash? {
      CrashStops(env, n, ev);
      FirstCommitWellFormed(env, n, ev.during);
      var p := FirstCommit(env, n, ev.during);
      if p.Some? {
        StoppedProgress(env, n, p.value, ev.persisted);
      } else {
        SameProgress(env, n, Restarted(env, n));
      }
    } else if ev.Restart? || ev.Request? {
      Stored(env, n, ev);
      SameProgress(env, n, Handle(env, n, ev));
    } else if FirstCommit(env, n, ev).Some? {
      HandledByCommit(env, n, ev);
      FirstCommitWellFormed(env, n, ev);
      FinishedProgress(env, n, FirstCommit(env, n, ev).value);
    } else {
      HandledWithoutCommit(env, n, ev);
      MinorProgress(env, n, Handle(env, n, ev));
    }
  }

  /** A run during which the clock never goes back. */
  ghost predicate ForwardRun(env: Env, n: Node, events: seq<Event>)
    requires WellFormed(n)
  {
    events == [] ||
    (ForwardRun(env, n, events[..|events| - 1])
     && ClockForward(Run(env, n, events[..|events| - 1]), events[|events| - 1]))
  }

  lemma {:induction false} RunProgress(env: Env, n: Node, events: seq<Event>)
    requires WellFormed(n) && ForwardRun(env, n, events)
    ensures Progress(env, n, Run(env, n, events))
    decreases |events|
  {
    hide Progress, Handle, ClockForward;
    if events == [] {
      SameProgress(env, n, n);
    } else {
      var init := events[..|events| - 1];
      RunProgress(env, n, init);
      EventProgress(env, Run(env, n, init), events[|events| - 1]);
      ProgressTrans(env, n, Run(env, n, init), Run(env, n, events));
    }
  }

  /** What replay calls cursor-safe is applied, or buried. */
  lemma CursorSafeMeans(env: Env, n: Node, e: Envelope)
    requires WellFormed(n) && Replay(env, n, e).1.cursorSafe
    ensures env.envelopeHash(e) in Replay(env, n, e).0.applied || Buried(env, Replay(env, n, e).0, e)
  {
    hide Examine, AdvanceAndDrain, Reconcile;
    if e.body.CommitBody? {
      CommitOutcome(env, n, e);
    }
  }

  lemma CommitOutcome(env: Env, n: Node, e: Envelope)
    requires WellFormed(n)
    ensures HandleCommit(env, n, e).1 ==> env.envelopeHash(e) in HandleCommit(env, n, e).0.applied
  {
    hide WellFormed, Examine;
    var r := HandleCommit(env, n, e);
    if r.1 {
      var c := e.body.commit.value;
      var verdict := Examine(env, n, e, c);
      AppliedAfterDrain(env, n, e, c.commitData, verdict.state, verdict.treeHash);
    }
  }

  lemma AppliedAfterDrain(env: Env, n: Node, e: Envelope, data: Bytes, state: Bytes, treeHash: Bytes)
    requires WellFormed(n)
    ensures env.envelopeHash(e) in AdvanceAndDrain(env, n, e, data, state, treeHash).applied
  {
    hide Leads, AdvanceAndDrain, CommitHash, NextHistory;
    var pool := Held(n) + {e};
    TriviallySound(n, pool);
    var p := AfterAdvancePath(env, {}, pool, n, e, data, state, treeHash);
    PathProgress(env, pool, p, Advanced(env, n, e, data, state, treeHash),
                 AdvanceAndDrain(env, n, e, data, state, treeHash));
  }

  ghost function TimesApplied(n: Node, e: Envelope): nat {
    multiset(n.commits)[e] + multiset(n.delivered)[e]
  }

  /** Cursor safety: after a cursor-safe report, no later event of any run applies the envelope again. */
  lemma NeverAppliedAgain(env: Env, n: Node, e: Envelope, events: seq<Event>)
    requires WellFormed(n) && AppliedOnce(env, n) && Replay(env, n, e).1.cursorSafe
    requires ForwardRun(env, Replay(env, n, e).0, events)
    ensures TimesApplied(Run(env, Replay(env, n, e).0, events), e) == TimesApplied(Replay(env, n, e).0, e)
  {
    hide AppliedOnce, Replay, Run, ForwardRun, Buried, TimesApplied, Progress;
    var n1 := Replay(env, n, e).0;
    var r := Run(env, n1, events);
    CursorSafeMeans(env, n, e);
    EventLedger(env, 0, [], n, Resync(e));
    RunOnce(env, n1, events);
    RunProgress(env, n1, events);
    if Buried(env, n1, e) {
      BuriedNotLogged(env, n1, r, e);
    } else {
      AppliedNotLogged(env, n1, r, e);
    }
  }

  lemma BuriedNotLogged(env: Env, n: Node, r: Node, e: Envelope)
    requires Progress(env, n, r) && Buried(env, n, e)
    ensures TimesApplied(r, e) == TimesApplied(n, e)
  {
    hide Buried;
    var cs, ds := r.commits[|n.commits|..], r.delivered[|n.delivered|..];
    assert r.commits == n.commits + cs && r.delivered == n.delivered + ds;
    BuriedBehind(env, n, e);
    AppendWithout(n.commits, cs, e);
    AppendWithout(n.delivered, ds, e);
  }

  lemma BuriedBehind(env: Env, n: Node, e: Envelope)
    requires Buried(env, n, e)
    ensures e.epoch < n.epoch
  {
  }

  lemma NoRoomLeft(a: multiset<Bytes>, b: multiset<Bytes>, x: multiset<Bytes>, y: multiset<Bytes>, h: Bytes)
    requires (a + b)[h] == 1 && (a + x + (b + y))[h] == 1
    ensures h !in x && h !in y
  {
    assert (a + x + (b + y))[h] == (a + b)[h] + x[h] + y[h];
  }

  lemma AppendWithout(log: seq<Envelope>, extra: seq<Envelope>, e: Envelope)
    requires e !in extra
    ensures multiset(log + extra)[e] == multiset(log)[e]
  {
    assert multiset(extra)[e] == 0;
  }

  /** An applied hash occurs once in the logs already, so no longer log can add it. */
  lemma AppliedNotLogged(env: Env, n: Node, r: Node, e: Envelope)
    requires AppliedOnce(env, n) && AppliedOnce(env, r) && Progress(env, n, r)
    requires env.envelopeHash(e) in n.applied
    ensures TimesApplied(r, e) == TimesApplied(n, e)
  {
    hide Buried, Hashes;
    var h := env.envelopeHash(e);
    var cs, ds := r.commits[|n.commits|..], r.delivered[|n.delivered|..];
    assert r.commits == n.commits + cs && r.delivered == n.delivered + ds;
    HashesSplit(env, n.commits, cs);
    HashesSplit(env, n.delivered, ds);
    NoRoomLeft(Hashes(env, n.commits), Hashes(env, n.delivered), Hashes(env, cs), Hashes(env, ds), h);
    NotHashed(env, cs, e);
    NotHashed(env, ds, e);
    AppendWithout(n.commits, cs, e);
    AppendWithout(n.delivered, ds, e);
  }

  lemma {:induction false} HashesSplit(env: Env, a: seq<Envelope>, b: seq<Envelope>)
    ensures Hashes(env, a + b) == Hashes(env, a) + Hashes(env, b)
    decreases |b|
  {
    if b == [] {
      assert a + b == a;
    } else {
      assert (a + b)[..|a + b| - 1] == a + b[..|b| - 1];
      HashesSplit(env, a, b[..|b| - 1]);
    }
  }

  lemma NotHashed(env: Env, log: seq<Envelope>, e: Envelope)
    requires env.envelopeHash(e) !in Hashes(env, log)
    ensures e !in log
  {
    hide Hashes;
    forall i | 0 <= i < |log|
      ensures log[i] != e
    {
      HashesContain(env, log, i);
    }
  }
}
