/**
  * Over every run of the heal machine: what a stored job remembers, how a wait ends, and what a restart takes up again.
  */
module HealRuns {
  import opened Bytes
  import opened Types
  import opened HealJob
  import opened HealSwaps

  // ----- what a stored job remembers -----

  /** A copy from before the proposal is sent still equals the stored job. */
  predicate EarlyCopy(s: State) {
    s.heal.Running? && !s.heal.point.Loading? && Rank(s.heal.job.status) <= 1 ==>
      s.heal.index < |s.jobs| && SameJob(s.heal.job, s.jobs[s.heal.index])
  }

  lemma StepKeepsEarly(s: State, l: Label)
    requires Inv(s) && Indexed(s) && Enabled(s, l) && EarlyCopy(s)
    ensures EarlyCopy(Next(s, l))
  {
    hide PendingJoined, GroupSafe, NoActive, AlreadySwapped;
    if l.ResumeFix? && AlreadySwapped(s.memory, s.resume.job) {
      SwappedIsJoined(s.memory, s.resume.job);
    }
  }

  lemma {:induction false} RunKeepsEarly(states: seq<State>, labels: seq<Label>, k: nat)
    requires IsRun(states, labels) && Initial(states[0]) && k <= |labels|
    ensures EarlyCopy(states[k])
  {
    hide Inv, Next, Enabled;
    InitialInv(states[0]);
    if k > 0 {
      RunKeepsEarly(states, labels, k - 1);
      RunKeeps(states, labels, k - 1);
      StepKeepsEarly(states[k - 1], labels[k - 1]);
    }
  }

  /** How one step can change a stored job apart from its status. */
  ghost predicate Changes(s: State, l: Label, j: nat, after: Job) {
    if j == |s.jobs| then l.LoadJob? && after == Job(Initiated, None, [], l.winningEpoch, l.winningTree)
    else
      && j < |s.jobs|
      && var before := s.jobs[j];
      || (SameJob(before, after) && (Rank(before.status) >= 3 <==> Rank(after.status) >= 3)
          && (Rank(before.status) >= 2 <==> Rank(after.status) >= 2))
      || (l.SendProposal? && after == before.(status := ProposalSent, bundle := l.bundle) && Rank(before.status) <= 1)
      || (l.WelcomeArrives? && !NoActive(s.jobs) && Active(s.jobs) == j && before.status.ProposalSent?
          && before.bundle != []
          && after == before.(status := ExternalJoined, pending := Some(l.joined), winningEpoch := l.joined.epoch,
                              winningTree := l.joined.treeHash))
  }

  lemma StepChanges(s: State, l: Label, j: nat)
    requires Inv(s) && Twin(s) && EarlyCopy(s) && Indexed(s) && Enabled(s, l) && j < |Next(s, l).jobs|
    ensures Changes(s, l, j, Next(s, l).jobs[j])
  {
    hide PendingJoined, GroupSafe, NoActive, AlreadySwapped;
    if l.ResumeFix? && AlreadySwapped(s.memory, s.resume.job) {
      SwappedIsJoined(s.memory, s.resume.job);
    }
  }

  /** The job was created by this step, for this branch. */
  ghost predicate Created(s: State, l: Label, j: nat, epoch: nat, tree: Bytes) {
    |s.jobs| == j && l == LoadJob(epoch, tree)
  }

  /** The Welcome that this step took was for the job, and brought this state. */
  ghost predicate JoinedBy(s: State, l: Label, j: nat, won: GroupRecord) {
    && j < |s.jobs| && s.jobs[j].status.ProposalSent? && s.jobs[j].bundle != [] && l == WelcomeArrives(won)
    && !NoActive(s.jobs) && Active(s.jobs) == j
  }

  /** Before the join a job names the branch it was created for; from then on the state that its Welcome brought. */
  ghost predicate Remembers(states: seq<State>, labels: seq<Label>, k: nat, j: nat, job: Job)
    requires |states| == |labels| + 1 && k <= |labels|
  {
    if Rank(job.status) < 3
    then && job.pending.None?
         && exists t :: 0 <= t < k && Created(states[t], labels[t], j, job.winningEpoch, job.winningTree)
    else && job.pending.Some? && job.winningEpoch == job.pending.value.epoch
           && job.winningTree == job.pending.value.treeHash
         && exists t :: 0 <= t < k && JoinedBy(states[t], labels[t], j, job.pending.value)
  }

  lemma {:induction false} JobsRemember(states: seq<State>, labels: seq<Label>, k: nat, j: nat)
    requires IsRun(states, labels) && Initial(states[0]) && k <= |labels| && j < |states[k].jobs|
    ensures Remembers(states, labels, k, j, states[k].jobs[j])
  {
    hide Inv, Twin, Next, Enabled, EarlyCopy, Changes, Remembers;
    if k == 0 {
      assert false;
    } else {
      var s, l := states[k - 1], labels[k - 1];
      RunKeepsTwin(states, labels, k - 1);
      RunKeepsEarly(states, labels, k - 1);
      StepChanges(s, l, j);
      if j < |s.jobs| {
        JobsRemember(states, labels, k - 1, j);
      }
      RemembersStep(states, labels, k - 1, j, states[k].jobs[j]);
    }
  }

  lemma RemembersStep(states: seq<State>, labels: seq<Label>, k: nat, j: nat, after: Job)
    requires |states| == |labels| + 1 && k < |labels| && Changes(states[k], labels[k], j, after)
    requires j < |states[k].jobs| ==> Remembers(states, labels, k, j, states[k].jobs[j])
    ensures Remembers(states, labels, k + 1, j, after)
  {
    hide NoActive;
    var s, l := states[k], labels[k];
    if j == |s.jobs| {
      assert Created(states[k], labels[k], j, after.winningEpoch, after.winningTree);
    } else {
      var before := s.jobs[j];
      if Rank(before.status) < 3 {
        var t :| 0 <= t < k && Created(states[t], labels[t], j, before.winningEpoch, before.winningTree);
        assert 0 <= t < k + 1;
        if Rank(after.status) >= 3 {
          assert JoinedBy(states[k], labels[k], j, l.joined);
        }
      } else {
        var t :| 0 <= t < k && JoinedBy(states[t], labels[t], j, before.pending.value);
        assert 0 <= t < k + 1;
      }
    }
  }

  // ----- waiting for a Welcome -----

  /** From the drop of the group state until runHeal goes on, memory holds no group. */
  predicate Silent(s: State) {
    s.heal.Running? && (s.heal.point.Dropped? || s.heal.point.Awaiting?) ==> s.memory.state == []
  }

  lemma StepKeepsSilent(s: State, l: Label)
    requires Inv(s) && Indexed(s) && Enabled(s, l) && Silent(s)
    ensures Silent(Next(s, l))
  {
    hide CopyFresh, ResumeSound, PendingJoined, NoActive, AlreadySwapped;
  }

  /** While it waits for a Welcome a node takes no ordinary step, and the stored group stays as it is. */
  lemma {:induction false} WaitIsSilent(states: seq<State>, labels: seq<Label>, k: nat)
    requires IsRun(states, labels) && Initial(states[0]) && k <= |labels|
    ensures Silent(states[k])
    ensures k < |labels| && states[k].heal.Running? && states[k].heal.point.Awaiting? ==>
              !labels[k].Ordinary? && states[k + 1].record == states[k].record
  {
    hide Inv, Next, Enabled;
    InitialInv(states[0]);
    RunKeeps(states, labels, k);
    if k > 0 {
      WaitIsSilent(states, labels, k - 1);
      RunKeeps(states, labels, k - 1);
      StepKeepsSilent(states[k - 1], labels[k - 1]);
    }
    if k < |labels| {
      SilentStep(states[k], labels[k]);
    }
  }

  lemma SilentStep(s: State, l: Label)
    requires Silent(s) && Indexed(s) && Enabled(s, l)
    ensures s.heal.Running? && s.heal.point.Awaiting? ==> !l.Ordinary? && Next(s, l).record == s.record
  {
    hide NoActive, AlreadySwapped;
  }

  /** A Welcome that comes during the wait wakes runHeal, which goes on with the joined job and the state it brought. */
  lemma WelcomeEndsWait(s: State, won: GroupRecord)
    requires Inv(s) && Indexed(s) && Enabled(s, WelcomeArrives(won)) && s.heal.Running? && s.heal.point.Awaiting?
    ensures var woken := Next(s, WelcomeArrives(won));
            && Indexed(woken) && Enabled(woken, Welcomed) && woken.memory == s.memory && woken.record == s.record
            && var j := Active(s.jobs);
            Next(woken, Welcomed).heal ==
              Running(j, s.jobs[j].(status := ExternalJoined, pending := Some(won), winningEpoch := won.epoch,
                                    winningTree := won.treeHash), Phase)
  {
    hide CopyFresh, ResumeSound, PendingJoined, GroupSafe;
    var woken, j := Next(s, WelcomeArrives(won)), Active(s.jobs);
    assert !woken.jobs[j].status.Cleaned?;
    SameActive(s.jobs, woken.jobs, j);
  }

  /** The newest unfinished job stays the newest when it changes and stays unfinished. */
  lemma SameActive(a: seq<Job>, b: seq<Job>, j: nat)
    requires !NoActive(a) && Active(a) == j && |b| == |a| && !b[j].status.Cleaned?
    requires forall k :: 0 <= k < |a| && k != j ==> b[k] == a[k]
    ensures !NoActive(b) && Active(b) == j
  {
  }

  /** How many waits have timed out between two points of a run. */
  ghost function Timeouts(labels: seq<Label>, i: nat, k: nat): nat
    requires i <= k <= |labels|
  {
    if i == k then 0 else Timeouts(labels, i, k - 1) + if labels[k - 1].AwaitTimeout? then 1 else 0
  }

  /** One wait times out at most twice: then runHeal has to leave, or a Welcome has come. */
  lemma {:induction false} TimeoutsBounded(states: seq<State>, labels: seq<Label>, i: nat, k: nat)
    requires IsRun(states, labels) && Initial(states[0]) && i <= k <= |labels|
    requires forall t :: i <= t <= k ==> states[t].heal.Running? && states[t].heal.point.Awaiting?
    ensures states[k].heal.point.attempt == states[i].heal.point.attempt + Timeouts(labels, i, k)
    ensures 1 <= states[i].heal.point.attempt && states[k].heal.point.attempt <= MAX_JOIN_ATTEMPTS
    ensures Timeouts(labels, i, k) <= 2
    decreases k - i
  {
    hide Next, Enabled, Inv;
    RunKeepsCounted(states, labels, i);
    RunKeepsCounted(states, labels, k);
    if i < k {
      TimeoutsBounded(states, labels, i, k - 1);
      AttemptStep(states[k - 1], labels[k - 1]);
    }
  }

  lemma AttemptStep(s: State, l: Label)
    requires Indexed(s) && Enabled(s, l) && s.heal.Running? && s.heal.point.Awaiting?
    requires Next(s, l).heal.Running? && Next(s, l).heal.point.Awaiting?
    ensures Next(s, l).heal.point.attempt == s.heal.point.attempt + if l.AwaitTimeout? then 1 else 0
  {
    hide NoActive, AlreadySwapped;
  }

  predicate Counted(s: State) {
    s.heal.Running? && s.heal.point.Awaiting? ==> 1 <= s.heal.point.attempt <= MAX_JOIN_ATTEMPTS
  }

  lemma StepKeepsCounted(s: State, l: Label)
    requires Indexed(s) && Enabled(s, l) && Counted(s)
    ensures Counted(Next(s, l))
  {
    hide NoActive, AlreadySwapped;
  }

  lemma {:induction false} RunKeepsCounted(states: seq<State>, labels: seq<Label>, k: nat)
    requires IsRun(states, labels) && Initial(states[0]) && k <= |labels|
    ensures Counted(states[k])
  {
    hide Next, Enabled;
    if k > 0 {
      RunKeepsCounted(states, labels, k - 1);
      StepKeepsCounted(states[k - 1], labels[k - 1]);
    }
  }

  // ----- restarts -----

  /**
    * A restart loads the newest unfinished job, and once its
    * check is done runHeal takes it up, unless another heal runs.
    */
  lemma RestartResumes(s: State)
    requires Inv(s) && Indexed(s)
    ensures var r := Next(s, Restart);
            && r.memory == r.record == s.record && r.jobs == s.jobs && r.heal.Idle? && !r.healing && !r.signal
            && (NoActive(s.jobs) ==> r.resume.NoResume?)
            && (!NoActive(s.jobs) ==>
                  && r.resume == Loaded(Active(s.jobs), s.jobs[Active(s.jobs)]) && Enabled(r, ResumeFix)
                  && var checked := Next(r, ResumeFix);
                  && Enabled(checked, ResumeBegin)
                  && var begun := Next(checked, ResumeBegin);
                  begun.healing && begun.heal.Running? && begun.heal.point.Loading? && begun.resume.NoResume?)
  {
    hide CopyFresh, ResumeSound, PendingJoined, GroupSafe, AlreadySwapped, NoActive;
  }
}
