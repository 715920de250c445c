/** A job counts as swapped only after its joined state was installed, or was found in memory at a restart. */
module HealSwaps {
  import opened Bytes
  import opened Types
  import opened HealJob

  /** The same job but for its status. */
  predicate SameJob(a: Job, b: Job) {
    a.pending == b.pending && a.bundle == b.bundle && a.winningEpoch == b.winningEpoch && a.winningTree == b.winningTree
  }

  /**
    * Memory is on the branch that the job joined: it has the epoch and the tree hash of the pending state,
    * or, when its epoch is not that of a pending state, those of the winning branch.
    */
  predicate OnBranch(m: GroupRecord, job: Job) {
    var atPending := job.pending.Some? && job.pending.value.epoch > 0 && m.epoch == job.pending.value.epoch;
    || (atPending && m.treeHash == job.pending.value.treeHash)
    || (!atPending && m.epoch == job.winningEpoch && m.treeHash == job.winningTree)
  }

  // ----- copies and stored jobs agree once joined -----

  /**
    * A copy of a joined job differs from the stored one by its
    * status at most, and a swapped copy has a swapped original.
    */
  predicate CopyOf(jobs: seq<Job>, index: nat, job: Job) {
    && (Rank(job.status) >= 3 ==> index < |jobs| && Rank(jobs[index].status) >= 3 && SameJob(job, jobs[index]))
    && (Rank(job.status) >= 4 ==> index < |jobs| && Rank(jobs[index].status) >= 4)
  }

  predicate Twin(s: State) {
    && (s.heal.Running? && !s.heal.point.Loading? ==> CopyOf(s.jobs, s.heal.index, s.heal.job))
    && (s.heal.Running? && s.heal.point.Swapped? ==> HasPending(s.heal.job))
    && (s.resume.Loaded? ==> CopyOf(s.jobs, s.resume.index, s.resume.job))
  }

  lemma StoredCopy(jobs: seq<Job>, index: nat)
    requires index < |jobs|
    ensures CopyOf(jobs, index, jobs[index])
  {
  }

  /** A stored job changes to a copy of itself with a later status, and every other copy still fits. */
  lemma WrittenBack(jobs: seq<Job>, i: nat, job: Job, index: nat, copy: Job)
    requires i < |jobs| && CopyOf(jobs, index, copy)
    requires Rank(jobs[i].status) >= 3 ==> SameJob(job, jobs[i]) && Rank(job.status) >= 3
    requires Rank(jobs[i].status) >= 4 ==> Rank(job.status) >= 4
    ensures CopyOf(jobs[i := job], index, copy)
  {
  }

  /** runHeal's own write, one rank up from its copy. */
  lemma AdvanceTwin(s: State, status: Status, point: Point)
    requires Inv(s) && Twin(s) && s.heal.Running? && !s.heal.point.Loading? && s.heal.index < |s.jobs|
    requires Rank(status) == Rank(s.heal.job.status) + 1 && Rank(s.heal.job.status) != 2 && !point.Swapped?
    ensures Twin(Advance(s, status, point))
  {
    hide ResumeSound, PendingJoined, GroupSafe, CopyOf;
    var job := s.heal.job.(status := status);
    AdvanceFits(s, job);
    StoredCopy(s.jobs[s.heal.index := job], s.heal.index);
    if s.resume.Loaded? {
      WrittenBack(s.jobs, s.heal.index, job, s.resume.index, s.resume.job);
    }
  }

  lemma AdvanceFits(s: State, job: Job)
    requires Inv(s) && Twin(s) && s.heal.Running? && !s.heal.point.Loading? && s.heal.index < |s.jobs|
    requires job == s.heal.job.(status := job.status) && Rank(job.status) == Rank(s.heal.job.status) + 1
    requires Rank(s.heal.job.status) != 2
    ensures var stored := s.jobs[s.heal.index];
            && (Rank(stored.status) >= 3 ==> SameJob(job, stored) && Rank(job.status) >= 3)
            && (Rank(stored.status) >= 4 ==> Rank(job.status) >= 4)
  {
    hide ResumeSound, PendingJoined, GroupSafe;
  }

  lemma WelcomeTwin(s: State, l: Label)
    requires Inv(s) && Twin(s) && Indexed(s) && Enabled(s, l) && l.WelcomeArrives?
    ensures Twin(Next(s, l))
  {
    hide ResumeSound, PendingJoined, GroupSafe, CopyOf, CopyFresh, NoActive;
    var j := Active(s.jobs);
    var job := s.jobs[j].(status := ExternalJoined, pending := Some(l.joined), winningEpoch := l.joined.epoch,
                          winningTree := l.joined.treeHash);
    if s.heal.Running? && !s.heal.point.Loading? {
      WrittenBack(s.jobs, j, job, s.heal.index, s.heal.job);
    }
    if s.resume.Loaded? {
      WrittenBack(s.jobs, j, job, s.resume.index, s.resume.job);
    }
  }

  lemma ResumeFixTwin(s: State, l: Label)
    requires Inv(s) && Twin(s) && Indexed(s) && Enabled(s, l) && l.ResumeFix?
    ensures Twin(Next(s, l))
  {
    hide PendingJoined, GroupSafe, CopyFresh, AlreadySwapped;
    var job := s.resume.job.(status := StateSwapped);
    if AlreadySwapped(s.memory, s.resume.job) && s.heal.Running? && !s.heal.point.Loading? {
      SwappedIsJoined(s.memory, s.resume.job);
      ResumeWrites(s, job);
    }
  }

  lemma SwappedIsJoined(m: GroupRecord, job: Job)
    requires AlreadySwapped(m, job)
    ensures job.status.ExternalJoined?
  {
  }

  lemma ResumeWrites(s: State, job: Job)
    requires Inv(s) && Twin(s) && Indexed(s) && s.resume.Loaded? && s.resume.job.status.ExternalJoined?
    requires job == s.resume.job.(status := StateSwapped) && s.heal.Running? && !s.heal.point.Loading?
    ensures CopyOf(s.jobs[s.resume.index := job], s.heal.index, s.heal.job)
  {
    hide PendingJoined, GroupSafe, CopyFresh;
    WrittenBack(s.jobs, s.resume.index, job, s.heal.index, s.heal.job);
  }

  /** Steps that write no stored job. */
  lemma OtherTwin(s: State, l: Label)
    requires Inv(s) && Twin(s) && Indexed(s) && Enabled(s, l)
    requires LeavesJobs(l) || l.Restart? || l.ResumeBegin?
    ensures Twin(Next(s, l))
  {
    hide ResumeSound, PendingJoined, CopyFresh, NoActive;
    if l.LoadJob? && NoActive(s.jobs) && s.resume.Loaded? {
      LongerList(s.jobs, Next(s, l).jobs, s.resume.index, s.resume.job);
    }
  }

  lemma LongerList(jobs: seq<Job>, longer: seq<Job>, index: nat, copy: Job)
    requires CopyOf(jobs, index, copy) && jobs <= longer
    ensures CopyOf(longer, index, copy)
  {
  }

  lemma StepKeepsTwin(s: State, l: Label)
    requires Inv(s) && Twin(s) && Indexed(s) && Enabled(s, l)
    ensures Twin(Next(s, l))
  {
    hide Inv, Twin, NoActive, AlreadySwapped;
    if LeavesJobs(l) || l.Restart? || l.ResumeBegin? {
      OtherTwin(s, l);
    } else {
      match l
      case Snapshot => AdvanceTwin(s, SnapshotCreated, Phase);
      case SendProposal(bundle) =>
        PointStatus(s);
        SameCopy(s, bundle);
        SameTwin(s, bundle);
        AdvanceTwin(s.(heal := s.heal.(job := s.heal.job.(bundle := bundle))), ProposalSent, Awaiting(1));
      case SaveSwapped =>
        PointStatus(s);
        AdvanceTwin(s, StateSwapped, Phase);
      case FinishReplay => AdvanceTwin(s, LocalComplete, Phase);
      case Clean => AdvanceTwin(s, Cleaned, Phase);
      case WelcomeArrives(_) => WelcomeTwin(s, l);
      case ResumeFix => ResumeFixTwin(s, l);
    }
  }

  /** Before the job is joined its key bundle may change. */
  lemma SameTwin(s: State, bundle: Bytes)
    requires Twin(s) && s.heal.Running? && s.heal.job.status.SnapshotCreated?
    ensures Twin(s.(heal := s.heal.(job := s.heal.job.(bundle := bundle))))
  {
  }

  lemma {:induction false} RunKeepsTwin(states: seq<State>, labels: seq<Label>, k: nat)
    requires IsRun(states, labels) && Initial(states[0]) && k <= |labels|
    ensures Inv(states[k]) && Twin(states[k])
  {
    hide Inv, Next, Enabled;
    InitialInv(states[0]);
    RunKeeps(states, labels, k);
    if k > 0 {
      RunKeepsTwin(states, labels, k - 1);
      StepKeepsTwin(states[k - 1], labels[k - 1]);
    }
  }

  // ----- one step -----

  /**
    * A step takes a stored job to STATE_SWAPPED or beyond exactly when runHeal stores it after the swap,
    * or when a resume with a joined copy finds memory on the branch.
    */
  lemma SwapsExactly(s: State, l: Label, j: nat)
    requires Inv(s) && Twin(s) && Indexed(s) && Enabled(s, l) && j < |s.jobs| && Rank(s.jobs[j].status) < 4
    ensures j < |Next(s, l).jobs|
    ensures Rank(Next(s, l).jobs[j].status) >= 4 <==>
            || (l.SaveSwapped? && s.heal.Running? && s.heal.index == j)
            || (&& l.ResumeFix? && s.resume.Loaded? && s.resume.index == j
                && s.resume.job.status.ExternalJoined? && OnBranch(s.memory, s.resume.job))
  {
    hide PendingJoined, GroupSafe, NoActive, ResumeSound, AlreadySwapped, OnBranch;
    if l.ResumeFix? {
      BranchMeans(s.memory, s.resume.job);
    }
  }

  lemma BranchMeans(m: GroupRecord, job: Job)
    ensures AlreadySwapped(m, job) <==> job.status.ExternalJoined? && OnBranch(m, job)
  {
  }

  /** From the join on, only the status of a stored job changes. */
  lemma StoredStays(s: State, l: Label, j: nat)
    requires Inv(s) && Twin(s) && Indexed(s) && Enabled(s, l) && j < |s.jobs| && Rank(s.jobs[j].status) >= 3
    ensures j < |Next(s, l).jobs| && SameJob(s.jobs[j], Next(s, l).jobs[j])
  {
    hide PendingJoined, GroupSafe, NoActive, ResumeSound, AlreadySwapped;
    if l.ResumeFix? && AlreadySwapped(s.memory, s.resume.job) {
      SwappedIsJoined(s.memory, s.resume.job);
    }
  }

  // ----- every run -----

  /** runHeal has just stored the job's pending state as the group record. */
  ghost predicate Installed(s: State, job: Job, j: nat) {
    && s.heal.Running? && s.heal.index == j && s.heal.point.RecordSaved?
    && job.pending.Some? && s.record == job.pending.value && s.record.state != []
  }

  /** A resume that holds the job finds memory on its branch. */
  ghost predicate Detected(s: State, l: Label, job: Job, j: nat) {
    && l.ResumeFix? && s.resume.Loaded? && s.resume.index == j && SameJob(s.resume.job, job) && OnBranch(s.memory, job)
  }

  /** Behind the swap in memory lies the write of the record. */
  lemma {:induction false} SwapFollowsRecord(states: seq<State>, labels: seq<Label>, k: nat) returns (t: nat)
    requires IsRun(states, labels) && Initial(states[0]) && k <= |labels|
    requires states[k].heal.Running? && states[k].heal.point.Swapped?
    ensures t < k && Installed(states[t], states[k].heal.job, states[k].heal.index)
  {
    hide Inv, Twin, Next, Enabled;
    RunKeepsTwin(states, labels, k - 1);
    var s, l := states[k - 1], labels[k - 1];
    BeforeSwapped(s, l);
    if l.SwapMemory? {
      t := k - 1;
    } else {
      t := SwapFollowsRecord(states, labels, k - 1);
    }
  }

  lemma BeforeSwapped(s: State, l: Label)
    requires Inv(s) && Indexed(s) && Enabled(s, l) && Next(s, l).heal.Running? && Next(s, l).heal.point.Swapped?
    ensures if l.SwapMemory? then Installed(s, Next(s, l).heal.job, Next(s, l).heal.index)
            else s.heal == Next(s, l).heal
  {
    hide CopyFresh, ResumeSound, PendingJoined, NoActive, AlreadySwapped;
  }

  /** Over every run: a job at or past STATE_SWAPPED had its pending state installed, or a resume found it in memory. */
  lemma {:induction false} SwappedHasCause(states: seq<State>, labels: seq<Label>, k: nat, j: nat)
    requires IsRun(states, labels) && Initial(states[0]) && k <= |labels|
    requires j < |states[k].jobs| && Rank(states[k].jobs[j].status) >= 4
    ensures || (exists t :: 0 <= t < k && Installed(states[t], states[k].jobs[j], j))
            || (exists t :: 0 <= t < k && Detected(states[t], labels[t], states[k].jobs[j], j))
  {
    hide Inv, Twin, Next, Enabled, OnBranch;
    if k > 0 {
      var s, l := states[k - 1], labels[k - 1];
      RunKeepsTwin(states, labels, k - 1);
      NewJobsAreInitiated(s, l, j);
      if Rank(s.jobs[j].status) >= 4 {
        SwappedHasCause(states, labels, k - 1, j);
        StoredStays(s, l, j);
        CauseStays(states, labels, k - 1, s.jobs[j], states[k].jobs[j], j);
      } else {
        SwapsExactly(s, l, j);
        if l.SaveSwapped? && s.heal.Running? && s.heal.index == j {
          SavesCopy(s, j);
          var t := SwapFollowsRecord(states, labels, k - 1);
          assert Installed(states[t], states[k].jobs[j], j);
        } else {
          ResumeDetects(s, l, j);
          assert Detected(states[k - 1], labels[k - 1], states[k].jobs[j], j);
        }
      }
    }
  }

  lemma NewJobsAreInitiated(s: State, l: Label, j: nat)
    requires Indexed(s) && Enabled(s, l) && j < |Next(s, l).jobs| && Rank(Next(s, l).jobs[j].status) >= 4
    ensures j < |s.jobs|
  {
    hide NoActive, AlreadySwapped;
  }

  lemma SavesCopy(s: State, j: nat)
    requires Inv(s) && Indexed(s) && Enabled(s, SaveSwapped) && s.heal.index == j
    ensures s.heal.point.Swapped? && j < |s.jobs|
    ensures SameJob(Next(s, SaveSwapped).jobs[j], s.heal.job)
  {
    hide Inv;
  }

  lemma ResumeDetects(s: State, l: Label, j: nat)
    requires Inv(s) && Indexed(s) && Enabled(s, l) && l.ResumeFix? && s.resume.index == j && j < |s.jobs|
    requires Rank(s.jobs[j].status) < 4 && Rank(Next(s, l).jobs[j].status) >= 4 && OnBranch(s.memory, s.resume.job)
    ensures Detected(s, l, Next(s, l).jobs[j], j)
  {
    hide Inv;
  }

  lemma CauseStays(states: seq<State>, labels: seq<Label>, k: nat, a: Job, b: Job, j: nat)
    requires SameJob(a, b) && k <= |labels| && |states| == |labels| + 1
    requires || (exists t :: 0 <= t < k && Installed(states[t], a, j))
             || (exists t :: 0 <= t < k && Detected(states[t], labels[t], a, j))
    ensures || (exists t :: 0 <= t < k + 1 && Installed(states[t], b, j))
            || (exists t :: 0 <= t < k + 1 && t < |labels| && Detected(states[t], labels[t], b, j))
  {
    if t :| 0 <= t < k && Installed(states[t], a, j) {
      assert Installed(states[t], b, j);
    } else {
      var t :| 0 <= t < k && Detected(states[t], labels[t], a, j);
      assert Detected(states[t], labels[t], b, j);
    }
  }
}
