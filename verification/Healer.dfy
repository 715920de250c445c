/** The heal methods of the coordinator, each proved to take only steps of the heal state machine. */
module Healer {
  import opened Bytes
  import opened Types
  import opened HealJob
  import opened HealSwaps
  import opened HealRuns

  /** What happens while runHeal waits for a Welcome. */
  datatype Arrival = Welcome(joined: GroupRecord) | Silence | Cancelled

  /** The state brought by the first Welcome, if only silence comes before it. */
  function FirstWelcome(arrivals: seq<Arrival>): Option<GroupRecord> {
    if arrivals == [] || arrivals[0].Cancelled? then None
    else if arrivals[0].Welcome? then Some(arrivals[0].joined)
    else FirstWelcome(arrivals[1..])
  }

  /** The newest unfinished job has asked to join and can open a Welcome. */
  predicate AwaitsWelcome(jobs: seq<Job>) {
    !NoActive(jobs) && jobs[Active(jobs)].status.ProposalSent? && jobs[Active(jobs)].bundle != []
  }

  function JoinedWith(job: Job, won: GroupRecord): Job {
    job.(status := ExternalJoined, pending := Some(won), winningEpoch := won.epoch, winningTree := won.treeHash)
  }

  /** The job that a heal works on: the newest unfinished one, or a new one for the winning branch. */
  function Target(jobs: seq<Job>, epoch: nat, tree: Bytes): (nat, Job) {
    if NoActive(jobs) then (|jobs|, Job(Initiated, None, [], epoch, tree)) else (Active(jobs), jobs[Active(jobs)])
  }

  /** The state that a heal of this job installs, if the wait goes well. */
  function Wins(job: Job, arrivals: seq<Arrival>): Option<GroupRecord> {
    if Rank(job.status) <= 1 then FirstWelcome(arrivals) else if job.status.ExternalJoined? then job.pending else None
  }

  /** A heal runs to its end: past the swap already, or with a state to install that is not empty. */
  predicate Succeeds(job: Job, keyPackage: Option<Bytes>, arrivals: seq<Arrival>) {
    || Rank(job.status) >= 4
    || (&& (Rank(job.status) <= 1 ==> keyPackage.Some?)
        && Wins(job, arrivals).Some? && Wins(job, arrivals).value.state != [])
  }

  class Healer {
    var record: GroupRecord
    var memory: GroupRecord
    var jobs: seq<Job>
    var signal: bool
    var healing: bool
    /** The run of the state machine so far. */
    ghost var states: seq<State>
    ghost var labels: seq<Label>

    ghost function Now(): State
      requires states != []
      reads this
    {
      states[|states| - 1]
    }

    ghost predicate Valid()
      reads this
    {
      && |states| == |labels| + 1 && IsRun(states, labels) && Initial(states[0])
      && Now().record == record && Now().memory == memory && Now().jobs == jobs
      && Now().signal == signal && Now().healing == healing
    }

    constructor (record: GroupRecord)
      requires record.state != []
      ensures Valid() && memory == this.record == record && jobs == [] && labels == [] && Now().heal.Idle?
      ensures Now().resume.NoResume?
    {
      this.record, memory, jobs, signal, healing := record, record, [], false, false;
      states, labels := [State(record, record, [], {}, false, false, Idle, NoResume)], [];
    }

    /** Record one step; the fields must already show its outcome. */
    ghost method Took(l: Label)
      requires |states| == |labels| + 1 && IsRun(states, labels) && Initial(states[0])
      requires Indexed(Now()) && Enabled(Now(), l)
      requires var s := Next(Now(), l);
               s.record == record && s.memory == memory && s.jobs == jobs && s.signal == signal && s.healing == healing
      modifies this`states, this`labels
      ensures Valid() && Now() == Next(old(Now()), l) && labels == old(labels) + [l]
    {
      hide Next, Enabled;
      states, labels := states + [Next(Now(), l)], labels + [l];
    }

    lemma Facts()
      requires Valid()
      ensures Inv(Now()) && Indexed(Now())
    {
      InitialInv(states[0]);
      RunKeeps(states, labels, |labels|);
    }

    /** The deferred restore and the end of runHeal: on every exit memory is non-empty and equals the stored record. */
    method Finish()
      requires Valid() && Now().heal.Running? && !Now().heal.point.RecordSaved?
      modifies this
      ensures Valid() && Now().heal.Idle? && !healing && Now().resume == old(Now().resume)
      ensures memory == record && memory.state != [] && jobs == old(jobs) && record == old(record)
    {
      Facts();
      if memory.state == [] && record.state != [] {
        memory := record;
      }
      healing := false;
      Took(Leave);
      Facts();
    }

    /** SaveForkHealingJob on runHeal's copy with a new status. */
    method SaveJob(index: nat, job: Job, ghost l: Label)
      requires Valid() && Indexed(Now()) && Enabled(Now(), l) && index < |jobs|
      requires Next(Now(), l) == Now().(jobs := jobs[index := job], heal := Next(Now(), l).heal)
      modifies this
      ensures Valid() && Now() == Next(old(Now()), l)
    {
      jobs := jobs[index := job];
      Took(l);
    }

    /** The job runHeal works on: the active one, or a new one. */
    method LoadOrCreate(remoteEpoch: nat, remoteTree: Bytes) returns (index: nat, job: Job)
      requires Valid() && Now().heal.Running? && Now().heal.point.Loading?
      modifies this
      ensures Valid() && Now().heal == Running(index, job, Phase) && index < |jobs| && Now().resume == old(Now().resume)
      ensures record == old(record) && memory == old(memory) && signal == old(signal)
      ensures (index, job) == Target(old(jobs), remoteEpoch, remoteTree)
      ensures jobs == if old(NoActive(jobs)) then old(jobs) + [job] else old(jobs)
      ensures !NoActive(jobs) && Active(jobs) == index && jobs[index] == job
    {
      Facts();
      if NoActive(jobs) {
        index, job := |jobs|, Job(Initiated, None, [], remoteEpoch, remoteTree);
        jobs := jobs + [job];
      } else {
        index := Active(jobs);
        job := jobs[index];
      }
      Took(LoadJob(remoteEpoch, remoteTree));
      assert !jobs[index].status.Cleaned?;
    }

    /** ProcessWelcomeIfWaiting, once MLS has accepted the Welcome. */
    method ProcessWelcome(joined: GroupRecord) returns (accepted: bool)
      requires Valid()
      modifies this
      ensures Valid() && Now().heal == old(Now().heal) && Now().resume == old(Now().resume)
      ensures record == old(record) && memory == old(memory) && healing == old(healing)
      ensures accepted <==> old(AwaitsWelcome(jobs))
      ensures accepted ==>
                signal && joined in Now().joined
                && jobs == old(jobs)[old(Active(jobs)) := JoinedWith(old(jobs[Active(jobs)]), joined)]
      ensures !accepted ==> jobs == old(jobs) && signal == old(signal)
    {
      Facts();
      if NoActive(jobs) || !jobs[Active(jobs)].status.ProposalSent? || jobs[Active(jobs)].bundle == [] {
        return false;
      }
      var j := Active(jobs);
      jobs :=
        jobs[j :=
               jobs[j].(status := ExternalJoined, pending := Some(joined), winningEpoch := joined.epoch,
                        winningTree := joined.treeHash)];
      signal := true;
      Took(WelcomeArrives(joined));
      accepted := true;
    }

    /** Waiting for the Welcome: up to three attempts; then the job is read again from storage. */
    method AwaitWelcome(arrivals: seq<Arrival>) returns (joined: bool, index: nat, job: Job)
      requires Valid() && Now().heal.Running? && Now().heal.point == Awaiting(1) && |arrivals| == MAX_JOIN_ATTEMPTS
      modifies this
      ensures Valid() && Now().heal.Running? && Now().resume == old(Now().resume)
      ensures record == old(record) && healing == old(healing)
      ensures if joined then Now().heal == Running(index, job, Phase) && index < |jobs| else Now().heal.point.Awaiting?
      ensures old(!signal && AwaitsWelcome(jobs)) ==>
                && (joined <==> FirstWelcome(arrivals).Some?)
                && (joined ==> index == old(Active(jobs))
                               && job == JoinedWith(old(jobs[Active(jobs)]), FirstWelcome(arrivals).value)
                               && jobs == old(jobs)[index := job])
    {
      hide Next, Inv, NoActive, JoinedWith;
      joined, index, job := false, 0, EMPTY_JOB;
      var attempt := 1;
      while attempt <= MAX_JOIN_ATTEMPTS
        invariant 1 <= attempt <= MAX_JOIN_ATTEMPTS && !joined
        invariant Valid() && Now().heal.Running? && Now().heal.point == Awaiting(attempt)
                    && Now().resume == old(Now().resume)
        invariant record == old(record) && healing == old(healing)
        invariant old(!signal && AwaitsWelcome(jobs)) ==>
                    !signal && jobs == old(jobs) && FirstWelcome(arrivals) == FirstWelcome(arrivals[attempt - 1..])
        decreases MAX_JOIN_ATTEMPTS - attempt
      {
        assert arrivals[attempt - 1..][1..] == arrivals[attempt..];
        if arrivals[attempt - 1].Cancelled? {
          return;
        }
        var woken;
        woken, joined, index, job := Look(arrivals[attempt - 1]);
        if woken {
          return;
        }
        if attempt == MAX_JOIN_ATTEMPTS {
          return;
        }
        NextAttempt();
        attempt := attempt + 1;
      }
    }

    /** One round of the wait: a Welcome may come, and a signal wakes runHeal. */
    method Look(arrival: Arrival) returns (woken: bool, joined: bool, index: nat, job: Job)
      requires Valid() && Now().heal.Running? && Now().heal.point.Awaiting?
      modifies this
      ensures Valid() && Now().heal.Running? && Now().resume == old(Now().resume)
      ensures record == old(record) && healing == old(healing) && (joined ==> woken)
      ensures if joined then Now().heal == Running(index, job, Phase) && index < |jobs|
              else Now().heal == old(Now().heal)
      ensures old(!signal && AwaitsWelcome(jobs)) ==>
                && (woken <==> arrival.Welcome?) && (joined <==> arrival.Welcome?)
                && (!woken ==> !signal && jobs == old(jobs))
                && (woken ==> index == old(Active(jobs)) && job == JoinedWith(old(jobs[Active(jobs)]), arrival.joined)
                              && jobs == old(jobs)[index := job])
    {
      hide Next, Inv, IsRun;
      joined, index, job := false, 0, EMPTY_JOB;
      if arrival.Welcome? {
        var accepted := ProcessWelcome(arrival.joined);
        if old(AwaitsWelcome(jobs)) {
          SameActive(old(jobs), jobs, old(Active(jobs)));
        }
      }
      woken := signal;
      if woken {
        joined, index, job := Reload();
      }
    }

    /** The signal is consumed and the active job is read again. */
    method Reload() returns (found: bool, index: nat, job: Job)
      requires Valid() && Now().heal.Running? && Now().heal.point.Awaiting? && signal
      modifies this
      ensures Valid() && Now().heal.Running? && Now().resume == old(Now().resume)
      ensures record == old(record) && healing == old(healing) && jobs == old(jobs)
      ensures if found then Now().heal == Running(index, job, Phase) && index < |jobs|
              else Now().heal == old(Now().heal)
      ensures found <==> !NoActive(jobs)
      ensures found ==> index == Active(jobs) && job == jobs[index]
    {
      Facts();
      found, index, job := !NoActive(jobs), 0, EMPTY_JOB;
      signal := false;
      if found {
        index := Active(jobs);
        job := jobs[index];
      }
      Took(Welcomed);
    }

    /** The proposal is published again; storage and memory stay. */
    ghost method NextAttempt()
      requires Valid() && Now().heal.Running? && Now().heal.point.Awaiting?
      requires Now().heal.point.attempt < MAX_JOIN_ATTEMPTS
      modifies this`states, this`labels
      ensures Valid() && Now().heal == old(Now().heal.(point := Awaiting(Now().heal.point.attempt + 1)))
      ensures Now().resume == old(Now().resume)
    {
      Facts();
      Took(AwaitTimeout);
    }

    /** The SNAPSHOT_CREATED phase: drop the group from memory, record the request, wait for the Welcome. */
    method RequestJoin(index: nat, job: Job, bundle: Bytes, arrivals: seq<Arrival>)
      returns (joined: bool, index': nat, job': Job)
      requires Valid() && Now().heal == Running(index, job, Phase) && index < |jobs| && job.status.SnapshotCreated?
      requires |arrivals| == MAX_JOIN_ATTEMPTS
      modifies this
      ensures Valid() && Now().heal.Running? && Now().resume == old(Now().resume)
      ensures record == old(record) && healing == old(healing)
      ensures if joined then Now().heal == Running(index', job', Phase) && index' < |jobs|
              else Now().heal.point.Awaiting?
      ensures old(!signal && !NoActive(jobs) && Active(jobs) == index && jobs[index] == job) && bundle != [] ==>
                && (joined <==> FirstWelcome(arrivals).Some?)
                && (joined ==> index' == index && job'.status.ExternalJoined? && job'.pending == FirstWelcome(arrivals)
                               && jobs == old(jobs)[index := job'])
    {
      Facts();
      memory := Emptied(memory);
      Took(DropMemory);
      SaveJob(index, job.(status := ProposalSent, bundle := bundle), SendProposal(bundle));
      if old(!signal && !NoActive(jobs) && Active(jobs) == index && jobs[index] == job) && bundle != [] {
        SameActive(old(jobs), jobs, index);
      }
      joined, index', job' := AwaitWelcome(arrivals);
    }

    /** The EXTERNAL_JOINED phase: the record first, then memory, then the job. */
    method SwapState(index: nat, job: Job) returns (job': Job)
      requires Valid() && Now().heal == Running(index, job, Phase) && index < |jobs|
      requires job.status.ExternalJoined? && HasPending(job)
      modifies this
      ensures Valid() && job' == job.(status := StateSwapped) && Now().heal == Running(index, job', Phase)
      ensures memory == record == job.pending.value && jobs == old(jobs)[index := job']
      ensures Now().resume == old(Now().resume)
    {
      Facts();
      record := job.pending.value;
      Took(SaveRecord);
      memory := job.pending.value;
      Took(SwapMemory);
      job' := job.(status := StateSwapped);
      SaveJob(index, job', SaveSwapped);
    }

    /** The STATE_SWAPPED phase: each encryption of the replay moves memory and record together. */
    method ReplayPhase(index: nat, job: Job, encrypted: seq<GroupRecord>) returns (job': Job)
      requires Valid() && Now().heal == Running(index, job, Phase) && index < |jobs| && job.status.StateSwapped?
      requires memory.state == [] ==> encrypted == []
      requires forall i :: 0 <= i < |encrypted| ==> encrypted[i].state != []
      modifies this
      ensures Valid() && job' == job.(status := LocalComplete) && Now().heal == Running(index, job', Phase)
      ensures jobs == old(jobs)[index := job'] && Now().resume == old(Now().resume)
      ensures if encrypted == [] then memory == old(memory) && record == old(record)
              else memory == record == encrypted[|encrypted| - 1]
    {
      hide IsRun, Inv;
      for i := 0 to |encrypted|
        invariant if i == 0 then memory == old(memory) && record == old(record)
                  else memory == record == encrypted[i - 1]
        invariant Valid() && Now().heal == Running(index, job, Phase) && jobs == old(jobs)
        invariant memory.state == [] ==> encrypted == []
        invariant Now().resume == old(Now().resume)
      {
        Facts();
        memory := encrypted[i];
        record := memory;
        Took(Ordinary(memory));
      }
      Facts();
      job' := job.(status := LocalComplete);
      SaveJob(index, job', FinishReplay);
    }

    /** runHeal, from the job it finds or creates to any of its exits. */
    method RunHeal(remoteEpoch: nat, remoteTree: Bytes, aborted: bool, keyPackage: Option<Bytes>,
                   arrivals: seq<Arrival>,
                   encrypted: seq<GroupRecord>) returns (completed: bool)
      requires Valid() && Now().heal.Running? && Now().heal.point.Loading? && |arrivals| == MAX_JOIN_ATTEMPTS
      requires forall i :: 0 <= i < |encrypted| ==> encrypted[i].state != []
      modifies this
      ensures Valid() && Now().heal.Idle? && !healing && memory == record && memory.state != []
      ensures var (index, job) := Target(old(jobs), remoteEpoch, remoteTree);
              old(!signal) && keyPackage != Some([]) ==>
                && (completed <==> !aborted && Succeeds(job, keyPackage, arrivals))
                && (completed ==>
                      && index < |jobs| && jobs[index].status.Cleaned?
                      && (Rank(job.status) < 4 ==>
                            record == if encrypted == [] then Wins(job, arrivals).value
                            else encrypted[|encrypted| - 1]))
    {
      hide Next, Inv, Enabled, IsRun;
      completed := false;
      if aborted {
        Finish();
        return;
      }
      var index, job := LoadOrCreate(remoteEpoch, remoteTree);
      var ready;
      ready, index, job := Join(index, job, keyPackage, arrivals);
      if ready {
        completed := Conclude(index, job, encrypted);
      }
      Finish();
    }

    /** From the swap on: a joined job without a state to install ends the heal. */
    method Conclude(index: nat, start: Job, encrypted: seq<GroupRecord>) returns (completed: bool)
      requires Valid() && Now().heal == Running(index, start, Phase) && index < |jobs|
      requires forall i :: 0 <= i < |encrypted| ==> encrypted[i].state != []
      modifies this
      ensures Valid() && Now().heal.Running? && !Now().heal.point.RecordSaved?
      ensures completed <==>
                start.status.StateSwapped? || start.status.LocalComplete?
                || (start.status.ExternalJoined? && HasPending(start))
      ensures completed ==> index < |jobs| && jobs[index].status.Cleaned?
      ensures completed && start.status.ExternalJoined? ==>
                record == if encrypted == [] then start.pending.value else encrypted[|encrypted| - 1]
    {
      hide Next, Inv, Enabled, IsRun;
      completed := false;
      var job := start;
      if job.status.ExternalJoined? {
        if !HasPending(job) {
          return;
        }
        job := SwapState(index, job);
      }
      completed := FinishJob(index, job, encrypted);
    }

    /** The first two phases: take the snapshot, ask to join and wait. Later phases pass through. */
    method Join(index: nat, job: Job, keyPackage: Option<Bytes>, arrivals: seq<Arrival>)
      returns (ready: bool, index': nat, job': Job)
      requires Valid() && Now().heal == Running(index, job, Phase) && index < |jobs| && |arrivals| == MAX_JOIN_ATTEMPTS
      modifies this
      ensures Valid() && Now().heal.Running? && !Now().heal.point.RecordSaved? && record == old(record)
      ensures ready ==> Now().heal == Running(index', job', Phase) && index' < |jobs|
      ensures Rank(job.status) >= 2 ==>
                ready && index' == index && job' == job && jobs == old(jobs) && memory == old(memory)
      ensures old(!signal && !NoActive(jobs) && Active(jobs) == index && jobs[index] == job) && keyPackage != Some([])
              && Rank(job.status) <= 1 ==>
                && (ready <==> keyPackage.Some? && FirstWelcome(arrivals).Some?)
                && (ready ==> index' == index && job'.status.ExternalJoined? && job'.pending == FirstWelcome(arrivals))
    {
      hide Next, Inv, Enabled, IsRun;
      ready, index', job' := true, index, job;
      if job'.status.Initiated? {
        job' := TakeSnapshot(index, job');
        if old(!NoActive(jobs) && Active(jobs) == index && jobs[index] == job) {
          SameActive(old(jobs), jobs, index);
        }
      }
      if job'.status.SnapshotCreated? {
        ready := keyPackage.Some?;
        if ready {
          ready, index', job' := RequestJoin(index, job', keyPackage.value, arrivals);
        }
      }
    }

    method TakeSnapshot(index: nat, job: Job) returns (job': Job)
      requires Valid() && Now().heal == Running(index, job, Phase) && index < |jobs| && job.status.Initiated?
      modifies this
      ensures Valid() && job' == job.(status := SnapshotCreated) && Now().heal == Running(index, job', Phase)
      ensures memory == old(memory) && record == old(record) && jobs == old(jobs)[index := job']
      ensures Now().resume == old(Now().resume) && signal == old(signal)
    {
      Facts();
      job' := job.(status := SnapshotCreated);
      SaveJob(index, job', Snapshot);
    }

    /** The last two phases. */
    method FinishJob(index: nat, start: Job, encrypted: seq<GroupRecord>) returns (completed: bool)
      requires Valid() && Now().heal == Running(index, start, Phase) && index < |jobs|
      requires forall i :: 0 <= i < |encrypted| ==> encrypted[i].state != []
      modifies this
      ensures Valid() && Now().heal.Running? && Now().heal.point.Phase?
      ensures completed <==> start.status.StateSwapped? || start.status.LocalComplete?
      ensures completed ==> jobs == old(jobs)[index := start.(status := Cleaned)]
      ensures start.status.StateSwapped? && old(memory.state) != [] && encrypted != [] ==>
                record == encrypted[|encrypted| - 1]
      ensures !start.status.StateSwapped? || encrypted == [] ==> record == old(record)
    {
      completed := false;
      var job := start;
      if job.status.StateSwapped? {
        // MLS refuses an empty state, so a group missing from memory encrypts nothing.
        job := ReplayPhase(index, job, if memory.state == [] then [] else encrypted);
      }
      if job.status.LocalComplete? {
        Facts();
        SaveJob(index, job.(status := Cleaned), Clean);
        completed := true;
      }
    }

    /** A fork event asks for a heal: only one may run. */
    method TryBegin() returns (begun: bool)
      requires Valid()
      modifies this
      ensures Valid() && begun == !old(healing) && healing && Now().resume == old(Now().resume)
      ensures if begun then Now().heal.Running? && Now().heal.point.Loading? else Now() == old(Now())
      ensures record == old(record) && memory == old(memory) && jobs == old(jobs)
    {
      Facts();
      begun := !healing;
      if begun {
        healing := true;
        Took(Begin);
      }
    }

    /** A crash and the next Start: memory is rebuilt from the record, and an unfinished job is loaded for a resume. */
    method RestartNode() returns (pending: Option<(nat, Job)>)
      requires Valid()
      modifies this
      ensures Valid() && memory == record == old(record) && memory.state != [] && jobs == old(jobs) && !healing
      ensures Now().heal.Idle?
      ensures pending.Some? <==> !NoActive(jobs)
      ensures Now().resume == if pending.Some? then Loaded(pending.value.0, pending.value.1) else NoResume
      ensures pending.Some? ==>
                pending.value.0 < |jobs| && jobs[pending.value.0] == pending.value.1 && !pending.value.1.status.Cleaned?
    {
      Facts();
      memory, signal, healing := record, false, false;
      pending := None;
      if !NoActive(jobs) {
        pending := Some((Active(jobs), jobs[Active(jobs)]));
      }
      Took(Restart);
      Facts();
    }

    /** resumeForkHealingJob up to runHeal: the check on the loaded copy, then the race for the healing flag. */
    method ResumeJob(index: nat, job: Job) returns (begun: bool)
      requires Valid() && Now().resume == Loaded(index, job)
      modifies this
      ensures Valid() && Now().resume.NoResume? && begun == !old(healing) && healing
      ensures begun ==> Now().heal.Running? && Now().heal.point.Loading?
      ensures record == old(record) && memory == old(memory) && index < |old(jobs)|
      ensures jobs == if job.status.ExternalJoined? && OnBranch(old(memory), job)
                      then old(jobs)[index := job.(status := StateSwapped)] else old(jobs)
    {
      hide IsRun, Inv, AlreadySwapped, OnBranch;
      CheckJob(index, job);
      Facts();
      begun := !healing;
      healing := true;
      Took(ResumeBegin);
    }

    /** The check of a resume: a swap that is already done is recorded on the loaded copy, which is stored. */
    method CheckJob(index: nat, job: Job)
      requires Valid() && Now().resume == Loaded(index, job)
      modifies this
      ensures Valid() && Indexed(old(Now())) && Now() == Next(old(Now()), ResumeFix) && Now().resume.Checked?
      ensures index < |old(jobs)|
      ensures jobs == if job.status.ExternalJoined? && OnBranch(old(memory), job)
                      then old(jobs)[index := job.(status := StateSwapped)] else old(jobs)
    {
      hide IsRun, Inv, AlreadySwapped, OnBranch;
      Facts();
      BranchMeans(memory, job);
      if AlreadySwapped(memory, job) {
        jobs := jobs[index := job.(status := StateSwapped)];
      }
      Took(ResumeFix);
    }
  }
}
