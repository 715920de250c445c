/**
  * The fork-heal job as a state machine: its own steps, Welcomes,
  * ordinary group steps, crashes and resumes in any order.
  */
module HealJob {
  import opened Bytes
  import opened Types

  datatype Status = Initiated | SnapshotCreated | ProposalSent | ExternalJoined | StateSwapped | LocalComplete | Cleaned

  function Rank(s: Status): nat {
    match s
    case Initiated => 0
    case SnapshotCreated => 1
    case ProposalSent => 2
    case ExternalJoined => 3
    case StateSwapped => 4
    case LocalComplete => 5
    case Cleaned => 6
  }

  /** A group state with its epoch and tree hash, as the stored record or as held in memory. */
  datatype GroupRecord = GroupRecord(state: Bytes, epoch: nat, treeHash: Bytes)

  datatype Job = Job(status: Status, pending: Option<GroupRecord>, bundle: Bytes, winningEpoch: nat, winningTree: Bytes)

  /** Where runHeal stands; every point lies between two writes. */
  datatype Point = Loading | Phase | Dropped | Awaiting(attempt: nat) | RecordSaved | Swapped

  /** The goroutine of runHeal, with the copy of the job it works on. */
  datatype Heal = Idle | Running(index: nat, job: Job, point: Point)

  /** A resume that was started with a copy of the job loaded at startup. */
  datatype Resume = NoResume | Loaded(index: nat, job: Job) | Checked

  /** `joined` collects every state a Welcome has delivered; nothing reads it. */
  datatype State = State(
    record: GroupRecord, memory: GroupRecord, jobs: seq<Job>, joined: set<GroupRecord>,
    signal: bool, healing: bool, heal: Heal, resume: Resume)

  const MAX_JOIN_ATTEMPTS := 3

  predicate NoActive(jobs: seq<Job>) {
    forall j :: 0 <= j < |jobs| ==> jobs[j].status.Cleaned?
  }

  /** GetActiveForkHealingJob: the newest job that is not finished. */
  function Active(jobs: seq<Job>): (j: nat)
    requires !NoActive(jobs)
    ensures j < |jobs| && !jobs[j].status.Cleaned?
    ensures forall k :: j < k < |jobs| ==> jobs[k].status.Cleaned?
  {
    var last := |jobs| - 1;
    if jobs[last].status.Cleaned? then Active(jobs[..last]) else last
  }

  /** Empty in memory only; storage keeps the group. */
  function Emptied(m: GroupRecord): GroupRecord {
    GroupRecord([], m.epoch, [])
  }

  /** isAlreadyOnWinningBranch && phaseBeforeStateSwapped. */
  predicate AlreadySwapped(m: GroupRecord, job: Job) {
    && job.status.ExternalJoined?
    && (if job.pending.Some? && job.pending.value.epoch > 0 && m.epoch == job.pending.value.epoch
        then m.treeHash == job.pending.value.treeHash
        else m.epoch == job.winningEpoch && m.treeHash == job.winningTree)
  }

  datatype Label =
    | Begin
    | LoadJob(winningEpoch: nat, winningTree: Bytes)
    | Snapshot
    | DropMemory
    | SendProposal(bundle: Bytes)
    | Welcomed
    | AwaitTimeout
    | SaveRecord
    | SwapMemory
    | SaveSwapped
    | FinishReplay
    | Clean
    | Leave
    | WelcomeArrives(joined: GroupRecord)
    | Ordinary(next: GroupRecord)
    | Restart
    | ResumeFix
    | ResumeBegin

  predicate InPhase(s: State, status: Status) {
    s.heal.Running? && s.heal.point.Phase? && s.heal.job.status == status
  }

  predicate HasPending(job: Job) {
    job.pending.Some? && job.pending.value.state != []
  }

  predicate Enabled(s: State, l: Label) {
    match l
    case Begin => !s.healing && s.heal.Idle?
    case LoadJob(_, _) => s.heal.Running? && s.heal.point.Loading?
    case Snapshot => InPhase(s, Initiated)
    case DropMemory => InPhase(s, SnapshotCreated)
    case SendProposal(_) => s.heal.Running? && s.heal.point.Dropped?
    case Welcomed => s.heal.Running? && s.heal.point.Awaiting? && s.signal
    case AwaitTimeout => s.heal.Running? && s.heal.point.Awaiting? && s.heal.point.attempt < MAX_JOIN_ATTEMPTS
    case SaveRecord => InPhase(s, ExternalJoined) && HasPending(s.heal.job)
    case SwapMemory => s.heal.Running? && s.heal.point.RecordSaved?
    case SaveSwapped => s.heal.Running? && s.heal.point.Swapped?
    case FinishReplay => InPhase(s, StateSwapped)
    case Clean => InPhase(s, LocalComplete)
    // Key package failure, cancellation, the last timeout, a missing pending state or the
    // end: runHeal may return anywhere between its writes except inside the locked swap.
    case Leave => s.heal.Running? && !s.heal.point.RecordSaved?
    case WelcomeArrives(joined) =>
      && !NoActive(s.jobs) && s.jobs[Active(s.jobs)].status.ProposalSent? && s.jobs[Active(s.jobs)].bundle != []
    case Ordinary(next) => s.memory.state != [] && next.state != [] && !(s.heal.Running? && s.heal.point.RecordSaved?)
    case Restart => true
    case ResumeFix => s.resume.Loaded?
    case ResumeBegin => s.resume.Checked?
  }

  /** runHeal saves its copy of the job with a new status. */
  function Advance(s: State, status: Status, point: Point): State
    requires s.heal.Running? && s.heal.index < |s.jobs|
  {
    var job := s.heal.job.(status := status);
    s.(jobs := s.jobs[s.heal.index := job], heal := s.heal.(job := job, point := point))
  }

  predicate Indexed(s: State) {
    && (s.heal.Running? && !s.heal.point.Loading? ==> s.heal.index < |s.jobs|)
    && (s.resume.Loaded? ==> s.resume.index < |s.jobs|)
  }

  function Next(s: State, l: Label): (r: State)
    requires Enabled(s, l) && Indexed(s)
    ensures Indexed(r)
  {
    match l
    case Begin => s.(healing := true, heal := Running(0, EMPTY_JOB, Loading))
    case LoadJob(epoch, tree) =>
      if NoActive(s.jobs) then
        var job := Job(Initiated, None, [], epoch, tree);
        s.(jobs := s.jobs + [job], heal := Running(|s.jobs|, job, Phase))
      else s.(heal := Running(Active(s.jobs), s.jobs[Active(s.jobs)], Phase))
    case Snapshot => Advance(s, SnapshotCreated, Phase)
    case DropMemory => s.(memory := Emptied(s.memory), heal := s.heal.(point := Dropped))
    case SendProposal(bundle) =>
      Advance(s.(heal := s.heal.(job := s.heal.job.(bundle := bundle))), ProposalSent, Awaiting(1))
    case Welcomed =>
      if NoActive(s.jobs) then s.(signal := false)
      else s.(signal := false, heal := Running(Active(s.jobs), s.jobs[Active(s.jobs)], Phase))
    case AwaitTimeout => s.(heal := s.heal.(point := Awaiting(s.heal.point.attempt + 1)))
    case SaveRecord => s.(record := s.heal.job.pending.value, heal := s.heal.(point := RecordSaved))
    case SwapMemory =>
      s.(memory := if s.heal.job.pending.Some? then s.heal.job.pending.value else s.memory,
         heal := s.heal.(point := Swapped))
    case SaveSwapped => Advance(s, StateSwapped, Phase)
    case FinishReplay => Advance(s, LocalComplete, Phase)
    case Clean => Advance(s, Cleaned, Phase)
    case Leave => s.(memory := if s.memory.state == [] then s.record else s.memory, healing := false, heal := Idle)
    case WelcomeArrives(joined) =>
      var j := Active(s.jobs);
      var job := s.jobs[j].(status := ExternalJoined, pending := Some(joined), winningEpoch := joined.epoch,
                            winningTree := joined.treeHash);
      s.(jobs := s.jobs[j := job], joined := s.joined + {joined}, signal := true)
    case Ordinary(next) => s.(record := next, memory := next)
    case Restart =>
      s.(memory := s.record, signal := false, healing := false, heal := Idle,
         resume := if NoActive(s.jobs) then NoResume else Loaded(Active(s.jobs), s.jobs[Active(s.jobs)]))
    case ResumeFix =>
      var job := s.resume.job;
      if AlreadySwapped(s.memory, job)
      then s.(jobs := s.jobs[s.resume.index := job.(status := StateSwapped)], resume := Checked)
      else s.(resume := Checked)
    case ResumeBegin =>
      if s.healing then s.(resume := NoResume)
      else s.(resume := NoResume, healing := true, heal := Running(0, EMPTY_JOB, Loading))
  }

  const EMPTY_JOB := Job(Initiated, None, [], 0, [])

  // ----- what every step keeps -----

  /** runHeal's copy never lags behind storage where it is going to be written back. */
  predicate CopyFresh(jobs: seq<Job>, h: Heal) {
    h.Running? && !h.point.Loading? ==>
      && h.index < |jobs|
      && var r, stored := Rank(h.job.status), Rank(jobs[h.index].status);
      && (h.point.Dropped? ==> r == 1)
      && (h.point.Awaiting? ==> r == 2)
      && (h.point.RecordSaved? || h.point.Swapped? ==> r == 3)
      && if r <= 1 then stored == r else if r == 2 then stored >= 2 else 3 <= stored <= r + 1
  }

  /** A resume that could still rewrite the status holds a copy of a job that has been joined. */
  predicate ResumeSound(jobs: seq<Job>, r: Resume) {
    r.Loaded? ==> r.index < |jobs| && (r.job.status.ExternalJoined? ==> Rank(jobs[r.index].status) >= 3)
  }

  /** Pending states come from Welcomes. */
  predicate PendingJoined(s: State) {
    && (forall j :: 0 <= j < |s.jobs| && s.jobs[j].pending.Some? ==> s.jobs[j].pending.value in s.joined)
    && (s.heal.Running? && s.heal.job.pending.Some? ==> s.heal.job.pending.value in s.joined)
    && (s.resume.Loaded? && s.resume.job.pending.Some? ==> s.resume.job.pending.value in s.joined)
  }

  /** The stored group is never lost, and memory agrees with it wherever runHeal is not in between. */
  predicate GroupSafe(s: State) {
    && s.record.state != []
    && (s.heal.Idle? ==> s.memory == s.record)
    && (s.heal.Running? ==>
          if s.heal.point.RecordSaved? then HasPending(s.heal.job) && s.record == s.heal.job.pending.value
          else s.memory == s.record || (s.memory.state == [] && !s.heal.point.Loading?))
    && (s.healing <==> s.heal.Running?)
  }

  predicate Inv(s: State) {
    CopyFresh(s.jobs, s.heal) && ResumeSound(s.jobs, s.resume) && PendingJoined(s) && GroupSafe(s)
  }

  predicate Initial(s: State) {
    s.record.state != [] && s.memory == s.record && s.jobs == [] && s.joined == {} && !s.signal && !s.healing
      && s.heal.Idle? && s.resume.NoResume?
  }

  /** A status write of runHeal, one rank up from its copy. */
  lemma AdvanceKeepsCopies(s: State, status: Status, point: Point)
    requires Inv(s) && s.heal.Running? && s.heal.index < |s.jobs| && Rank(s.heal.job.status) != 2
    requires !s.heal.point.Loading? && Rank(status) == Rank(s.heal.job.status) + 1
    requires point == if status.ProposalSent? then Awaiting(1) else Phase
    ensures var r := Advance(s, status, point); CopyFresh(r.jobs, r.heal) && ResumeSound(r.jobs, r.resume)
  {
  }

  lemma WelcomeKeepsCopies(s: State, l: Label)
    requires Inv(s) && Indexed(s) && Enabled(s, l) && l.WelcomeArrives?
    ensures CopyFresh(Next(s, l).jobs, Next(s, l).heal) && ResumeSound(Next(s, l).jobs, Next(s, l).resume)
  {
  }

  lemma ResumeKeepsCopies(s: State, l: Label)
    requires Inv(s) && Indexed(s) && Enabled(s, l) && (l.ResumeFix? || l.ResumeBegin? || l.Restart?)
    ensures CopyFresh(Next(s, l).jobs, Next(s, l).heal) && ResumeSound(Next(s, l).jobs, Next(s, l).resume)
  {
  }

  /** The steps that change no stored job that exists. */
  predicate LeavesJobs(l: Label) {
    || l.Begin? || l.LoadJob? || l.DropMemory? || l.Welcomed? || l.AwaitTimeout? || l.SaveRecord? || l.SwapMemory?
    || l.Leave? || l.Ordinary?
  }

  lemma OtherKeepsCopies(s: State, l: Label)
    requires Inv(s) && Indexed(s) && Enabled(s, l) && LeavesJobs(l)
    ensures CopyFresh(Next(s, l).jobs, Next(s, l).heal) && ResumeSound(Next(s, l).jobs, Next(s, l).resume)
  {
  }

  /** What the point says about the copy's status. */
  lemma PointStatus(s: State)
    requires Inv(s) && s.heal.Running?
    ensures s.heal.point.Dropped? ==> s.heal.job.status.SnapshotCreated?
    ensures s.heal.point.Swapped? ==> s.heal.job.status.ExternalJoined?
  {
  }

  lemma StepKeepsCopies(s: State, l: Label)
    requires Inv(s) && Indexed(s) && Enabled(s, l)
    ensures CopyFresh(Next(s, l).jobs, Next(s, l).heal) && ResumeSound(Next(s, l).jobs, Next(s, l).resume)
  {
    hide Inv, CopyFresh, ResumeSound, NoActive, AlreadySwapped;
    if LeavesJobs(l) {
      OtherKeepsCopies(s, l);
    } else {
      match l
      case Snapshot => AdvanceKeepsCopies(s, SnapshotCreated, Phase);
      case SendProposal(bundle) =>
        PointStatus(s);
        SameCopy(s, bundle);
        AdvanceKeepsCopies(s.(heal := s.heal.(job := s.heal.job.(bundle := bundle))), ProposalSent, Awaiting(1));
      case SaveSwapped =>
        PointStatus(s);
        AdvanceKeepsCopies(s, StateSwapped, Phase);
      case FinishReplay => AdvanceKeepsCopies(s, LocalComplete, Phase);
      case Clean => AdvanceKeepsCopies(s, Cleaned, Phase);
      case WelcomeArrives(joined) => WelcomeKeepsCopies(s, l);
      case _ => ResumeKeepsCopies(s, l);
    }
  }

  /** The key bundle plays no part in the invariant. */
  lemma SameCopy(s: State, bundle: Bytes)
    requires Inv(s) && s.heal.Running?
    ensures Inv(s.(heal := s.heal.(job := s.heal.job.(bundle := bundle))))
  {
  }

  lemma StepKeepsPending(s: State, l: Label)
    requires Inv(s) && Indexed(s) && Enabled(s, l)
    ensures PendingJoined(Next(s, l))
  {
    hide CopyFresh, ResumeSound, GroupSafe, AlreadySwapped, NoActive;
  }

  lemma StepKeepsGroup(s: State, l: Label)
    requires Inv(s) && Indexed(s) && Enabled(s, l)
    ensures GroupSafe(Next(s, l))
  {
    hide ResumeSound, PendingJoined, AlreadySwapped, NoActive;
  }

  lemma StepKeeps(s: State, l: Label)
    requires Inv(s) && Indexed(s) && Enabled(s, l)
    ensures Inv(Next(s, l))
  {
    hide Next, Enabled, CopyFresh, ResumeSound, PendingJoined, GroupSafe;
    StepKeepsCopies(s, l);
    StepKeepsPending(s, l);
    StepKeepsGroup(s, l);
  }

  /** The one step that can take a stored status back: a stale resume finds the swap already done and past it. */
  predicate StaleResume(s: State, l: Label, j: nat)
    requires j < |s.jobs|
  {
    && l.ResumeFix? && s.resume.Loaded? && s.resume.index == j && AlreadySwapped(s.memory, s.resume.job)
    && Rank(s.jobs[j].status) > Rank(StateSwapped)
  }

  /** Status: a step takes a stored status back exactly when it is a stale resume. */
  lemma StatusForwardExactly(s: State, l: Label, j: nat)
    requires Inv(s) && Indexed(s) && Enabled(s, l) && j < |s.jobs|
    ensures |s.jobs| <= |Next(s, l).jobs|
    ensures Rank(Next(s, l).jobs[j].status) < Rank(s.jobs[j].status) <==> StaleResume(s, l, j)
  {
    hide PendingJoined, GroupSafe, NoActive, AlreadySwapped, Active;
  }

  /** Record: a step leaves it, or is an ordinary step from an agreeing memory, or installs a non-empty joined state. */
  lemma RecordReplaced(s: State, l: Label)
    requires Inv(s) && Indexed(s) && Enabled(s, l)
    ensures var r := Next(s, l);
            || r.record == s.record
            || (l.Ordinary? && s.memory == s.record && r.memory == r.record == l.next)
            || (l.SaveRecord? && r.record in s.joined && r.record.state != [])
  {
    hide CopyFresh, ResumeSound, AlreadySwapped, NoActive;
  }

  // ----- whole runs -----

  ghost predicate IsRun(states: seq<State>, labels: seq<Label>) {
    && |states| == |labels| + 1
    && forall i ::
         0 <= i < |labels| ==>
           Indexed(states[i]) && Enabled(states[i], labels[i]) && states[i + 1] == Next(states[i], labels[i])
  }

  lemma {:induction false} RunKeeps(states: seq<State>, labels: seq<Label>, k: nat)
    requires IsRun(states, labels) && Inv(states[0]) && k <= |labels|
    ensures Inv(states[k])
  {
    hide Inv, Next, Enabled;
    if k > 0 {
      RunKeeps(states, labels, k - 1);
      StepKeeps(states[k - 1], labels[k - 1]);
    }
  }

  /**
   * Heal never loses the group: at every point of every run the stored state is non-empty, and whenever no heal is
   * running, so on every exit and after every restart, memory is non-empty and equal to it.
   */
  lemma NeverLosesGroup(states: seq<State>, labels: seq<Label>, k: nat)
    requires IsRun(states, labels) && Initial(states[0]) && k <= |labels|
    ensures states[k].record.state != []
    ensures !states[k].healing ==> states[k].memory == states[k].record
    ensures k > 0 && (labels[k - 1].Leave? || labels[k - 1].Restart?) ==> states[k].memory == states[k].record
  {
    RunKeeps(states, labels, k);
  }

  /**
    * Every stored state was there at the start, came from an ordinary
    * step, or is a non-empty state that a Welcome delivered.
    */
  lemma {:induction false} RecordHasSource(states: seq<State>, labels: seq<Label>, k: nat)
    requires IsRun(states, labels) && Initial(states[0]) && k <= |labels|
    ensures || states[k].record == states[0].record
            || (exists i :: 0 <= i < k && labels[i] == Ordinary(states[k].record))
            || states[k].record in states[k].joined
  {
    hide Inv, Next, Enabled;
    if k > 0 {
      RecordHasSource(states, labels, k - 1);
      InitialInv(states[0]);
      RunKeeps(states, labels, k - 1);
      RecordReplaced(states[k - 1], labels[k - 1]);
      JoinedGrows(states[k - 1], labels[k - 1]);
    }
  }

  lemma InitialInv(s: State)
    requires Initial(s)
    ensures Inv(s)
  {
  }

  lemma JoinedGrows(s: State, l: Label)
    requires Indexed(s) && Enabled(s, l)
    ensures s.joined <= Next(s, l).joined
  {
  }

  /** Between two points of a run a stored status moves back only through a stale resume in between. */
  lemma {:induction false} StatusForward(states: seq<State>, labels: seq<Label>, i: nat, k: nat, j: nat)
    requires IsRun(states, labels) && Initial(states[0]) && i <= k <= |labels| && j < |states[i].jobs|
    ensures |states[i].jobs| <= |states[k].jobs|
    ensures || Rank(states[i].jobs[j].status) <= Rank(states[k].jobs[j].status)
            || exists t :: i <= t < k && j < |states[t].jobs| && StaleResume(states[t], labels[t], j)
    decreases k
  {
    hide Inv, Next, Enabled, StaleResume;
    if i < k {
      StatusForward(states, labels, i, k - 1, j);
      InitialInv(states[0]);
      RunKeeps(states, labels, k - 1);
      StatusForwardExactly(states[k - 1], labels[k - 1], j);
    }
  }

  /** No heal begins while a resume still holds the copy it loaded at startup. */
  ghost predicate ResumesFirst(states: seq<State>, labels: seq<Label>)
    requires |states| == |labels| + 1
  {
    forall i :: 0 <= i < |labels| && labels[i].Begin? ==> !states[i].resume.Loaded?
  }

  /** While a resume holds its copy, nothing runs and a joined job stays as it was loaded. */
  predicate Calm(s: State) {
    s.resume.Loaded? ==>
      && s.heal.Idle? && s.resume.index < |s.jobs|
      && (s.resume.job.status.ExternalJoined? ==> s.jobs[s.resume.index].status.ExternalJoined?)
  }

  lemma StepKeepsCalm(s: State, l: Label)
    requires Inv(s) && Indexed(s) && Enabled(s, l) && Calm(s) && (l.Begin? ==> !s.resume.Loaded?)
    ensures Calm(Next(s, l))
  {
  }

  lemma {:induction false} RunKeepsCalm(states: seq<State>, labels: seq<Label>, k: nat)
    requires IsRun(states, labels) && Initial(states[0]) && ResumesFirst(states, labels) && k <= |labels|
    ensures Calm(states[k])
  {
    hide Inv, Next, Enabled;
    if k > 0 {
      RunKeepsCalm(states, labels, k - 1);
      InitialInv(states[0]);
      RunKeeps(states, labels, k - 1);
      StepKeepsCalm(states[k - 1], labels[k - 1]);
    }
  }

  /** If every resume does its check before another heal begins, stored statuses only ever move forward. */
  lemma StatusOnlyForward(states: seq<State>, labels: seq<Label>, i: nat, k: nat, j: nat)
    requires IsRun(states, labels) && Initial(states[0]) && ResumesFirst(states, labels)
    requires i <= k <= |labels| && j < |states[i].jobs|
    ensures |states[i].jobs| <= |states[k].jobs| && Rank(states[i].jobs[j].status) <= Rank(states[k].jobs[j].status)
  {
    hide Inv, Next, Enabled;
    StatusForward(states, labels, i, k, j);
    forall t | i <= t < k && j < |states[t].jobs|
      ensures !StaleResume(states[t], labels[t], j)
    {
      RunKeepsCalm(states, labels, t);
    }
  }

  // ----- a run that does move back -----

  /** A heal is joined, the process restarts, a new heal finishes the job, and only then does the resume look. */
  function OvertakenResume(won: GroupRecord): seq<Label> {
    [Begin, LoadJob(won.epoch, won.treeHash), Snapshot, DropMemory, SendProposal([1]), WelcomeArrives(won), Restart,
     Begin, LoadJob(won.epoch, won.treeHash), SaveRecord, SwapMemory, SaveSwapped, FinishReplay, Clean, Leave,
     ResumeFix]
  }

  /** The job of that run, as it stands at each status. */
  function JobAt(won: GroupRecord, status: Status): Job {
    var bare := Job(status, None, [], won.epoch, won.treeHash);
    if Rank(status) <= 1 then bare
    else if status.ProposalSent? then bare.(bundle := [1])
    else bare.(bundle := [1], pending := Some(won))
  }

  /** The state before the i-th label of that run. */
  function StateAt(s: State, won: GroupRecord, i: nat): State {
    if i == 0 then s
    else if i == 1 then s.(healing := true, heal := Running(0, EMPTY_JOB, Loading))
    else if i <= 6 then
      var at := [Initiated, SnapshotCreated, SnapshotCreated, ProposalSent, ProposalSent][i - 2];
      State(s.record, if i <= 3 then s.memory else Emptied(s.memory),
            [JobAt(won, if i == 6 then ExternalJoined else at)],
            if i == 6 then {won} else {}, i == 6, true,
            Running(0, JobAt(won, at), if i <= 3 then Phase else if i == 4 then Dropped else Awaiting(1)), s.resume)
    else
      var joined := JobAt(won, ExternalJoined);
      var at := [ExternalJoined, ExternalJoined, ExternalJoined, ExternalJoined, ExternalJoined, StateSwapped,
                 LocalComplete, Cleaned,
                 Cleaned, StateSwapped][if i < 16 then i - 7 else 9];
      State(if i < 10 then s.record else won, if i < 11 then s.record else won, [JobAt(won, at)], {won}, false,
            8 <= i <= 14,
            if i == 7 || i >= 15 then Idle
            else if i == 8 then Running(0, EMPTY_JOB, Loading)
            else Running(0, JobAt(won, at), if i == 10 then RecordSaved else if i == 11 then Swapped else Phase),
            if i < 16 then Loaded(0, joined) else Checked)
  }

  lemma StepAtProposal(s: State, won: GroupRecord, i: nat)
    requires Initial(s) && won.state != [] && won.epoch > 0 && 0 <= i < 5
    ensures var here := StateAt(s, won, i); var l := OvertakenResume(won)[i];
            Indexed(here) && Enabled(here, l) && Next(here, l) == StateAt(s, won, i + 1)
  {
    if i >= 2 {
      assert !StateAt(s, won, i).jobs[0].status.Cleaned?;
    }
  }

  lemma StepAtRestart(s: State, won: GroupRecord, i: nat)
    requires Initial(s) && won.state != [] && won.epoch > 0 && 5 <= i < 7
    ensures var here := StateAt(s, won, i); var l := OvertakenResume(won)[i];
            Indexed(here) && Enabled(here, l) && Next(here, l) == StateAt(s, won, i + 1)
  {
    assert !StateAt(s, won, i).jobs[0].status.Cleaned?;
  }

  lemma StepAtSwap(s: State, won: GroupRecord, i: nat)
    requires Initial(s) && won.state != [] && won.epoch > 0 && 7 <= i < 12
    ensures var here := StateAt(s, won, i); var l := OvertakenResume(won)[i];
            Indexed(here) && Enabled(here, l) && Next(here, l) == StateAt(s, won, i + 1)
  {
    assert !StateAt(s, won, i).jobs[0].status.Cleaned?;
  }

  lemma StepAtEnd(s: State, won: GroupRecord, i: nat)
    requires Initial(s) && won.state != [] && won.epoch > 0 && 12 <= i < 16
    ensures var here := StateAt(s, won, i); var l := OvertakenResume(won)[i];
            Indexed(here) && Enabled(here, l) && Next(here, l) == StateAt(s, won, i + 1)
  {
  }

  /** From every initial state there is a run whose last step takes the job from CLEANED back to STATE_SWAPPED. */
  lemma StatusCanMoveBack(s: State, won: GroupRecord) returns (states: seq<State>, labels: seq<Label>)
    requires Initial(s) && won.state != [] && won.epoch > 0
    ensures IsRun(states, labels) && states[0] == s && |labels| == 16
    ensures |states[15].jobs| == |states[16].jobs| == 1
    ensures states[15].jobs[0].status.Cleaned? && states[16].jobs[0].status.StateSwapped?
  {
    labels := OvertakenResume(won);
    states := seq(17, i requires 0 <= i < 17 => StateAt(s, won, i));
    forall i | 0 <= i < 16
      ensures Indexed(states[i]) && Enabled(states[i], labels[i]) && states[i + 1] == Next(states[i], labels[i])
    {
      if i < 5 {
        StepAtProposal(s, won, i);
      } else if i < 7 {
        StepAtRestart(s, won, i);
      } else if i < 12 {
        StepAtSwap(s, won, i);
      } else {
        StepAtEnd(s, won, i);
      }
    }
  }
}
