/** Whole runs of commits and epoch changes: rebasing is bounded, and idempotency keys never go stale. */
module OperationRuns {
  import opened Bytes
  import opened Types
  import opened Operations
  import opened Reconciliation

  // ----- one operation through a run -----

  datatype Event =
    | Commit(commit: CommitMsg)
    | Rebase(epoch: nat, now: int, gone: bool, outcome: Option<Bytes>)

  function Step(op: Operation, e: Event, maxRetries: nat): (r: Operation)
    requires HasTarget(op)
    ensures SameIntent(op, r)
  {
    match e
    case Commit(c) => AfterCommit(op, c)
    case Rebase(epoch, now, gone, outcome) => Rebased(op, epoch, now, maxRetries, gone, outcome)
  }

  function Run(op: Operation, es: seq<Event>, maxRetries: nat): (r: Operation)
    requires HasTarget(op)
    ensures SameIntent(op, r)
    decreases |es|
  {
    if es == [] then op else Run(Step(op, es[0], maxRetries), es[1..], maxRetries)
  }

  /** Does this event put a new proposal for the operation on the wire? */
  predicate Reproposes(op: Operation, e: Event, maxRetries: nat) {
    && e.Rebase? && !op.kind.OtherOperation? && e.outcome.Some?
    && Decide(op, e.epoch, e.now, maxRetries, e.gone).Repropose?
  }

  function Proposals(op: Operation, es: seq<Event>, maxRetries: nat): nat
    requires HasTarget(op)
    decreases |es|
  {
    if es == [] then 0
    else (if Reproposes(op, es[0], maxRetries) then 1 else 0) +
           Proposals(Step(op, es[0], maxRetries), es[1..], maxRetries)
  }

  /** The run's epoch changes come with growing epochs, all above `floor`. */
  predicate Growing(floor: nat, es: seq<Event>)
    decreases |es|
  {
    es == []
      || (if es[0].Rebase? then floor < es[0].epoch && Growing(es[0].epoch, es[1..]) else Growing(floor, es[1..]))
  }

  function Rebases(es: seq<Event>): nat {
    if es == [] then 0 else (if es[0].Rebase? then 1 else 0) + Rebases(es[1..])
  }

  /** A final status stays out of PENDING and PROPOSED for the rest of every run. */
  lemma {:induction false} FinalStaysFinal(op: Operation, es: seq<Event>, maxRetries: nat)
    requires HasTarget(op) && !Active(op.status)
    ensures !Active(Run(op, es, maxRetries).status)
    ensures Proposals(op, es, maxRetries) == 0
    decreases |es|
  {
    if es != [] {
      FinalStaysFinal(Step(op, es[0], maxRetries), es[1..], maxRetries);
    }
  }

  /** Every run re-proposes an operation at most as often as its retry budget allows. */
  lemma {:induction false} BoundedProposals(op: Operation, es: seq<Event>, maxRetries: nat)
    requires HasTarget(op)
    ensures op.retryCount + Proposals(op, es, maxRetries) <= Run(op, es, maxRetries).retryCount
    ensures Run(op, es, maxRetries).retryCount <= if op.retryCount <= maxRetries then maxRetries else op.retryCount
    decreases |es|
  {
    if es != [] {
      BoundedProposals(Step(op, es[0], maxRetries), es[1..], maxRetries);
    }
  }

  /** While an add or remove operation is still open, every epoch change has cost it one retry. */
  lemma {:induction false} OpenCostsRetries(op: Operation, es: seq<Event>, maxRetries: nat)
    requires HasTarget(op) && !op.kind.OtherOperation? && op.preconditionEpoch.Some?
    requires Growing(op.preconditionEpoch.value, es)
    ensures Active(Run(op, es, maxRetries).status) ==> Run(op, es, maxRetries).retryCount == op.retryCount + Rebases(es)
    decreases |es|
  {
    if es != [] {
      var next := Step(op, es[0], maxRetries);
      if Active(op.status) && Active(next.status) {
        OpenCostsRetries(next, es[1..], maxRetries);
      } else {
        FinalStaysFinal(next, es[1..], maxRetries);
      }
    }
  }

  /** No epoch change of the run is later than `top`. */
  predicate Within(es: seq<Event>, top: nat) {
    forall k :: 0 <= k < |es| && es[k].Rebase? ==> es[k].epoch <= top
  }

  /** The precondition epoch moves only together with the retry count, and never past the run's last epoch. */
  lemma {:induction false} RetryDatesOperation(op: Operation, es: seq<Event>, maxRetries: nat, top: nat)
    requires HasTarget(op) && op.preconditionEpoch.Some? && Within(es, top)
    ensures Run(op, es, maxRetries).preconditionEpoch.Some?
    ensures Run(op, es, maxRetries).preconditionEpoch == op.preconditionEpoch
              || Run(op, es, maxRetries).retryCount > op.retryCount
    ensures op.preconditionEpoch.value <= top ==> Run(op, es, maxRetries).preconditionEpoch.value <= top
    decreases |es|
  {
    if es != [] {
      var next := Step(op, es[0], maxRetries);
      assert forall k :: 0 <= k < |es[1..]| ==> es[1..][k] == es[k + 1];
      RetryDatesOperation(next, es[1..], maxRetries, top);
      BoundedProposals(next, es[1..], maxRetries);
    }
  }

  /** Bounded rebasing: an add or remove operation is final after one epoch change more than its retries left. */
  lemma FinalAfterRetries(op: Operation, es: seq<Event>, maxRetries: nat)
    requires HasTarget(op) && !op.kind.OtherOperation? && op.preconditionEpoch.Some?
    requires Growing(op.preconditionEpoch.value, es)
    requires Rebases(es) >= 1 && Rebases(es) > maxRetries - op.retryCount
    ensures !Active(Run(op, es, maxRetries).status)
  {
    OpenCostsRetries(op, es, maxRetries);
    BoundedProposals(op, es, maxRetries);
  }

  /**
    * Any other kind of operation never uses up a retry: only its
    * expiry ends it, or a budget that was spent at the start.
    */
  lemma {:induction false} OtherKindsEndExactlyByExpiry(op: Operation, es: seq<Event>, maxRetries: nat)
    requires op.kind.OtherOperation? && Active(op.status)
    ensures !Active(Run(op, es, maxRetries).status) <==> exists i :: 0 <= i < |es| && EndsOther(op, es[i], maxRetries)
    ensures Active(Run(op, es, maxRetries).status) ==> Run(op, es, maxRetries) == op
  {
    if es != [] {
      var rest := es[1..];
      if EndsOther(op, es[0], maxRetries) {
        FinalStaysFinal(Step(op, es[0], maxRetries), rest, maxRetries);
      } else {
        OtherKindsEndExactlyByExpiry(op, rest, maxRetries);
        assert forall i :: 0 < i < |es| ==> es[i] == rest[i - 1];
        assert forall i :: 0 <= i < |rest| ==> rest[i] == es[i + 1];
      }
    }
  }

  /** An epoch change that finds the operation expired, or stale with no retry left from the start. */
  predicate EndsOther(op: Operation, e: Event, maxRetries: nat) {
    && e.Rebase?
    && (|| (op.expiresAt.Some? && op.expiresAt.value > 0 && e.now > op.expiresAt.value)
        || (op.preconditionEpoch.Some? && op.preconditionEpoch.value < e.epoch && op.retryCount >= maxRetries))
  }

  // ----- idempotency keys, in the order of reconciliation -----

  datatype StoreEvent =
    | Filed(op: Operation)
    | Committed(commit: CommitMsg)
    | EpochChanged(epoch: nat, now: int, gone: seq<bool>, outcome: seq<Option<Bytes>>)

  /** The store after a run, as the methods of the store leave it. */
  predicate StoreStep(ops: seq<Operation>, e: StoreEvent, after: seq<Operation>, maxRetries: nat) {
    match e
    case Filed(op) => HasTarget(op) && !Settled(op.status) && after == Submitted(ops, op)
    case Committed(c) =>
      |after| == |ops| && forall i :: 0 <= i < |ops| ==> HasTarget(ops[i]) && after[i] == AfterCommit(ops[i], c)
    case EpochChanged(epoch, now, gone, outcome) =>
      && |after| == |ops| == |gone| == |outcome|
      && forall i :: 0 <= i < |ops| ==> after[i] == Rebased(ops[i], epoch, now, maxRetries, gone[i], outcome[i])
  }

  ghost predicate IsRun(stores: seq<seq<Operation>>, es: seq<StoreEvent>, maxRetries: nat) {
    && |stores| == |es| + 1 && stores[0] == []
    && forall k :: 0 <= k < |es| ==> StoreStep(stores[k], es[k], stores[k + 1], maxRetries)
  }

  /** The last direction in which committed changes moved a target. */
  datatype Direction = Untouched | Added | Removed

  function LastDirection(es: seq<StoreEvent>, t: string): Direction {
    if es == [] then Untouched
    else
      var e := es[|es| - 1];
      if e.Committed? && AddsTarget(e.commit, t) then Added
      else if e.Committed? && RemovesTarget(e.commit, t) then Removed
      else LastDirection(es[..|es| - 1], t)
  }

  /** A commit moves each target one way, and names an operation only together with its own kind and target. */
  predicate Consistent(c: CommitMsg, ops: seq<Operation>) {
    && (forall d, p ::
          d in c.deliveries && p in c.included && p.kind.Remove? && d.target != "" ==> d.target != p.target)
    && (forall d, i :: d in c.deliveries && 0 <= i < |ops| && d.operationId == ops[i].id ==>
          ops[i].kind.AddMember? && ops[i].target == Some(d.target))
    && (forall p, i :: p in c.included && p.kind.Remove? && 0 <= i < |ops| && p.operationId == ops[i].id ==>
          ops[i].kind.RemoveMember? && ops[i].target == Some(p.target))
  }

  /** MLS calls a removal's target gone only while the last committed change of it was not an addition. */
  predicate Truthful(before: seq<StoreEvent>, e: StoreEvent, ops: seq<Operation>) {
    e.EpochChanged? ==>
      |e.gone| == |ops| &&
      forall i ::
        0 <= i < |ops| && e.gone[i] && ops[i].target.Some? ==> !LastDirection(before, ops[i].target.value).Added?
  }

  ghost predicate Orderly(stores: seq<seq<Operation>>, es: seq<StoreEvent>)
    requires |stores| == |es| + 1
  {
    forall k :: 0 <= k < |es| ==>
      (es[k].Committed? ==> Consistent(es[k].commit, stores[k])) && Truthful(es[..k], es[k], stores[k])
  }

  /** A settled operation that the last committed change of its target has made stale. */
  predicate Stale(op: Operation, last: Direction) {
    Settled(op.status) && ((last.Removed? && op.kind.AddMember?) || (last.Added? && op.kind.RemoveMember?))
  }

  predicate For(op: Operation, t: string) {
    op.target == Some(t)
  }

  /** An operation that the commit does not carry is settled only by a change of its own target in its own direction. */
  lemma {:induction false} SettledOnlyByItsTarget(op: Operation, ds: seq<AddDelivery>)
    requires op.target.Some? && (forall d :: d in ds ==> d.operationId != op.id && d.target != op.target.value)
    ensures SettledByDeliveries(op, ds) == op.status
  {
    if ds != [] {
      SettledOnlyByItsTarget(op, ds[1..]);
    }
  }

  lemma {:induction false} SettledOnlyByItsRemoval(op: Operation, ps: seq<ProposalMsg>)
    requires op.target.Some? && (forall p :: p in ps && p.kind.Remove? ==> p.target != op.target.value)
    ensures SettledByRemovals(op, ps) == op.status
  {
    if ps != [] {
      SettledOnlyByItsRemoval(op, ps[1..]);
    }
  }

  /** Exactly when a settled operation survives a commit that moves its target the other way: the commit carries it. */
  lemma SurvivesExactlyWhenCarried(op: Operation, c: CommitMsg, t: string)
    requires For(op, t) && t != "" && HasTarget(op)
    requires (op.kind.AddMember? && RemovesTarget(c, t)) || (op.kind.RemoveMember? && AddsTarget(c, t))
    ensures Settled(Observed(op, c).status) ==>
              if CarriesOperation(c, op.id) then AfterCommit(op, c) == Observed(op, c)
              else AfterCommit(op, c).status == Superseded && AfterCommit(op, c).idempotencyKey == None
  {
  }

  /** One commit leaves no stale operation for a target, if there was none before. */
  lemma CommitKeeps(ops: seq<Operation>, i: nat, c: CommitMsg, last: Direction, t: string)
    requires i < |ops| && For(ops[i], t) && t != "" && HasTarget(ops[i])
    requires Consistent(c, ops) && !Stale(ops[i], last)
    ensures !Stale(AfterCommit(ops[i], c),
                   if AddsTarget(c, t) then Added else if RemovesTarget(c, t) then Removed else last)
  {
    var op := ops[i];
    if op.kind.AddMember? && !AddsTarget(c, t) {
      assert forall d :: d in c.deliveries ==> d.operationId != op.id && d.target != t;
      SettledOnlyByItsTarget(op, c.deliveries);
    }
    if op.kind.RemoveMember? && !RemovesTarget(c, t) {
      assert forall p :: p in c.included && p.kind.Remove? ==> p.target != t;
      SettledOnlyByItsRemoval(op, c.included);
    }
    OneWay(ops, c, t);
    if op.kind.AddMember? && RemovesTarget(c, t) {
      assert !CarriesOperation(c, op.id);
    }
    if op.kind.RemoveMember? && AddsTarget(c, t) {
      assert !CarriesOperation(c, op.id);
    }
  }

  lemma OneWay(ops: seq<Operation>, c: CommitMsg, t: string)
    requires Consistent(c, ops)
    ensures !(AddsTarget(c, t) && RemovesTarget(c, t))
  {
  }

  /** One epoch change leaves no stale operation, if there was none before. */
  lemma RebaseKeeps(op: Operation, e: StoreEvent, i: nat, maxRetries: nat, last: Direction)
    requires e.EpochChanged? && i < |e.gone| == |e.outcome| && !Stale(op, last)
    requires e.gone[i] && op.target.Some? ==> !last.Added?
    ensures !Stale(Rebased(op, e.epoch, e.now, maxRetries, e.gone[i], e.outcome[i]), last)
  {
  }

  lemma StepKeeps(es: seq<StoreEvent>, ops: seq<Operation>, e: StoreEvent, after: seq<Operation>, maxRetries: nat,
                  t: string)
    requires t != "" && StoreStep(ops, e, after, maxRetries)
    requires e.Committed? ==> Consistent(e.commit, ops)
    requires Truthful(es, e, ops)
    requires forall i :: 0 <= i < |ops| && For(ops[i], t) ==> !Stale(ops[i], LastDirection(es, t))
    ensures forall i :: 0 <= i < |after| && For(after[i], t) ==> !Stale(after[i], LastDirection(es + [e], t))
  {
    var all := es + [e];
    assert all[..|all| - 1] == es;
    forall i | 0 <= i < |after| && For(after[i], t)
      ensures !Stale(after[i], LastDirection(all, t))
    {
      match e
      case Filed(op) => assert after[i] == op || (i < |ops| && after[i] == ops[i]);
      case Committed(c) =>
        assert SameIntent(ops[i], after[i]);
        CommitKeeps(ops, i, c, LastDirection(es, t), t);
      case EpochChanged(epoch, now, gone, outcome) =>
        RebaseKeeps(ops[i], e, i, maxRetries, LastDirection(es, t));
    }
  }

  /**
    * Commits in the order in which they are reconciled: at every point no settled operation opposes the
    * last reconciled change of its target. A coordinator may reconcile in another order than it applies.
    */
  lemma {:induction false} NoStaleOperation(stores: seq<seq<Operation>>, es: seq<StoreEvent>, maxRetries: nat,
                                            t: string)
    requires t != "" && IsRun(stores, es, maxRetries) && Orderly(stores, es)
    ensures forall i ::
              0 <= i < |stores[|es|]| && For(stores[|es|][i], t) ==> !Stale(stores[|es|][i], LastDirection(es, t))
    decreases |es|
  {
    hide StoreStep, Stale, For, Consistent, Truthful;
    if es == [] {
      assert stores[|es|] == [];
    } else {
      var n := |es| - 1;
      var init, before := stores[..n + 1], es[..n];
      assert forall k :: 0 <= k < n ==> before[..k] == es[..k];
      assert forall k :: 0 <= k < n ==> before[k] == es[k];
      assert forall k :: 0 <= k <= n ==> init[k] == stores[k];
      NoStaleOperation(init, before, maxRetries, t);
      assert es == before + [es[n]];
      assert StoreStep(stores[n], es[n], stores[n + 1], maxRetries);
      StepKeeps(before, stores[n], es[n], stores[n + 1], maxRetries, t);
    }
  }
}
