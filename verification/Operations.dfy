/** Durable membership operations: how commits settle them and how epoch changes rebase them. */
module Operations {
  import opened Bytes
  import opened Types

  datatype OpKind = AddMember | RemoveMember | OtherOperation

  datatype Status =
    | Pending | Proposed
    | Committed | SatisfiedByOther | Superseded
    | FailedExpired | FailedRetryExhausted | FailedPrecondition

  datatype Operation = Operation(
    id: string, kind: OpKind, idempotencyKey: Option<string>, operationHash: Bytes, preconditionEpoch: Option<nat>,
    target: Option<string>, payload: Bytes, latestProposalHash: Bytes, status: Status, retryCount: nat,
    expiresAt: Option<int>, lastError: Option<string>)

  predicate Active(s: Status) {
    s.Pending? || s.Proposed?
  }

  predicate Settled(s: Status) {
    s.Committed? || s.SatisfiedByOther?
  }

  /** Add and remove operations always name their target; the source dereferences it. */
  predicate HasTarget(op: Operation) {
    !op.kind.OtherOperation? ==> op.target.Some?
  }

  /** Reconciliation never changes what an operation is about. */
  predicate SameIntent(a: Operation, b: Operation) {
    a.id == b.id && a.kind == b.kind && a.target == b.target && a.payload == b.payload
  }

  // ----- submitting -----

  /** The position of the row with this operation ID; the table has at most one. */
  function FindId(ops: seq<Operation>, id: string): (r: Option<nat>)
    ensures r.Some? ==> r.value < |ops| && ops[r.value].id == id
    ensures r.None? <==> forall i :: 0 <= i < |ops| ==> ops[i].id != id
  {
    if ops == [] then None
    else if ops[0].id == id then Some(0)
    else
      var rest := FindId(ops[1..], id);
      if rest.Some? then Some(rest.value + 1) else None
  }

  /** The first row that holds this idempotency key. */
  function FindKey(ops: seq<Operation>, key: string): (r: Option<nat>)
    ensures r.Some? ==> r.value < |ops| && ops[r.value].idempotencyKey == Some(key)
  {
    if ops == [] then None
    else if ops[0].idempotencyKey == Some(key) then Some(0)
    else
      var rest := FindKey(ops[1..], key);
      if rest.Some? then Some(rest.value + 1) else None
  }

  /** AddMember and RemoveMember report such a row as done or under way instead of submitting again. */
  predicate Answers(s: Status) {
    Settled(s) || s.Proposed?
  }

  /** A submission is answered by an existing row, or the unique index on the keys of open rows refuses it. */
  predicate Refused(ops: seq<Operation>, op: Operation) {
    var at := FindId(ops, op.id);
    || (at.Some? && Answers(ops[at.value].status))
    || (op.idempotencyKey.Some? &&
        var held := FindKey(ops, op.idempotencyKey.value);
        || (held.Some? && Answers(ops[held.value].status))
        || (Active(op.status) && exists j ::
              0 <= j < |ops| && at != Some(j) && ops[j].idempotencyKey == op.idempotencyKey && Active(ops[j].status)))
  }

  /** SavePendingOperation is an upsert on the operation ID. */
  function Submitted(ops: seq<Operation>, op: Operation): (r: seq<Operation>)
    requires HasTarget(op)
    ensures |ops| <= |r| <= |ops| + 1
    ensures forall i :: 0 <= i < |ops| ==> r[i] == if Overwrites(ops, op, i) then op else ops[i]
    ensures |r| > |ops| ==> r[|ops|] == op
  {
    if Refused(ops, op) then ops
    else
      var at := FindId(ops, op.id);
      if at.Some? then ops[at.value := op] else ops + [op]
  }

  /** The submission replaces row `i`. */
  predicate Overwrites(ops: seq<Operation>, op: Operation, i: int) {
    0 <= i < |ops| && !Refused(ops, op) && FindId(ops, op.id) == Some(i)
  }

  // ----- after a commit -----

  /** The first delivery that matches an add operation, by operation ID or by target, decides. */
  function SettledByDeliveries(op: Operation, deliveries: seq<AddDelivery>): Status
    requires op.target.Some?
  {
    if deliveries == [] then op.status
    else if deliveries[0].operationId == op.id then Committed
    else if deliveries[0].target == op.target.value then SatisfiedByOther
    else SettledByDeliveries(op, deliveries[1..])
  }

  /** The first removal of its target decides a remove operation. */
  function SettledByRemovals(op: Operation, included: seq<ProposalMsg>): Status
    requires op.target.Some?
  {
    if included == [] then op.status
    else if included[0].kind.Remove? && included[0].target == op.target.value then
      if included[0].operationId == op.id then Committed else SatisfiedByOther
    else SettledByRemovals(op, included[1..])
  }

  /** reconcileOperationsAfterCommitLocked, one operation. */
  function Observed(op: Operation, commit: CommitMsg): Operation
    requires HasTarget(op)
  {
    if !Active(op.status) then op
    else
      match op.kind
      case AddMember => op.(status := SettledByDeliveries(op, commit.deliveries))
      case RemoveMember => op.(status := SettledByRemovals(op, commit.included))
      case OtherOperation => op
  }

  predicate AddsTarget(commit: CommitMsg, target: string) {
    exists d :: d in commit.deliveries && d.target == target && target != ""
  }

  predicate RemovesTarget(commit: CommitMsg, target: string) {
    exists p :: p in commit.included && p.kind.Remove? && p.target == target && target != ""
  }

  /** The operation IDs a commit carries itself. */
  predicate CarriesOperation(commit: CommitMsg, id: string) {
    || (exists d :: d in commit.deliveries && d.operationId == id && d.target != "")
    || (exists p :: p in commit.included && p.kind.Remove? && p.operationId == id && p.target != "")
  }

  /** supersedeStaleMembershipOpsLocked, one operation. */
  function Reviewed(op: Operation, commit: CommitMsg): Operation {
    if !Settled(op.status) || op.target.None? || op.target.value == "" || CarriesOperation(commit, op.id) then op
    else if (RemovesTarget(commit, op.target.value) && op.kind.AddMember?)
            || (AddsTarget(commit, op.target.value) && op.kind.RemoveMember?) then
      op.(status := Superseded, idempotencyKey := None)
    else op
  }

  function AfterCommit(op: Operation, commit: CommitMsg): (r: Operation)
    requires HasTarget(op)
    ensures SameIntent(op, r)
  {
    Reviewed(Observed(op, commit), commit)
  }

  // ----- after an epoch change -----

  /** What rebasing finds for one operation: nothing to do, a final status, or a new proposal to make. */
  datatype Rebase = Leave | Settle(op: Operation) | Repropose(op: Operation)

  /** reconcileAndRebaseOperationsLocked up to the re-proposal. `gone` says MLS no longer has the removal target. */
  function Decide(op: Operation, epoch: nat, nowSeconds: int, maxRetries: nat, gone: bool): (r: Rebase)
    ensures !r.Leave? ==> SameIntent(op, r.op)
  {
    if !Active(op.status) then Leave
    else if op.expiresAt.Some? && op.expiresAt.value > 0 && nowSeconds > op.expiresAt.value then
      Settle(op.(status := FailedExpired, lastError := Some("operation TTL expired")))
    else if op.kind.RemoveMember? && op.target.Some? && op.target.value != "" && op.payload != [] && gone then
      Settle(op.(status := SatisfiedByOther))
    else if op.preconditionEpoch.Some? && op.preconditionEpoch.value < epoch then
      if op.retryCount >= maxRetries then
        Settle(op.(status := FailedRetryExhausted, lastError := Some("max retries exceeded")))
      else
        Repropose(op.(retryCount := op.retryCount + 1, preconditionEpoch := Some(epoch)))
    else Leave
  }

  /** What is saved after a re-proposal: other kinds of operation are neither proposed nor saved. */
  function SavedAfter(op: Operation, moved: Operation, proposalHash: Option<Bytes>): (r: Operation)
    requires SameIntent(op, moved)
    ensures SameIntent(op, r)
  {
    if op.kind.OtherOperation? then op
    else if proposalHash.Some? then
      moved.(status := Proposed, latestProposalHash := proposalHash.value, lastError := None)
    else moved.(lastError := Some("re-proposal failed"))
  }
}
