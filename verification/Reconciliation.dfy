/** The loops that keep membership operations in step with commits, and what every run of them guarantees. */
module Reconciliation {
  import opened Bytes
  import opened Types
  import opened Operations

  /** One operation after an epoch change; `outcome` is the hash of the new proposal when one could be made. */
  function Rebased(op: Operation, epoch: nat, now: int, maxRetries: nat, gone: bool,
                   outcome: Option<Bytes>): Operation {
    match Decide(op, epoch, now, maxRetries, gone)
    case Leave => op
    case Settle(settled) => settled
    case Repropose(moved) => SavedAfter(op, moved, outcome)
  }

  /** No two open operations hold the same key: the unique index on open rows. */
  predicate KeysOnce(ops: seq<Operation>) {
    forall i, j ::
      0 <= i < j < |ops| && Active(ops[i].status) && Active(ops[j].status) && ops[i].idempotencyKey.Some? ==>
      ops[i].idempotencyKey != ops[j].idempotencyKey
  }

  /** The first row with this ID, and the first with this key. */
  ghost predicate FirstId(ops: seq<Operation>, id: string, i: nat) {
    i < |ops| && ops[i].id == id && forall j :: 0 <= j < i ==> ops[j].id != id
  }

  ghost predicate FirstKey(ops: seq<Operation>, key: string, i: nat) {
    i < |ops| && ops[i].idempotencyKey == Some(key) && forall j :: 0 <= j < i ==> ops[j].idempotencyKey != Some(key)
  }

  lemma {:induction false} FindsFirstId(ops: seq<Operation>, id: string, i: nat)
    ensures FindId(ops, id) == Some(i) <==> FirstId(ops, id, i)
  {
    if ops != [] && ops[0].id != id {
      assert forall j :: 0 < j < |ops| ==> ops[j] == ops[1..][j - 1];
      if i > 0 {
        FindsFirstId(ops[1..], id, i - 1);
        assert forall j :: 0 <= j < |ops| - 1 ==> ops[1..][j] == ops[j + 1];
      }
    }
  }

  lemma {:induction false} FindsFirstKey(ops: seq<Operation>, key: string, i: nat)
    ensures FindKey(ops, key) == Some(i) <==> FirstKey(ops, key, i)
  {
    if ops != [] && ops[0].idempotencyKey != Some(key) {
      assert forall j :: 0 < j < |ops| ==> ops[j] == ops[1..][j - 1];
      if i > 0 {
        FindsFirstKey(ops[1..], key, i - 1);
        assert forall j :: 0 <= j < |ops| - 1 ==> ops[1..][j] == ops[j + 1];
      }
    }
  }

  /** A row that reports its operation as done or under way. */
  predicate Reports(s: Status) {
    s.Committed? || s.SatisfiedByOther? || s.Proposed?
  }

  /** Another open row than the one with the same ID holds the key. */
  ghost predicate KeyTaken(ops: seq<Operation>, op: Operation) {
    exists j: nat ::
      j < |ops| && !FirstId(ops, op.id, j) && ops[j].idempotencyKey == op.idempotencyKey && Active(ops[j].status)
  }

  /**
    * A submission is answered exactly if the row with its ID or the first row with its key reports, or
    * if another open row holds its key; otherwise it replaces the row with its ID, or becomes a new one.
    */
  lemma SubmittedExactly(ops: seq<Operation>, op: Operation)
    requires HasTarget(op)
    ensures var answered :=
              || (exists i: nat :: FirstId(ops, op.id, i) && Reports(ops[i].status))
              || (&& op.idempotencyKey.Some?
                  && (|| (exists i: nat :: FirstKey(ops, op.idempotencyKey.value, i) && Reports(ops[i].status))
                      || (Active(op.status) && KeyTaken(ops, op))));
            && (answered ==> Submitted(ops, op) == ops)
            && (!answered ==> forall i: nat :: FirstId(ops, op.id, i) ==> Submitted(ops, op) == ops[i := op])
            && (!answered && (forall i: nat :: !FirstId(ops, op.id, i)) ==> Submitted(ops, op) == ops + [op])
  {
    hide FirstId, FirstKey, FindId, FindKey;
    forall i: nat
      ensures FindId(ops, op.id) == Some(i) <==> FirstId(ops, op.id, i)
    {
      FindsFirstId(ops, op.id, i);
    }
    if op.idempotencyKey.Some? {
      forall i: nat
        ensures FindKey(ops, op.idempotencyKey.value) == Some(i) <==> FirstKey(ops, op.idempotencyKey.value, i)
      {
        FindsFirstKey(ops, op.idempotencyKey.value, i);
      }
    }
    if FindId(ops, op.id).Some? {
      assert FirstId(ops, op.id, FindId(ops, op.id).value);
    }
    if op.idempotencyKey.Some? && FindKey(ops, op.idempotencyKey.value).Some? {
      assert FirstKey(ops, op.idempotencyKey.value, FindKey(ops, op.idempotencyKey.value).value);
    }
  }

  lemma SubmittedKeys(ops: seq<Operation>, op: Operation)
    requires HasTarget(op)
    ensures KeysOnce(ops) ==> KeysOnce(Submitted(ops, op))
  {
    var r := Submitted(ops, op);
    if !Refused(ops, op) {
      forall j | 0 <= j < |r| && r[j] != op
        ensures j < |ops| && r[j] == ops[j] && FindId(ops, op.id) != Some(j)
      {
      }
    }
  }

  /** Which way a commit moved a target. */
  datatype TargetAction = TargetAction(added: bool, removed: bool)

  /** The stored operations of one group. */
  class OperationStore {
    var ops: seq<Operation>

    ghost predicate Valid()
      reads this
    {
      forall i :: 0 <= i < |ops| ==> HasTarget(ops[i])
    }

    constructor ()
      ensures Valid() && ops == []
    {
      ops := [];
    }

    /** The checks of AddMember and RemoveMember, then the upsert: open operations never share a key. */
    method Submit(op: Operation) returns (stored: bool)
      requires Valid() && HasTarget(op)
      modifies this
      ensures Valid() && ops == Submitted(old(ops), op) && (stored <==> !Refused(old(ops), op))
      ensures KeysOnce(old(ops)) ==> KeysOnce(ops)
      ensures stored ==> exists i :: 0 <= i < |ops| && ops[i] == op
    {
      hide KeysOnce, Active, Answers;
      SubmittedKeys(ops, op);
      var at := FindId(ops, op.id);
      if at.Some? && Answers(ops[at.value].status) {
        return false;
      }
      if op.idempotencyKey.Some? {
        var held := FindKey(ops, op.idempotencyKey.value);
        if held.Some? && Answers(ops[held.value].status) {
          return false;
        }
        if Active(op.status) {
          for j := 0 to |ops|
            invariant forall k ::
                        0 <= k < j && at != Some(k) && ops[k].idempotencyKey == op.idempotencyKey ==>
                          !Active(ops[k].status)
          {
            if at != Some(j) && ops[j].idempotencyKey == op.idempotencyKey && Active(ops[j].status) {
              return false;
            }
          }
        }
      }
      if at.Some? {
        ops := ops[at.value := op];
        assert ops[at.value] == op;
      } else {
        ops := ops + [op];
        assert ops[|ops| - 1] == op;
      }
      stored := true;
    }

    method ReconcileAfterCommit(commit: CommitMsg)
      requires Valid()
      modifies this
      ensures Valid() && |ops| == |old(ops)|
      ensures forall i :: 0 <= i < |ops| ==> ops[i] == AfterCommit(old(ops)[i], commit)
    {
      for i := 0 to |ops|
        invariant |ops| == |old(ops)|
        invariant forall j :: 0 <= j < i ==> ops[j] == Observed(old(ops)[j], commit)
        invariant forall j :: i <= j < |ops| ==> ops[j] == old(ops)[j]
      {
        var op := ops[i];
        if Active(op.status) {
          if op.kind.AddMember? {
            var status := MatchDeliveries(op, commit.deliveries);
            ops := ops[i := op.(status := status)];
          } else if op.kind.RemoveMember? {
            var status := MatchRemovals(op, commit.included);
            ops := ops[i := op.(status := status)];
          }
        }
      }
      Supersede(commit);
    }

    /** Releases what the commit made stale; the first two loops collect whom it added and removed. */
    method Supersede(commit: CommitMsg)
      requires Valid()
      modifies this
      ensures Valid() && |ops| == |old(ops)|
      ensures forall i :: 0 <= i < |ops| ==> ops[i] == Reviewed(old(ops)[i], commit)
    {
      var affected, carried := Collect(commit);
      if affected == map[] {
        forall i | 0 <= i < |ops|
          ensures ops[i] == Reviewed(ops[i], commit)
        {
          assert ops[i].target.Some? ==> ops[i].target.value !in affected;
        }
        return;
      }
      for i := 0 to |ops|
        invariant |ops| == |old(ops)|
        invariant forall j :: 0 <= j < i ==> ops[j] == Reviewed(old(ops)[j], commit)
        invariant forall j :: i <= j < |ops| ==> ops[j] == old(ops)[j]
      {
        var op := ops[i];
        if Settled(op.status) && op.target.Some? && op.target.value != "" && op.id !in carried
             && op.target.value in affected {
          var info := affected[op.target.value];
          if (info.removed && op.kind.AddMember?) || (info.added && op.kind.RemoveMember?) {
            ops := ops[i := op.(status := Superseded, idempotencyKey := None)];
          }
        }
      }
    }
  }

  predicate Matches(op: Operation, d: AddDelivery) {
    d.operationId == op.id || Some(d.target) == op.target
  }

  /**
    * The first delivery that carries the operation or adds its
    * target decides: committed by its own, satisfied by another.
    */
  lemma {:induction false} FirstDeliveryDecides(op: Operation, deliveries: seq<AddDelivery>, k: nat)
    requires op.target.Some? && k <= |deliveries| && forall j :: 0 <= j < k ==> !Matches(op, deliveries[j])
    ensures k == |deliveries| ==> SettledByDeliveries(op, deliveries) == op.status
    ensures k < |deliveries| && Matches(op, deliveries[k]) ==>
              SettledByDeliveries(op, deliveries) ==
                if deliveries[k].operationId == op.id then Committed else SatisfiedByOther
    decreases deliveries
  {
    if k > 0 {
      assert !Matches(op, deliveries[0]);
      forall j | 0 <= j < k - 1
        ensures !Matches(op, deliveries[1..][j])
      {
        assert deliveries[1..][j] == deliveries[j + 1];
      }
      FirstDeliveryDecides(op, deliveries[1..], k - 1);
    }
  }

  predicate RemovesIt(op: Operation, m: ProposalMsg) {
    m.kind.Remove? && Some(m.target) == op.target
  }

  /** The first removal of the target decides: committed if it carries the operation, satisfied by another otherwise. */
  lemma {:induction false} FirstRemovalDecides(op: Operation, included: seq<ProposalMsg>, k: nat)
    requires op.target.Some? && k <= |included| && forall j :: 0 <= j < k ==> !RemovesIt(op, included[j])
    ensures k == |included| ==> SettledByRemovals(op, included) == op.status
    ensures k < |included| && RemovesIt(op, included[k]) ==>
              SettledByRemovals(op, included) ==
                if included[k].operationId == op.id then Committed else SatisfiedByOther
    decreases included
  {
    if k > 0 {
      assert !RemovesIt(op, included[0]);
      forall j | 0 <= j < k - 1
        ensures !RemovesIt(op, included[1..][j])
      {
        assert included[1..][j] == included[j + 1];
      }
      FirstRemovalDecides(op, included[1..], k - 1);
    }
  }

  method MatchDeliveries(op: Operation, deliveries: seq<AddDelivery>) returns (status: Status)
    requires op.target.Some?
    ensures status == SettledByDeliveries(op, deliveries)
  {
    status := op.status;
    for k := 0 to |deliveries|
      invariant status == op.status
      invariant SettledByDeliveries(op, deliveries) == SettledByDeliveries(op, deliveries[k..])
    {
      var d := deliveries[k];
      if d.operationId == op.id || d.target == op.target.value {
        return if d.operationId == op.id then Committed else SatisfiedByOther;
      }
    }
  }

  method MatchRemovals(op: Operation, included: seq<ProposalMsg>) returns (status: Status)
    requires op.target.Some?
    ensures status == SettledByRemovals(op, included)
  {
    status := op.status;
    for k := 0 to |included|
      invariant status == op.status
      invariant SettledByRemovals(op, included) == SettledByRemovals(op, included[k..])
    {
      var p := included[k];
      if p.kind.Remove? && p.target == op.target.value {
        return if p.operationId == op.id then Committed else SatisfiedByOther;
      }
    }
  }

  /** Whom a commit adds or removes, and which operations it carries. */
  method Collect(commit: CommitMsg) returns (affected: map<string, TargetAction>, carried: set<string>)
    ensures forall t :: t in affected <==> AddsTarget(commit, t) || RemovesTarget(commit, t)
    ensures forall t :: t in affected ==> affected[t] == TargetAction(AddsTarget(commit, t), RemovesTarget(commit, t))
    ensures forall id :: id in carried <==> CarriesOperation(commit, id)
  {
    hide RemovesAmong, RemovalCarries;
    var added, addIds := CollectAdded(commit.deliveries);
    affected, carried := added, addIds;
    var ps := commit.included;
    RemovalBounds(commit);
    for k := 0 to |ps|
      invariant forall t :: t in affected <==> t in added || RemovesAmong(ps[..k], t)
      invariant forall t :: t in affected ==> affected[t] == TargetAction(t in added, RemovesAmong(ps[..k], t))
      invariant forall id :: id in carried <==> id in addIds || RemovalCarries(ps[..k], id)
    {
      var p := ps[k];
      OneMoreRemoval(ps, k);
      if p.kind.Remove? && p.target != "" {
        var was := if p.target in affected then affected[p.target] else TargetAction(false, false);
        affected := affected[p.target := was.(removed := true)];
        carried := carried + {p.operationId};
      }
    }
  }

  method CollectAdded(ds: seq<AddDelivery>) returns (added: map<string, TargetAction>, ids: set<string>)
    ensures forall t :: t in added <==> t != "" && exists d :: d in ds && d.target == t
    ensures forall t :: t in added ==> added[t] == TargetAction(true, false)
    ensures forall id :: id in ids <==> exists d :: d in ds && d.operationId == id && d.target != ""
  {
    added, ids := map[], {};
    for k := 0 to |ds|
      invariant forall t :: t in added <==> t != "" && exists d :: d in ds[..k] && d.target == t
      invariant forall t :: t in added ==> added[t] == TargetAction(true, false)
      invariant forall id :: id in ids <==> exists d :: d in ds[..k] && d.operationId == id && d.target != ""
    {
      assert ds[..k + 1] == ds[..k] + [ds[k]];
      if ds[k].target != "" {
        added := added[ds[k].target := TargetAction(true, false)];
        ids := ids + {ds[k].operationId};
      }
    }
    assert ds[..|ds|] == ds;
  }

  predicate RemovesAmong(ps: seq<ProposalMsg>, t: string) {
    exists p :: p in ps && p.kind.Remove? && p.target == t && t != ""
  }

  predicate RemovalCarries(ps: seq<ProposalMsg>, id: string) {
    exists p :: p in ps && p.kind.Remove? && p.operationId == id && p.target != ""
  }

  lemma OneMoreRemoval(ps: seq<ProposalMsg>, k: nat)
    requires k < |ps|
    ensures var p := ps[k]; var counts := p.kind.Remove? && p.target != "";
            && (forall t :: RemovesAmong(ps[..k + 1], t) <==> RemovesAmong(ps[..k], t) || (counts && t == p.target))
            && (forall id ::
                  RemovalCarries(ps[..k + 1], id) <==> RemovalCarries(ps[..k], id) || (counts && id == p.operationId))
  {
    var p := ps[k];
    var counts := p.kind.Remove? && p.target != "";
    forall t
      ensures RemovesAmong(ps[..k + 1], t) <==> RemovesAmong(ps[..k], t) || (counts && t == p.target)
    {
      OneMoreTarget(ps, k, t);
    }
    forall id
      ensures RemovalCarries(ps[..k + 1], id) <==> RemovalCarries(ps[..k], id) || (counts && id == p.operationId)
    {
      OneMoreCarried(ps, k, id);
    }
  }

  lemma OneMoreTarget(ps: seq<ProposalMsg>, k: nat, t: string)
    requires k < |ps|
    ensures RemovesAmong(ps[..k + 1], t) <==>
            RemovesAmong(ps[..k], t) || (ps[k].kind.Remove? && ps[k].target != "" && t == ps[k].target)
  {
    if RemovesAmong(ps[..k + 1], t) {
      var q :| q in ps[..k + 1] && q.kind.Remove? && q.target == t && t != "";
      OneMoreMember(ps, k, q);
    }
    if RemovesAmong(ps[..k], t) {
      var q :| q in ps[..k] && q.kind.Remove? && q.target == t && t != "";
      OneMoreMember(ps, k, q);
    }
    OneMoreMember(ps, k, ps[k]);
  }

  lemma OneMoreCarried(ps: seq<ProposalMsg>, k: nat, id: string)
    requires k < |ps|
    ensures RemovalCarries(ps[..k + 1], id) <==>
            RemovalCarries(ps[..k], id) || (ps[k].kind.Remove? && ps[k].target != "" && id == ps[k].operationId)
  {
    if RemovalCarries(ps[..k + 1], id) {
      var q :| q in ps[..k + 1] && q.kind.Remove? && q.operationId == id && q.target != "";
      OneMoreMember(ps, k, q);
    }
    if RemovalCarries(ps[..k], id) {
      var q :| q in ps[..k] && q.kind.Remove? && q.operationId == id && q.target != "";
      OneMoreMember(ps, k, q);
    }
    OneMoreMember(ps, k, ps[k]);
  }

  lemma OneMoreMember<T>(s: seq<T>, k: nat, x: T)
    requires k < |s|
    ensures x in s[..k + 1] <==> x in s[..k] || x == s[k]
  {
    assert s[..k + 1] == s[..k] + [s[k]];
    assert s[..k + 1][k] == s[k];
  }

  lemma RemovalBounds(commit: CommitMsg)
    ensures var ps := commit.included;
            && (forall t :: !RemovesAmong(ps[..0], t)) && (forall id :: !RemovalCarries(ps[..0], id))
            && (forall t :: RemovesAmong(ps[..|ps|], t) <==> RemovesTarget(commit, t))
            && (forall id :: RemovalCarries(ps[..|ps|], id) <==>
                  exists p :: p in ps && p.kind.Remove? && p.operationId == id && p.target != "")
  {
    assert commit.included[..|commit.included|] == commit.included;
  }
}
