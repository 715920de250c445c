/**
 * A commit that releases waiting commits is reconciled after them: within one call operations
 * see the commits of a chain last to first. What that does to one operation, exactly.
 */
module Unwinding {
  import opened Bytes
  import opened Types
  import opened Operations
  import opened Reconciliation
  import R = OperationRuns

  predicate IsCommit(e: Envelope) {
    e.body.CommitBody? && e.body.commit.Some?
  }

  /** The commit an envelope carries; any other envelope carries an empty one. */
  function CommitOf(e: Envelope): CommitMsg {
    if IsCommit(e) then e.body.commit.value else CommitMsg([], [], [], [], [])
  }

  predicate Adds(e: Envelope, t: string) {
    AddsTarget(CommitOf(e), t)
  }

  predicate Removes(e: Envelope, t: string) {
    RemovesTarget(CommitOf(e), t)
  }

  /** Does the commit move `t` the way the operation wants, or the other way? */
  predicate Serves(kind: OpKind, e: Envelope, t: string) {
    (kind.AddMember? && Adds(e, t)) || (kind.RemoveMember? && Removes(e, t))
  }

  predicate Opposes(kind: OpKind, e: Envelope, t: string) {
    (kind.AddMember? && Removes(e, t)) || (kind.RemoveMember? && Adds(e, t))
  }

  /** The last direction in which a log moved a target; `before` is the direction before the log. */
  function LastMove(before: R.Direction, log: seq<Envelope>, t: string): R.Direction {
    if log == [] then before
    else
      var e := log[|log| - 1];
      if Adds(e, t) then R.Added else if Removes(e, t) then R.Removed else LastMove(before, log[..|log| - 1], t)
  }

  /** The answers of MLS and of the proposal step for one operation, one pair per commit of the chain. */
  datatype Answer = Answer(gone: bool, outcome: Option<Bytes>)

  /** One operation through the reconciliations of one call: the first commit of the chain comes last. */
  function Unwound(op: Operation, chain: seq<Envelope>, epoch: nat, now: int, maxRetries: nat,
                   answers: seq<Answer>): (r: Operation)
    requires HasTarget(op) && |answers| == |chain|
    ensures SameIntent(op, r)
  {
    if chain == [] then op
    else
      var later := Unwound(op, chain[1..], epoch, now, maxRetries, answers[1..]);
      Rebased(AfterCommit(later, CommitOf(chain[0])), epoch, now, maxRetries, answers[0].gone, answers[0].outcome)
  }

  /** An epoch change at this epoch and time would leave the operation open. */
  predicate StaysOpen(op: Operation, epoch: nat, now: int, maxRetries: nat) {
    && !(op.expiresAt.Some? && op.expiresAt.value > 0 && now > op.expiresAt.value)
    && !(op.preconditionEpoch.Some? && op.preconditionEpoch.value < epoch && op.retryCount >= maxRetries)
  }

  predicate SomeServes(kind: OpKind, chain: seq<Envelope>, t: string) {
    exists i :: 0 <= i < |chain| && Serves(kind, chain[i], t)
  }

  predicate SomeOpposes(kind: OpKind, chain: seq<Envelope>, t: string) {
    exists i :: 0 <= i < |chain| && Opposes(kind, chain[i], t)
  }

  /** Some commit against the operation comes before one for it. */
  predicate OpposedFirst(kind: OpKind, chain: seq<Envelope>, t: string) {
    exists i, j :: 0 <= i < j < |chain| && Opposes(kind, chain[i], t) && Serves(kind, chain[j], t)
  }

  /** The chain first moves `t` as the operation wants and then takes it back for good. */
  predicate Crossed(kind: OpKind, chain: seq<Envelope>, t: string) {
    SomeServes(kind, chain, t) && SomeOpposes(kind, chain, t) && !OpposedFirst(kind, chain, t)
  }

  /** The commit moves targets one way and names the operation only with its own kind and target. */
  predicate NamesRightly(e: Envelope, op: Operation) {
    R.Consistent(CommitOf(e), [op])
  }

  // ----- one commit -----

  /** An open operation under one commit: settled exactly by a commit that serves it. */
  lemma OpenUnderCommit(op: Operation, e: Envelope, t: string)
    requires R.For(op, t) && t != "" && !op.kind.OtherOperation? && Active(op.status) && NamesRightly(e, op)
    ensures var r := AfterCommit(op, CommitOf(e));
            if Serves(op.kind, e, t) then Settled(r.status) else r == op
  {
    var c := CommitOf(e);
    assert [op][0] == op;
    R.OneWay([op], c, t);
    if op.kind.AddMember? {
      if AddsTarget(c, t) {
        DeliveredSettles(op, c.deliveries, t);
      } else {
        assert forall d :: d in c.deliveries ==> d.operationId != op.id && d.target != t;
        R.SettledOnlyByItsTarget(op, c.deliveries);
      }
    } else {
      if RemovesTarget(c, t) {
        RemovedSettles(op, c.included, t);
      } else {
        assert forall p :: p in c.included && p.kind.Remove? ==> p.target != t;
        R.SettledOnlyByItsRemoval(op, c.included);
      }
    }
  }

  lemma {:induction false} DeliveredSettles(op: Operation, ds: seq<AddDelivery>, t: string)
    requires op.target == Some(t) && exists d :: d in ds && d.target == t
    ensures Settled(SettledByDeliveries(op, ds))
  {
    if ds[0].operationId != op.id && ds[0].target != t {
      DeliveredSettles(op, ds[1..], t);
    }
  }

  lemma {:induction false} RemovedSettles(op: Operation, ps: seq<ProposalMsg>, t: string)
    requires op.target == Some(t) && exists p :: p in ps && p.kind.Remove? && p.target == t
    ensures Settled(SettledByRemovals(op, ps))
  {
    if !(ps[0].kind.Remove? && ps[0].target == t) {
      RemovedSettles(op, ps[1..], t);
    }
  }

  /** A settled operation under one commit: superseded exactly by a commit that opposes it. */
  lemma SettledUnderCommit(op: Operation, e: Envelope, t: string)
    requires R.For(op, t) && t != "" && !op.kind.OtherOperation? && Settled(op.status) && NamesRightly(e, op)
    ensures var r := AfterCommit(op, CommitOf(e));
            if Opposes(op.kind, e, t) then r.status == Superseded else r == op
  {
    assert [op][0] == op;
    R.OneWay([op], CommitOf(e), t);
  }

  /** A failed or superseded operation is out of reach. */
  lemma InertUnderCommit(op: Operation, c: CommitMsg)
    requires HasTarget(op) && !Active(op.status) && !Settled(op.status)
    ensures AfterCommit(op, c) == op
  {
  }

  /** One epoch change: an open operation stays open exactly if it can, and then can again. */
  lemma OpenUnderRebase(op: Operation, epoch: nat, now: int, maxRetries: nat, a: Answer)
    requires Active(op.status) && !op.kind.OtherOperation? && (op.kind.RemoveMember? ==> !a.gone)
    ensures var r := Rebased(op, epoch, now, maxRetries, a.gone, a.outcome);
            && !Settled(r.status) && (Active(r.status) <==> StaysOpen(op, epoch, now, maxRetries))
            && (Active(r.status) ==> StaysOpen(r, epoch, now, maxRetries))
  {
  }

  lemma NamesSame(e: Envelope, a: Operation, b: Operation)
    requires NamesRightly(e, a) && SameIntent(a, b)
    ensures NamesRightly(e, b)
  {
    assert [a][0] == a && [b][0] == b;
  }

  // ----- the whole chain -----

  ghost predicate Applies(op: Operation, chain: seq<Envelope>, answers: seq<Answer>, t: string) {
    && R.For(op, t) && t != "" && !op.kind.OtherOperation? && |answers| == |chain|
    && (forall i :: 0 <= i < |chain| ==> NamesRightly(chain[i], op))
    && (op.kind.RemoveMember? ==> forall i :: 0 <= i < |answers| ==> !answers[i].gone)
  }

  lemma AppliesTail(op: Operation, chain: seq<Envelope>, answers: seq<Answer>, t: string)
    requires Applies(op, chain, answers, t) && chain != []
    ensures Applies(op, chain[1..], answers[1..], t)
  {
  }

  /** How the patterns of a chain follow from its first commit and the rest. */
  lemma PatternStep(kind: OpKind, chain: seq<Envelope>, t: string)
    requires chain != []
    ensures SomeServes(kind, chain, t) <==> Serves(kind, chain[0], t) || SomeServes(kind, chain[1..], t)
    ensures SomeOpposes(kind, chain, t) <==> Opposes(kind, chain[0], t) || SomeOpposes(kind, chain[1..], t)
    ensures OpposedFirst(kind, chain, t) <==>
            (Opposes(kind, chain[0], t) && SomeServes(kind, chain[1..], t)) || OpposedFirst(kind, chain[1..], t)
  {
    hide Serves, Opposes;
    var rest := chain[1..];
    assert forall i :: 0 < i < |chain| ==> chain[i] == rest[i - 1];
    assert forall i :: 0 <= i < |rest| ==> rest[i] == chain[i + 1];
    if OpposedFirst(kind, chain, t) {
      var i, j :| 0 <= i < j < |chain| && Opposes(kind, chain[i], t) && Serves(kind, chain[j], t);
      assert Serves(kind, rest[j - 1], t);
      if i > 0 {
        assert Opposes(kind, rest[i - 1], t) && Serves(kind, rest[j - 1], t);
      }
    }
    if OpposedFirst(kind, rest, t) {
      var i, j :| 0 <= i < j < |rest| && Opposes(kind, rest[i], t) && Serves(kind, rest[j], t);
      assert Opposes(kind, chain[i + 1], t) && Serves(kind, chain[j + 1], t);
    }
  }

  predicate LastServes(kind: OpKind, chain: seq<Envelope>, t: string) {
    chain != [] && Serves(kind, chain[|chain| - 1], t)
  }

  lemma PatternNeedsServing(kind: OpKind, chain: seq<Envelope>, t: string)
    ensures OpposedFirst(kind, chain, t) || LastServes(kind, chain, t) ==> SomeServes(kind, chain, t)
  {
  }

  /** An operation that was open before the call: when it is still open, and when settled. */
  lemma {:induction false} OpenUnwound(op: Operation, chain: seq<Envelope>, epoch: nat, now: int, maxRetries: nat,
                                       answers: seq<Answer>, t: string)
    requires HasTarget(op) && Active(op.status) && |answers| == |chain| && Applies(op, chain, answers, t)
    ensures var r := Unwound(op, chain, epoch, now, maxRetries, answers);
            var open := StaysOpen(op, epoch, now, maxRetries);
            && (Active(r.status) <==> !SomeServes(op.kind, chain, t) && (chain == [] || open))
            && (Active(r.status) ==> if chain == [] then r == op else StaysOpen(r, epoch, now, maxRetries))
            && (Settled(r.status) <==>
                  SomeServes(op.kind, chain, t) && !OpposedFirst(op.kind, chain, t)
                    && (LastServes(op.kind, chain, t) || open))
    decreases |chain|
  {
    hide Applies, NamesRightly, Serves, Opposes, SomeServes, OpposedFirst, StaysOpen;
    if chain == [] {
      NoPattern(op.kind, t);
    } else {
      AppliesTail(op, chain, answers, t);
      OpenUnwound(op, chain[1..], epoch, now, maxRetries, answers[1..], t);
      PatternStep(op.kind, chain, t);
      PatternNeedsServing(op.kind, chain, t);
      PatternNeedsServing(op.kind, chain[1..], t);
      OpenStep(op, chain, epoch, now, maxRetries, answers, t);
      if |chain| == 1 {
        assert chain[1..] == [];
        NoPattern(op.kind, t);
      } else {
        assert chain[1..][|chain| - 2] == chain[|chain| - 1];
      }
    }
  }

  lemma NoPattern(kind: OpKind, t: string)
    ensures !SomeServes(kind, [], t) && !SomeOpposes(kind, [], t) && !OpposedFirst(kind, [], t)
  {
  }

  /** The outermost commit of a chain, on what the others have made of the operation. */
  lemma OpenStep(op: Operation, chain: seq<Envelope>, epoch: nat, now: int, maxRetries: nat, answers: seq<Answer>,
                 t: string)
    requires HasTarget(op) && |answers| == |chain| && Applies(op, chain, answers, t) && chain != []
    ensures var later := Unwound(op, chain[1..], epoch, now, maxRetries, answers[1..]);
            var r := Unwound(op, chain, epoch, now, maxRetries, answers);
            if Active(later.status) then
              if Serves(op.kind, chain[0], t) then Settled(r.status)
              else
                && !Settled(r.status) && (Active(r.status) <==> StaysOpen(later, epoch, now, maxRetries))
                && (Active(r.status) ==> StaysOpen(r, epoch, now, maxRetries))
            else if Settled(later.status) then
              !Active(r.status) && (Settled(r.status) <==> !Opposes(op.kind, chain[0], t))
            else !Active(r.status) && !Settled(r.status)
  {
    hide Serves, Opposes, StaysOpen, AfterCommit, NamesRightly, Rebased;
    var later := Unwound(op, chain[1..], epoch, now, maxRetries, answers[1..]);
    var e := chain[0];
    NamesSame(e, op, later);
    var mid := AfterCommit(later, CommitOf(e));
    if Active(later.status) {
      OpenUnderCommit(later, e, t);
      if !Serves(op.kind, e, t) {
        OpenUnderRebase(later, epoch, now, maxRetries, answers[0]);
      } else {
        FinalUnderRebase(mid, epoch, now, maxRetries, answers[0]);
      }
    } else {
      if Settled(later.status) {
        SettledUnderCommit(later, e, t);
      } else {
        InertUnderCommit(later, CommitOf(e));
      }
      FinalUnderRebase(mid, epoch, now, maxRetries, answers[0]);
    }
  }

  lemma FinalUnderRebase(op: Operation, epoch: nat, now: int, maxRetries: nat, a: Answer)
    requires !Active(op.status)
    ensures Rebased(op, epoch, now, maxRetries, a.gone, a.outcome) == op
  {
  }

  /** An operation that was settled or failed before the call. */
  lemma {:induction false} FinalUnwound(op: Operation, chain: seq<Envelope>, epoch: nat, now: int, maxRetries: nat,
                                        answers: seq<Answer>, t: string)
    requires HasTarget(op) && !Active(op.status) && |answers| == |chain| && Applies(op, chain, answers, t)
    ensures var r := Unwound(op, chain, epoch, now, maxRetries, answers);
            !Active(r.status) && (Settled(r.status) <==> Settled(op.status) && !SomeOpposes(op.kind, chain, t))
    decreases |chain|
  {
    hide Applies, NamesRightly, Serves, Opposes, SomeOpposes, StaysOpen;
    if chain == [] {
      NoPattern(op.kind, t);
    } else {
      AppliesTail(op, chain, answers, t);
      FinalUnwound(op, chain[1..], epoch, now, maxRetries, answers[1..], t);
      PatternStep(op.kind, chain, t);
      OpenStep(op, chain, epoch, now, maxRetries, answers, t);
    }
  }

  // ----- staleness -----

  /** The last move of a chain: against the operation exactly if its last mover opposes it. */
  lemma {:induction false} LastMoveOpposes(kind: OpKind, before: R.Direction, chain: seq<Envelope>, t: string)
    requires !kind.OtherOperation?
    requires forall i :: 0 <= i < |chain| ==> !(Adds(chain[i], t) && Removes(chain[i], t))
    ensures Against(kind, LastMove(before, chain, t)) <==>
            if SomeServes(kind, chain, t) || SomeOpposes(kind, chain, t)
            then LastOpposes(kind, chain, t) else Against(kind, before)
    decreases |chain|
  {
    hide Adds, Removes;
    if chain != [] {
      var init, e := chain[..|chain| - 1], chain[|chain| - 1];
      assert chain == init + [e];
      assert !(Adds(e, t) && Removes(e, t));
      LastMoveOpposes(kind, before, init, t);
      LastOpposesGrows(kind, init, e, t);
    }
  }

  ghost predicate LastOpposes(kind: OpKind, chain: seq<Envelope>, t: string) {
    exists i ::
      0 <= i < |chain| && Opposes(kind, chain[i], t) && forall j :: i < j < |chain| ==> !Serves(kind, chain[j], t)
  }

  lemma LastOpposesGrows(kind: OpKind, init: seq<Envelope>, e: Envelope, t: string)
    requires !(Serves(kind, e, t) && Opposes(kind, e, t))
    ensures LastOpposes(kind, init + [e], t) <==>
              Opposes(kind, e, t) || (LastOpposes(kind, init, t) && !Serves(kind, e, t))
    ensures SomeServes(kind, init + [e], t) <==> SomeServes(kind, init, t) || Serves(kind, e, t)
    ensures SomeOpposes(kind, init + [e], t) <==> SomeOpposes(kind, init, t) || Opposes(kind, e, t)
  {
    hide Serves, Opposes;
    var chain := init + [e];
    assert chain[|init|] == e && forall i :: 0 <= i < |init| ==> chain[i] == init[i];
    if LastOpposes(kind, init, t) && !Serves(kind, e, t) {
      var i :| 0 <= i < |init| && Opposes(kind, init[i], t) && forall j :: i < j < |init| ==> !Serves(kind, init[j], t);
      assert Opposes(kind, chain[i], t);
    }
  }

  predicate Against(kind: OpKind, d: R.Direction) {
    (kind.AddMember? && d.Removed?) || (kind.RemoveMember? && d.Added?)
  }

  lemma StaleIsAgainst(op: Operation, d: R.Direction)
    ensures R.Stale(op, d) <==> Settled(op.status) && Against(op.kind, d)
  {
  }

  lemma MovesOneWay(op: Operation, chain: seq<Envelope>, answers: seq<Answer>, t: string)
    requires Applies(op, chain, answers, t)
    ensures forall i :: 0 <= i < |chain| ==> !(Adds(chain[i], t) && Removes(chain[i], t))
    ensures forall i :: 0 <= i < |chain| ==> !(Serves(op.kind, chain[i], t) && Opposes(op.kind, chain[i], t))
  {
    forall i | 0 <= i < |chain|
      ensures !(Adds(chain[i], t) && Removes(chain[i], t))
    {
      R.OneWay([op], CommitOf(chain[i]), t);
    }
  }

  /**
    * One call, one operation: it is stale after the call if and only if it was open, an epoch change at the final epoch
    * leaves it open, and the chain first moves its target as it wants and then takes that back.
    */
  lemma UnwoundStaleExactly(op: Operation, before: R.Direction, chain: seq<Envelope>, epoch: nat, now: int,
                            maxRetries: nat,
                            answers: seq<Answer>, t: string)
    requires HasTarget(op) && |answers| == |chain| && Applies(op, chain, answers, t) && !R.Stale(op, before)
    ensures R.Stale(Unwound(op, chain, epoch, now, maxRetries, answers), LastMove(before, chain, t)) <==>
            Active(op.status) && StaysOpen(op, epoch, now, maxRetries) && Crossed(op.kind, chain, t)
  {
    hide Applies, Serves, Opposes, Adds, Removes, StaysOpen, Unwound, R.Stale, LastMove, Against;
    var r := Unwound(op, chain, epoch, now, maxRetries, answers);
    StaleIsAgainst(r, LastMove(before, chain, t));
    StaleIsAgainst(op, before);
    MovesOneWay(op, chain, answers, t);
    AppliesMeans(op, chain, answers, t);
    LastMoveOpposes(op.kind, before, chain, t);
    if Active(op.status) {
      OpenUnwound(op, chain, epoch, now, maxRetries, answers, t);
      if Crossed(op.kind, chain, t) {
        var i :| 0 <= i < |chain| && Opposes(op.kind, chain[i], t);
        assert forall j :: i < j < |chain| ==> !Serves(op.kind, chain[j], t);
      }
    } else {
      FinalUnwound(op, chain, epoch, now, maxRetries, answers, t);
    }
  }

  lemma AppliesMeans(op: Operation, chain: seq<Envelope>, answers: seq<Answer>, t: string)
    requires Applies(op, chain, answers, t)
    ensures !op.kind.OtherOperation?
  {
  }

  /** Adds and removals of `t` after one another: the last move of a longer log. */
  lemma {:induction false} LastMoveAppend(before: R.Direction, a: seq<Envelope>, b: seq<Envelope>, t: string)
    ensures LastMove(before, a + b, t) == LastMove(LastMove(before, a, t), b, t)
    decreases |b|
  {
    if b == [] {
      assert a + b == a;
    } else {
      assert (a + b)[..|a + b| - 1] == a + b[..|b| - 1];
      LastMoveAppend(before, a, b[..|b| - 1], t);
    }
  }

  /** A crossed chain ends against the operation. */
  lemma CrossedEndsAgainst(op: Operation, before: R.Direction, chain: seq<Envelope>, t: string)
    requires !op.kind.OtherOperation? && Crossed(op.kind, chain, t)
    requires forall i :: 0 <= i < |chain| ==> !(Adds(chain[i], t) && Removes(chain[i], t))
    ensures Against(op.kind, LastMove(before, chain, t))
  {
    hide Serves, Opposes, Adds, Removes, LastMove, Against;
    LastMoveOpposes(op.kind, before, chain, t);
    var i :| 0 <= i < |chain| && Opposes(op.kind, chain[i], t);
    assert forall j :: i < j < |chain| ==> !Serves(op.kind, chain[j], t);
  }
}
