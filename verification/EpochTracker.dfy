/** The epoch tracker: what to do with a message's epoch, and the buffer of messages that came too early. */
module EpochTracker {
  import opened Bytes

  datatype Action = Process | RejectStale | BufferFuture

  function Validate(msgEpoch: nat, localEpoch: nat): Action {
    if msgEpoch == localEpoch then Process
    else if msgEpoch < localEpoch then RejectStale
    else BufferFuture
  }

  /** Messages waiting for each future epoch, in arrival order. */
  type Future<M> = map<nat, seq<M>>

  function Queue<M>(f: Future<M>, epoch: nat): seq<M> {
    if epoch in f then f[epoch] else []
  }

  function Enqueued<M>(f: Future<M>, current: nat, epoch: nat, m: M): Future<M> {
    if epoch <= current then f else f[epoch := Queue(f, epoch) + [m]]
  }

  /** What an advance keeps: only epochs still ahead. */
  function Beyond<M>(f: Future<M>, epoch: nat): Future<M> {
    map e | e in f && e > epoch :: f[e]
  }

  /** Everything buffered lies strictly ahead of the current epoch, and no queue is empty. */
  ghost predicate Ahead<M>(f: Future<M>, epoch: nat) {
    forall e :: e in f ==> e > epoch && f[e] != []
  }

  /** FutureBufferSize. */
  ghost function Size<M>(f: Future<M>): nat {
    if f == map[] then 0
    else
      var e :| e in f;
      |f[e]| + Size(f - {e})
  }

  /** The size does not depend on the order in which the epochs are visited. */
  lemma {:induction false} SizeWithout<M>(f: Future<M>, e: nat)
    requires e in f
    ensures Size(f) == |f[e]| + Size(f - {e})
    decreases |f|
  {
    var d :| d in f && Size(f) == |f[d]| + Size(f - {d});
    if d != e {
      SizeWithout(f - {d}, e);
      SizeWithout(f - {e}, d);
      assert f - {d} - {e} == f - {e} - {d};
    }
  }

  lemma SizeEnqueued<M>(f: Future<M>, current: nat, epoch: nat, m: M)
    ensures Size(Enqueued(f, current, epoch, m)) == Size(f) + (if epoch > current then 1 else 0)
  {
    if epoch > current {
      var f' := Enqueued(f, current, epoch, m);
      SizeWithout(f', epoch);
      assert f' - {epoch} == f - {epoch};
      if epoch in f {
        SizeWithout(f, epoch);
      } else {
        assert f - {epoch} == f;
      }
    }
  }

  /** A one-step advance hands out one queue and keeps the rest: nothing is lost or invented. */
  lemma SizeAdvance<M>(f: Future<M>, epoch: nat)
    requires Ahead(f, epoch)
    ensures Size(f) == |Queue(f, epoch + 1)| + Size(Beyond(f, epoch + 1))
    ensures Ahead(Beyond(f, epoch + 1), epoch + 1)
  {
    if epoch + 1 in f {
      SizeWithout(f, epoch + 1);
      assert f - {epoch + 1} == Beyond(f, epoch + 1);
    } else {
      assert f == Beyond(f, epoch + 1);
    }
  }

  class EpochTracker<M> {
    var epoch: nat
    var treeHash: Bytes
    var future: Future<M>

    ghost predicate Valid()
      reads this
    {
      Ahead(future, epoch)
    }

    constructor (epoch: nat, treeHash: Bytes)
      ensures Valid() && this.epoch == epoch && this.treeHash == treeHash && future == map[]
    {
      this.epoch, this.treeHash, future := epoch, treeHash, map[];
    }

    method BufferFuture(msgEpoch: nat, m: M)
      requires Valid()
      modifies this`future
      ensures Valid() && future == Enqueued(old(future), epoch, msgEpoch, m)
    {
      if msgEpoch <= epoch {
        return;
      }
      var queue := if msgEpoch in future then future[msgEpoch] else [];
      future := future[msgEpoch := queue + [m]];
    }

    /** Hand out the new epoch's queue, then delete every queue that is no longer ahead. */
    method Advance(newEpoch: nat, newTreeHash: Bytes) returns (buffered: seq<M>)
      requires Valid()
      modifies this
      ensures Valid() && epoch == newEpoch && treeHash == newTreeHash
      ensures buffered == Queue(old(future), newEpoch)
      ensures future == Beyond(old(future), newEpoch)
    {
      epoch, treeHash := newEpoch, newTreeHash;
      buffered := if newEpoch in future then future[newEpoch] else [];
      future := Discard(future - {newEpoch}, newEpoch);
    }

    /** The loop of Advance that discards anything older than the new epoch. */
    static method Discard(f: Future<M>, newEpoch: nat) returns (kept: Future<M>)
      ensures kept == Beyond(f, newEpoch)
    {
      kept := f;
      var keys := f.Keys;
      while keys != {}
        invariant forall e :: e in kept <==> e in f && (e in keys || e > newEpoch)
        invariant forall e :: e in kept ==> kept[e] == f[e]
        decreases |keys|
      {
        var e :| e in keys;
        if e <= newEpoch {
          kept := kept - {e};
        }
        keys := keys - {e};
      }
    }

    method FutureBufferSize() returns (total: nat)
      ensures total == Size(future)
    {
      total := 0;
      var rest := future;
      while rest != map[]
        invariant total + Size(rest) == Size(future)
        decreases |rest|
      {
        var e :| e in rest;
        SizeWithout(rest, e);
        total := total + |rest[e]|;
        rest := rest - {e};
      }
    }
  }

  // ----- over whole runs -----

  datatype Op<M> = Buffer(epoch: nat, message: M) | Next

  /** The tracker's epoch after `ops`, started at `first`. */
  function EpochAfter<M>(first: nat, ops: seq<Op<M>>): nat {
    if ops == [] then first
    else EpochAfter(first, ops[..|ops| - 1]) + (if ops[|ops| - 1].Next? then 1 else 0)
  }

  function FutureAfter<M>(first: nat, ops: seq<Op<M>>): Future<M> {
    if ops == [] then map[]
    else
      var init, op := ops[..|ops| - 1], ops[|ops| - 1];
      match op
      case Buffer(e, m) => Enqueued(FutureAfter(first, init), EpochAfter(first, init), e, m)
      case Next => Beyond(FutureAfter(first, init), EpochAfter(first, init) + 1)
  }

  /** What the `Next` at position `i` hands out. */
  function HandedOut<M>(first: nat, ops: seq<Op<M>>, i: nat): seq<M>
    requires i < |ops| && ops[i].Next?
  {
    Queue(FutureAfter(first, ops[..i]), EpochAfter(first, ops[..i]) + 1)
  }

  /** Reference: the messages that were offered for `epoch` while it was still ahead, in arrival order. */
  function OfferedInTime<M>(first: nat, ops: seq<Op<M>>, epoch: nat): seq<M> {
    if ops == [] then []
    else
      var init, op := ops[..|ops| - 1], ops[|ops| - 1];
      OfferedInTime(first, init, epoch) +
      (if op.Buffer? && op.epoch == epoch && EpochAfter(first, init) < epoch then [op.message] else [])
  }

  lemma {:induction false} BufferHoldsWhatIsAhead<M>(first: nat, ops: seq<Op<M>>)
    ensures Ahead(FutureAfter(first, ops), EpochAfter(first, ops))
    ensures forall e :: e > EpochAfter(first, ops) ==> Queue(FutureAfter(first, ops), e) == OfferedInTime(first, ops, e)
  {
    if ops != [] {
      var init, op := ops[..|ops| - 1], ops[|ops| - 1];
      BufferHoldsWhatIsAhead(first, init);
      forall e | e > EpochAfter(first, ops)
        ensures Queue(FutureAfter(first, ops), e) == OfferedInTime(first, ops, e)
      {
        assert Queue(FutureAfter(first, init), e) == OfferedInTime(first, init, e);
      }
    }
  }

  /** Once an epoch is reached, nothing more is ever accepted for it. */
  lemma {:induction false} PastIsClosed<M>(first: nat, ops: seq<Op<M>>, k: nat, epoch: nat)
    requires k <= |ops| && epoch <= EpochAfter(first, ops[..k])
    ensures OfferedInTime(first, ops, epoch) == OfferedInTime(first, ops[..k], epoch)
    ensures epoch <= EpochAfter(first, ops)
  {
    if k == |ops| {
      assert ops[..k] == ops;
    } else {
      var init := ops[..|ops| - 1];
      assert init[..k] == ops[..k];
      PastIsClosed(first, init, k, epoch);
    }
  }

  /**
    * Each advance returns every message that came in time for
    * its epoch, once, in arrival order, whatever happens later.
    */
  lemma AdvanceHandsOutExactly<M>(first: nat, ops: seq<Op<M>>, i: nat)
    requires i < |ops| && ops[i].Next?
    ensures HandedOut(first, ops, i) == OfferedInTime(first, ops, EpochAfter(first, ops[..i + 1]))
  {
    BufferHoldsWhatIsAhead(first, ops[..i]);
    var upto := ops[..i + 1];
    assert upto[..|upto| - 1] == ops[..i] && upto[|upto| - 1] == ops[i];
    PastIsClosed(first, ops, i + 1, EpochAfter(first, upto));
  }

  function Accepted<M>(first: nat, ops: seq<Op<M>>): nat {
    if ops == [] then 0
    else
      var init, op := ops[..|ops| - 1], ops[|ops| - 1];
      Accepted(first, init) + (if op.Buffer? && op.epoch > EpochAfter(first, init) then 1 else 0)
  }

  function Returned<M>(first: nat, ops: seq<Op<M>>): nat {
    if ops == [] then 0
    else
      var init, op := ops[..|ops| - 1], ops[|ops| - 1];
      Returned(first, init) + (if op.Next? then |Queue(FutureAfter(first, init), EpochAfter(first, init) + 1)| else 0)
  }

  /** Conservation: accepted messages are either returned already or still buffered. */
  lemma {:induction false} BufferConserves<M>(first: nat, ops: seq<Op<M>>)
    ensures Accepted(first, ops) == Returned(first, ops) + Size(FutureAfter(first, ops))
  {
    if ops != [] {
      var init, op := ops[..|ops| - 1], ops[|ops| - 1];
      BufferConserves(first, init);
      BufferHoldsWhatIsAhead(first, init);
      match op {
        case Buffer(e, m) => SizeEnqueued(FutureAfter(first, init), EpochAfter(first, init), e, m);
        case Next => SizeAdvance(FutureAfter(first, init), EpochAfter(first, init));
      }
    }
  }
}
