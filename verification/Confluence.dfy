/** Commits delivered in any order, with repeats, end where in-order delivery ends. */
module Confluence {
  import opened Types
  import opened SingleWriter
  import opened EpochTracker
  import opened Coordinator

  /** A node with nothing of its own pending: no buffered message, proposal or operation. */
  ghost predicate Idle(n: Node) {
    n.future == map[] && n.writer == Fresh(n.epoch) && n.ops == []
  }

  /** In-order delivery of the first `k` commits. */
  ghost function InOrder(env: Env, n: Node, cs: seq<Envelope>, k: nat): (r: Node)
    requires WellFormed(n) && k <= |cs|
    ensures WellFormed(r)
  {
    if k == 0 then n else HandleCommit(env, InOrder(env, n, cs, k - 1), cs[k - 1]).0
  }

  /** One commit per consecutive epoch, each accepted when its turn comes. */
  ghost predicate ValidChain(env: Env, n: Node, cs: seq<Envelope>)
    requires WellFormed(n)
  {
    && (forall i :: 0 <= i < |cs| ==> cs[i].epoch == n.epoch + i && cs[i].body.CommitBody?)
    && (forall i :: 0 <= i < |cs| ==> HandleCommit(env, InOrder(env, n, cs, i), cs[i]).1)
  }

  lemma ReconcileIdle(env: Env, n: Node, c: CommitMsg)
    requires WellFormed(n) && n.writer.proposals == [] && n.ops == []
    ensures Reconcile(env, WithoutCommitted(n, c), c) == n
  {
    assert DrainedByRefs([], c.committedRefs) == [];
  }

  /** The accepted commit at position `k` of a valid chain. */
  ghost function Moved(env: Env, n: Node, e: Envelope): Node
    requires e.body.CommitBody? && e.body.commit.Some? && Examine(env, n, e, e.body.commit.value).Accept?
  {
    var verdict := Examine(env, n, e, e.body.commit.value);
    Advanced(env, n, e, e.body.commit.value.commitData, verdict.state, verdict.treeHash)
  }

  /** An accepted commit takes an idle node one epoch on and leaves it idle. */
  lemma IdleMoves(env: Env, n: Node, e: Envelope)
    requires WellFormed(n) && Idle(n) && HandleCommit(env, n, e).1
    ensures e.epoch == n.epoch && e.body.CommitBody? && e.body.commit.Some?
    ensures Examine(env, n, e, e.body.commit.value).Accept?
    ensures HandleCommit(env, n, e).0 == Moved(env, n, e)
    ensures Idle(Moved(env, n, e)) && Moved(env, n, e).epoch == n.epoch + 1
  {
    hide Examine, Reconcile, CommitHash, NextHistory;
    var c := e.body.commit.value;
    var verdict := Examine(env, n, e, c);
    AdvancedWellFormed(env, n, e, c.commitData, verdict.state, verdict.treeHash);
    assert Queue(n.future, n.epoch + 1) == [];
    assert AdvanceAndDrain(env, n, e, c.commitData, verdict.state, verdict.treeHash) == Moved(env, n, e);
    ReconcileIdle(env, Moved(env, n, e), c);
  }

  lemma {:induction false} InOrderSteps(env: Env, n: Node, cs: seq<Envelope>, k: nat)
    requires WellFormed(n) && Idle(n) && ValidChain(env, n, cs) && k <= |cs|
    ensures Idle(InOrder(env, n, cs, k)) && InOrder(env, n, cs, k).epoch == n.epoch + k
    ensures k < |cs| ==>
              && cs[k].body.CommitBody? && cs[k].body.commit.Some?
              && Examine(env, InOrder(env, n, cs, k), cs[k], cs[k].body.commit.value).Accept?
              && InOrder(env, n, cs, k + 1) == Moved(env, InOrder(env, n, cs, k), cs[k])
  {
    hide Examine, Moved, HandleCommit, WellFormed, ValidChain, Idle;
    if k > 0 {
      InOrderSteps(env, n, cs, k - 1);
      ChainApplies(env, n, cs, k - 1);
      IdleMoves(env, InOrder(env, n, cs, k - 1), cs[k - 1]);
    }
    if k < |cs| {
      ChainApplies(env, n, cs, k);
      IdleMoves(env, InOrder(env, n, cs, k), cs[k]);
    }
  }

  lemma ChainApplies(env: Env, n: Node, cs: seq<Envelope>, k: nat)
    requires WellFormed(n) && ValidChain(env, n, cs) && k < |cs|
    ensures HandleCommit(env, InOrder(env, n, cs, k), cs[k]).1
  {
    hide HandleCommit, InOrder, WellFormed;
  }

  /** A buffer of later commits of the chain only. */
  ghost predicate OnlyLater(first: nat, cs: seq<Envelope>, k: nat, f: Future<Envelope>) {
    forall e :: e in f ==> first + k < e < first + |cs| && forall m :: m in f[e] ==> m == cs[e - first]
  }

  /** Exactly the commits of `seen` beyond `k` are waiting. */
  ghost predicate Waits(first: nat, cs: seq<Envelope>, k: nat, seen: set<nat>, f: Future<Envelope>) {
    forall j :: k < j < |cs| ==> (j in seen <==> first + j in f)
  }

  /**
    * The node is where in-order delivery of `k` commits ends, except for what it buffers: the later commits in `seen`.
    */
  ghost predicate At(env: Env, n0: Node, cs: seq<Envelope>, k: nat, seen: set<nat>, n: Node)
    requires WellFormed(n0) && k <= |cs|
  {
    && WellFormed(n)
    && n == InOrder(env, n0, cs, k).(future := n.future)
    && OnlyLater(n0.epoch, cs, k, n.future) && Waits(n0.epoch, cs, k, seen, n.future)
  }

  /** Every commit before `k` has been seen, the one at `k` has not. */
  ghost predicate UpTo(cs: seq<Envelope>, k: nat, seen: set<nat>) {
    k <= |cs| && (forall j :: 0 <= j < k ==> j in seen) && (k < |cs| ==> k !in seen)
  }

  lemma {:induction false} DrainStale(env: Env, n: Node, queue: seq<Envelope>)
    requires WellFormed(n)
    requires forall m :: m in queue ==> m.epoch < n.epoch && m.body.CommitBody?
    ensures Drain(env, n, queue) == n
    decreases |queue|
  {
    if queue != [] {
      assert queue[0] in queue;
      assert HandleQueued(env, n, queue[0]) == n;
      DrainStale(env, n, queue[1..]);
    }
  }

  /** What is buffered plays no part in judging a commit or in moving on. */
  lemma BufferIsIrrelevant(env: Env, n: Node, f: Future<Envelope>, e: Envelope)
    requires e.body.CommitBody? && e.body.commit.Some?
    ensures Examine(env, n.(future := f), e, e.body.commit.value) == Examine(env, n, e, e.body.commit.value)
    ensures Examine(env, n, e, e.body.commit.value).Accept? ==>
              Moved(env, n.(future := f), e) == Moved(env, n, e).(future := Beyond(f, n.epoch + 1))
  {
  }

  /** A node at position `k` judges the next commit as in-order delivery does. */
  lemma JudgesAlike(env: Env, n0: Node, cs: seq<Envelope>, k: nat, seen: set<nat>, n: Node)
    requires WellFormed(n0) && Idle(n0) && ValidChain(env, n0, cs) && k < |cs|
    requires At(env, n0, cs, k, seen, n)
    ensures cs[k].body.CommitBody? && cs[k].body.commit.Some? && n.epoch == n0.epoch + k == cs[k].epoch
    ensures Examine(env, n, cs[k], cs[k].body.commit.value).Accept?
    ensures Moved(env, n, cs[k]) == InOrder(env, n0, cs, k + 1).(future := Beyond(n.future, n.epoch + 1))
  {
    hide At, Examine, Moved, InOrder, ValidChain, OnlyLater, Waits, Idle, WellFormed;
    AtMeans(env, n0, cs, k, seen, n);
    InOrderSteps(env, n0, cs, k);
    ChainAt(env, n0, cs, k);
    BufferIsIrrelevant(env, InOrder(env, n0, cs, k), n.future, cs[k]);
  }

  /** Every message of the queue is the chain's commit `k`. */
  ghost predicate Copies(queue: seq<Envelope>, cs: seq<Envelope>, k: nat) {
    forall m :: m in queue ==> k < |cs| && m == cs[k]
  }

  /** Moving on by one epoch takes the next commit's copies, if it has been seen, out of the buffer. */
  lemma BufferMoves(first: nat, cs: seq<Envelope>, k: nat, seen: set<nat>, f: Future<Envelope>)
    requires k < |cs| && OnlyLater(first, cs, k, f) && Waits(first, cs, k, seen, f)
    requires forall e :: e in f ==> f[e] != []
    ensures OnlyLater(first, cs, k + 1, Beyond(f, first + k + 1))
    ensures Waits(first, cs, k + 1, seen, Beyond(f, first + k + 1))
    ensures Queue(f, first + k + 1) != [] <==> k + 1 < |cs| && k + 1 in seen
    ensures Copies(Queue(f, first + k + 1), cs, k + 1)
  {
    assert first + (k + 1) == first + k + 1;
  }

  /** Advancing past commit `k` in the middle of a chain gives the in-order state, with the next queue taken out. */
  lemma AdvanceAt(env: Env, n0: Node, cs: seq<Envelope>, k: nat, seen: set<nat>, n: Node)
    requires WellFormed(n0) && Idle(n0) && ValidChain(env, n0, cs) && k < |cs|
    requires At(env, n0, cs, k, seen, n)
    ensures cs[k].body.CommitBody? && cs[k].body.commit.Some? && n.epoch == n0.epoch + k == cs[k].epoch
    ensures Examine(env, n, cs[k], cs[k].body.commit.value).Accept?
    ensures At(env, n0, cs, k + 1, seen, Moved(env, n, cs[k]))
    ensures var q := Queue(n.future, n.epoch + 1);
            && (q != [] <==> k + 1 < |cs| && k + 1 in seen)
            && Copies(q, cs, k + 1)
    ensures Size(Moved(env, n, cs[k]).future) + |Queue(n.future, n.epoch + 1)| == Size(n.future)
  {
    hide At, Examine, Moved, InOrder, ValidChain, OnlyLater, Waits, Queue, Copies, Idle, WellFormed;
    AtMeans(env, n0, cs, k, seen, n);
    JudgesAlike(env, n0, cs, k, seen, n);
    BufferMoves(n0.epoch, cs, k, seen, n.future);
    MovedWellFormed(env, n, cs[k]);
    MakeAt(env, n0, cs, k + 1, seen, Moved(env, n, cs[k]));
  }

  lemma MakeAt(env: Env, n0: Node, cs: seq<Envelope>, k: nat, seen: set<nat>, n: Node)
    requires WellFormed(n0) && k <= |cs| && WellFormed(n) && n == InOrder(env, n0, cs, k).(future := n.future)
    requires OnlyLater(n0.epoch, cs, k, n.future) && Waits(n0.epoch, cs, k, seen, n.future)
    ensures At(env, n0, cs, k, seen, n)
  {
    hide InOrder, OnlyLater, Waits, WellFormed;
  }

  lemma MovedWellFormed(env: Env, n: Node, e: Envelope)
    requires WellFormed(n) && e.body.CommitBody? && e.body.commit.Some?
    requires Examine(env, n, e, e.body.commit.value).Accept?
    ensures WellFormed(Moved(env, n, e)) && Moved(env, n, e).epoch == n.epoch + 1
    ensures Size(Moved(env, n, e).future) + |Queue(n.future, n.epoch + 1)| == Size(n.future)
  {
    hide Examine;
    var c := e.body.commit.value;
    var verdict := Examine(env, n, e, c);
    AdvancedWellFormed(env, n, e, c.commitData, verdict.state, verdict.treeHash);
  }

  /** What accepting a commit amounts to when nothing of the node's own is pending afterwards. */
  lemma AcceptedMeans(env: Env, n: Node, e: Envelope)
    requires WellFormed(n) && e.epoch == n.epoch && e.body.CommitBody? && e.body.commit.Some?
    requires Examine(env, n, e, e.body.commit.value).Accept?
    requires WellFormed(Moved(env, n, e))
    requires (forall m :: m in Queue(n.future, n.epoch + 1) ==> m.epoch <= Moved(env, n, e).epoch)
    requires var d := Drain(env, Moved(env, n, e), Queue(n.future, n.epoch + 1));
             d.writer.proposals == [] && d.ops == []
    ensures HandleCommit(env, n, e).0 == Drain(env, Moved(env, n, e), Queue(n.future, n.epoch + 1))
  {
    hide Examine, Advanced, Drain, WellFormed, Reconcile, Size;
    ReconcileIdle(env, Drain(env, Moved(env, n, e), Queue(n.future, n.epoch + 1)), e.body.commit.value);
  }

  /** Delivering the next commit of the chain runs through everything that was waiting behind it. */
  lemma {:induction false} CatchUp(env: Env, n0: Node, cs: seq<Envelope>, k: nat, seen: set<nat>, n: Node)
    returns (k': nat)
    requires WellFormed(n0) && Idle(n0) && ValidChain(env, n0, cs) && k < |cs|
    requires At(env, n0, cs, k, seen, n)
    requires forall j :: 0 <= j <= k ==> j in seen
    ensures k' > k && UpTo(cs, k', seen)
    ensures At(env, n0, cs, k', seen, HandleCommit(env, n, cs[k]).0)
    decreases Size(n.future), 1
  {
    hide Examine, At, Moved, ValidChain, HandleCommit, Drain;
    AdvanceAt(env, n0, cs, k, seen, n);
    var moved, queue := Moved(env, n, cs[k]), Queue(n.future, n.epoch + 1);
    AtWellFormed(env, n0, cs, k, seen, n);
    AtWellFormed(env, n0, cs, k + 1, seen, moved);
    if k + 1 < |cs| {
      ChainAt(env, n0, cs, k + 1);
    }
    k' := DrainCatchesUp(env, n0, cs, k + 1, seen, moved, queue);
    AtWellFormed(env, n0, cs, k', seen, Drain(env, moved, queue));
    AcceptedMeans(env, n, cs[k]);
  }

  /** The drain of the next commit's copies: the first catches up, the others are stale. */
  lemma {:induction false} DrainCatchesUp(env: Env, n0: Node, cs: seq<Envelope>, k: nat, seen: set<nat>, n: Node,
                                          queue: seq<Envelope>) returns (k': nat)
    requires WellFormed(n0) && Idle(n0) && ValidChain(env, n0, cs) && k <= |cs|
    requires At(env, n0, cs, k, seen, n) && n.epoch == n0.epoch + k
    requires forall j :: 0 <= j < k ==> j in seen
    requires queue != [] <==> k < |cs| && k in seen
    requires Copies(queue, cs, k) && forall m :: m in queue ==> m.epoch <= n.epoch
    ensures k' >= k && UpTo(cs, k', seen)
    ensures At(env, n0, cs, k', seen, Drain(env, n, queue))
    decreases Size(n.future) + |queue|, 0
  {
    hide At, ValidChain, HandleCommit;
    if queue == [] {
      k' := k;
    } else {
      assert queue[0] in queue && queue[0] == cs[k];
      ChainAt(env, n0, cs, k);
      AtWellFormed(env, n0, cs, k, seen, n);
      k' := CatchUp(env, n0, cs, k, seen, n);
      var caught := HandleCommit(env, n, cs[k]).0;
      AtWellFormed(env, n0, cs, k', seen, caught);
      assert HandleQueued(env, n, queue[0]) == caught;
      assert forall m :: m in queue[1..] ==> m in queue;
      DrainStale(env, caught, queue[1..]);
    }
  }

  lemma ChainAt(env: Env, n0: Node, cs: seq<Envelope>, k: nat)
    requires WellFormed(n0) && ValidChain(env, n0, cs) && k < |cs|
    ensures cs[k].epoch == n0.epoch + k && cs[k].body.CommitBody?
  {
  }

  lemma AtWellFormed(env: Env, n0: Node, cs: seq<Envelope>, k: nat, seen: set<nat>, n: Node)
    requires WellFormed(n0) && Idle(n0) && ValidChain(env, n0, cs) && k <= |cs| && At(env, n0, cs, k, seen, n)
    ensures WellFormed(n) && n.epoch == n0.epoch + k && n.writer.proposals == [] && n.ops == []
  {
    InOrderSteps(env, n0, cs, k);
  }

  /** Deliveries of a chain's commits by position, in any order, with any repeats. */
  ghost function DeliverAll(env: Env, n: Node, cs: seq<Envelope>, ds: seq<nat>): (r: Node)
    requires WellFormed(n) && forall i :: 0 <= i < |ds| ==> ds[i] < |cs|
    ensures WellFormed(r)
  {
    if ds == [] then n else HandleCommit(env, DeliverAll(env, n, cs, ds[..|ds| - 1]), cs[ds[|ds| - 1]]).0
  }

  ghost function Seen(ds: seq<nat>): set<nat> {
    set d | d in ds
  }

  /** A commit ahead of its turn is buffered, one behind is dropped. */
  lemma OutOfTurn(env: Env, n0: Node, cs: seq<Envelope>, k: nat, seen: set<nat>, n: Node, d: nat)
    requires WellFormed(n0) && k <= |cs| && d < |cs| && d != k
    requires n.epoch == n0.epoch + k && cs[d].epoch == n0.epoch + d
    requires UpTo(cs, k, seen) && At(env, n0, cs, k, seen, n)
    ensures UpTo(cs, k, seen + {d})
    ensures At(env, n0, cs, k, seen + {d}, HandleCommit(env, n, cs[d]).0)
  {
    hide InOrder, HandleCommit, At, OnlyLater, Waits, WellFormed, UpTo;
    AtMeans(env, n0, cs, k, seen, n);
    NotNow(env, n, cs[d]);
    EnqueueKeeps(n0.epoch, cs, k, seen, n.future, d);
    MakeAt(env, n0, cs, k, seen + {d}, HandleCommit(env, n, cs[d]).0);
  }

  lemma EnqueueKeeps(first: nat, cs: seq<Envelope>, k: nat, seen: set<nat>, f: Future<Envelope>, d: nat)
    requires OnlyLater(first, cs, k, f) && Waits(first, cs, k, seen, f) && UpTo(cs, k, seen) && d < |cs| && d != k
    ensures UpTo(cs, k, seen + {d})
    ensures var f' := if d < k then f else f[first + d := Queue(f, first + d) + [cs[d]]];
            OnlyLater(first, cs, k, f') && Waits(first, cs, k, seen + {d}, f')
  {
  }

  lemma NotNow(env: Env, n: Node, e: Envelope)
    requires WellFormed(n)
    ensures e.epoch < n.epoch ==> HandleCommit(env, n, e).0 == n
    ensures e.epoch > n.epoch ==>
              HandleCommit(env, n, e).0 == n.(future := n.future[e.epoch := Queue(n.future, e.epoch) + [e]])
  {
    hide Examine, AdvanceAndDrain, Reconcile, WellFormed;
  }

  lemma CurrentIsNotBuffered(env: Env, n0: Node, cs: seq<Envelope>, k: nat, seen: set<nat>, n: Node)
    requires WellFormed(n0) && k <= |cs| && At(env, n0, cs, k, seen, n)
    ensures At(env, n0, cs, k, seen + {k}, n)
  {
    hide InOrder, WellFormed, OnlyLater;
  }

  lemma DeliverOne(env: Env, n0: Node, cs: seq<Envelope>, k: nat, seen: set<nat>, n: Node, d: nat) returns (k': nat)
    requires WellFormed(n0) && Idle(n0) && ValidChain(env, n0, cs) && d < |cs|
    requires UpTo(cs, k, seen) && At(env, n0, cs, k, seen, n)
    ensures UpTo(cs, k', seen + {d})
    ensures At(env, n0, cs, k', seen + {d}, HandleCommit(env, n, cs[d]).0)
  {
    hide HandleCommit, At, ValidChain, WellFormed, Idle;
    AtWellFormed(env, n0, cs, k, seen, n);
    ChainAt(env, n0, cs, d);
    if d == k {
      CurrentIsNotBuffered(env, n0, cs, k, seen, n);
      k' := CatchUp(env, n0, cs, k, seen + {d}, n);
    } else {
      k' := k;
      OutOfTurn(env, n0, cs, k, seen, n, d);
    }
  }

  /**
    * Out-of-order delivery: the node stands at the first commit it
    * has not seen, exactly as after in-order delivery up to it.
    */
  lemma {:induction false} OutOfOrder(env: Env, n0: Node, cs: seq<Envelope>, ds: seq<nat>) returns (k: nat)
    requires WellFormed(n0) && Idle(n0) && ValidChain(env, n0, cs)
    requires forall i :: 0 <= i < |ds| ==> ds[i] < |cs|
    ensures UpTo(cs, k, Seen(ds))
    ensures DeliverAll(env, n0, cs, ds) == InOrder(env, n0, cs, k).(future := DeliverAll(env, n0, cs, ds).future)
    ensures At(env, n0, cs, k, Seen(ds), DeliverAll(env, n0, cs, ds))
    decreases |ds|
  {
    hide HandleCommit, At, ValidChain, Idle, InOrder;
    if ds == [] {
      k := 0;
      assert Seen(ds) == {};
      StartsAt(env, n0, cs);
    } else {
      var init := ds[..|ds| - 1];
      var j := OutOfOrder(env, n0, cs, init);
      assert Seen(ds) == Seen(init) + {ds[|ds| - 1]} by {
        assert ds == init + [ds[|ds| - 1]];
      }
      k := DeliverOne(env, n0, cs, j, Seen(init), DeliverAll(env, n0, cs, init), ds[|ds| - 1]);
    }
    AtMeans(env, n0, cs, k, Seen(ds), DeliverAll(env, n0, cs, ds));
  }

  lemma StartsAt(env: Env, n0: Node, cs: seq<Envelope>)
    requires WellFormed(n0) && Idle(n0)
    ensures At(env, n0, cs, 0, {}, n0)
  {
  }

  lemma AtMeans(env: Env, n0: Node, cs: seq<Envelope>, k: nat, seen: set<nat>, n: Node)
    requires WellFormed(n0) && k <= |cs| && At(env, n0, cs, k, seen, n)
    ensures WellFormed(n) && n == InOrder(env, n0, cs, k).(future := n.future)
    ensures OnlyLater(n0.epoch, cs, k, n.future) && Waits(n0.epoch, cs, k, seen, n.future)
    ensures forall e :: e in n.future ==> n.future[e] != []
  {
    hide InOrder, OnlyLater, Waits;
  }

  /**
    * Confluence: once every commit has arrived at least once,
    * the node is in the in-order final state, to the last field.
    */
  lemma Confluence(env: Env, n0: Node, cs: seq<Envelope>, ds: seq<nat>)
    requires WellFormed(n0) && Idle(n0) && ValidChain(env, n0, cs)
    requires forall i :: 0 <= i < |ds| ==> ds[i] < |cs|
    requires forall j :: 0 <= j < |cs| ==> j in ds
    ensures DeliverAll(env, n0, cs, ds) == InOrder(env, n0, cs, |cs|)
  {
    hide DeliverAll, InOrder, ValidChain;
    var k := OutOfOrder(env, n0, cs, ds);
    assert k == |cs| by {
      assert k < |cs| ==> k in Seen(ds);
    }
    InOrderSteps(env, n0, cs, |cs|);
    assert DeliverAll(env, n0, cs, ds).future == map[];
  }
}
